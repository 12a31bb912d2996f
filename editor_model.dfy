/**
 * The state of the editor screen as a value (the text field value, the active styles,
 * the undo stack and the redo stack) and what each handler makes of it. The `Editor`
 * class moves through exactly these states.
 */
module EditorModel {
  import opened Wrappers
  import opened LinkedSets
  import opened Styles
  import opened Annotated
  import opened Editing
  import opened Toolbar
  import opened EditingProps

  datatype EditorState = EditorState(
    value: TextFieldValue,
    active: seq<SpanType>,
    undo: seq<TextFieldValue>,
    redo: seq<TextFieldValue>)

  /** Every stored value is a valid text field value and the active styles form a set. */
  predicate Valid(s: EditorState) {
    && ValidValue(s.value) && NoDup(s.active)
    && (forall i :: 0 <= i < |s.undo| ==> ValidValue(s.undo[i]))
    && (forall i :: 0 <= i < |s.redo| ==> ValidValue(s.redo[i]))
  }

  /** An empty `TextFieldValue()`, no active style, empty stacks. */
  function Initial(): (s: EditorState)
    ensures Valid(s) && s.value.Text() == [] && s.undo == [] && s.redo == []
  {
    EditorState(TextFieldValue(AnnotatedString([], []), TextRange(0, 0)), [], [], [])
  }

  // ---------------------------------------------------------------------------------
  // History: `updateText` and the Undo and Redo buttons

  /** `updateText` records the old value only when the text or its spans change. */
  predicate Changed(old_: TextFieldValue, new_: TextFieldValue) {
    new_.Text() != old_.Text() || new_.annotated != old_.annotated
  }

  function Commit(s: EditorState, v: TextFieldValue): (r: EditorState)
    ensures r.value == v && r.active == s.active
    ensures Changed(s.value, v) ==> r.undo == s.undo + [s.value] && r.redo == []
    ensures !Changed(s.value, v) ==> r.undo == s.undo && r.redo == s.redo
  {
    if Changed(s.value, v) then EditorState(v, s.active, s.undo + [s.value], [])
    else s.(value := v)
  }

  function Undo(s: EditorState): (r: EditorState)
    ensures s.undo == [] ==> r == s
    ensures r.active == s.active
  {
    if |s.undo| > 0 then
      EditorState(s.undo[|s.undo| - 1], s.active, s.undo[..|s.undo| - 1], s.redo + [s.value])
    else s
  }

  function Redo(s: EditorState): (r: EditorState)
    ensures s.redo == [] ==> r == s
    ensures r.active == s.active
  {
    if |s.redo| > 0 then
      EditorState(s.redo[|s.redo| - 1], s.active, s.undo + [s.value], s.redo[..|s.redo| - 1])
    else s
  }

  function Reverse<T>(xs: seq<T>): (r: seq<T>)
    ensures |r| == |xs| && forall i :: 0 <= i < |xs| ==> r[i] == xs[|xs| - 1 - i]
  {
    if xs == [] then [] else Reverse(xs[1..]) + [xs[0]]
  }

  /**
   * The history as one line of values, oldest first: the undo stack, the current value,
   * then the redo stack from its top down.
   */
  function Timeline(s: EditorState): seq<TextFieldValue> {
    s.undo + [s.value] + Reverse(s.redo)
  }

  /** Undo moves one step back along the timeline and leaves the timeline as it is. */
  lemma UndoKeepsTimeline(s: EditorState)
    ensures Timeline(Undo(s)) == Timeline(s)
    ensures |s.undo| > 0 ==> |Undo(s).undo| == |s.undo| - 1
    ensures Timeline(s)[|Undo(s).undo|] == Undo(s).value
  {
    if |s.undo| > 0 {
      var r := Undo(s);
      assert Reverse(r.redo) == [s.value] + Reverse(s.redo);
      assert s.undo == r.undo + [r.value];
    }
  }

  /** Redo moves one step forward along the timeline and leaves the timeline as it is. */
  lemma RedoKeepsTimeline(s: EditorState)
    ensures Timeline(Redo(s)) == Timeline(s)
    ensures |s.redo| > 0 ==> |Redo(s).undo| == |s.undo| + 1
    ensures Timeline(s)[|Redo(s).undo|] == Redo(s).value
  {
    if |s.redo| > 0 {
      var r := Redo(s);
      assert Reverse(s.redo) == [r.value] + Reverse(r.redo);
    }
  }

  /** Undo then Redo restores the state; Redo then Undo too. */
  lemma UndoRedo(s: EditorState)
    ensures |s.undo| > 0 ==> Redo(Undo(s)) == s
    ensures |s.redo| > 0 ==> Undo(Redo(s)) == s
  {
    if |s.undo| > 0 {
      assert Undo(s).undo + [Undo(s).value] == s.undo;
    }
    if |s.redo| > 0 {
      assert Redo(s).redo + [Redo(s).value] == s.redo;
    }
  }

  /**
   * A change that updates the text or its spans can be undone, and then redone: Undo
   * brings back the old value with the old undo stack, and the new value is the one redo
   * step. A new change drops the redo future from the timeline.
   */
  lemma UndoAfterCommit(s: EditorState, v: TextFieldValue)
    requires Changed(s.value, v)
    ensures Undo(Commit(s, v)) == EditorState(s.value, s.active, s.undo, [v])
    ensures Redo(Undo(Commit(s, v))) == Commit(s, v)
    ensures Timeline(Commit(s, v)) == s.undo + [s.value, v]
  {
    assert (s.undo + [s.value])[..|s.undo|] == s.undo;
  }

  /** A value with the same text and spans is stored without touching the history. */
  lemma CommitUnchanged(s: EditorState, v: TextFieldValue)
    requires v.annotated == s.value.annotated
    ensures Commit(s, v) == s.(value := v)
  {
  }

  lemma CommitValid(s: EditorState, v: TextFieldValue)
    requires Valid(s) && ValidValue(v)
    ensures Valid(Commit(s, v))
  {
  }

  lemma UndoRedoValid(s: EditorState)
    requires Valid(s)
    ensures Valid(Undo(s)) && Valid(Redo(s))
  {
  }

  // ---------------------------------------------------------------------------------
  // The handlers

  /** `updateActiveStyles(v)`. */
  function Refresh(s: EditorState, v: TextFieldValue): EditorState
    requires ValidValue(v)
  {
    s.(active := LookBehind(v))
  }

  /**
   * `onValueChange`: the value the classifier builds is stored through `updateText`, and
   * the active styles are recomputed from it only in the branches that do so.
   */
  function ApplyChange(s: EditorState, nv: TextFieldValue): (r: EditorState)
    requires Valid(s) && ValidValue(nv)
    ensures Valid(r)
  {
    var step := ValueChange(s.value, s.active, nv);
    CommitValid(s, step.value);
    var c := Commit(s, step.value);
    if step.recompute then Refresh(c, step.value) else c
  }

  /**
   * `toggleStyle`: on a collapsed selection the type is toggled among the active styles;
   * on a selection one span of the type's style is appended over it, and the styles are
   * recomputed.
   */
  function ApplyToggle(s: EditorState, t: SpanType): (r: EditorState)
    requires Valid(s)
    ensures Valid(r)
  {
    var sel := s.value.selection;
    if sel.Collapsed() then s.(active := ToggleActive(s.active, t))
    else
      var v := WithAnnotated(s.value, AddStyle(s.value.annotated, Encode(t), sel.start, sel.end));
      CommitValid(s, v);
      Refresh(Commit(s, v), v)
  }

  /**
   * The Reset button: on a collapsed selection the active styles are cleared; on a
   * selection one span of the reset style is appended over it, and the styles are
   * recomputed.
   */
  function ApplyReset(s: EditorState): (r: EditorState)
    requires Valid(s)
    ensures Valid(r)
  {
    var sel := s.value.selection;
    if sel.Collapsed() then s.(active := [])
    else
      var v := WithAnnotated(s.value, AddStyle(s.value.annotated, ResetStyle(), sel.start, sel.end));
      CommitValid(s, v);
      Refresh(Commit(s, v), v)
  }

  /** The Bullet button: its proposal goes through `onValueChange`. */
  function ApplyBullet(s: EditorState): (r: EditorState)
    requires Valid(s)
    ensures Valid(r)
  {
    ApplyChange(s, BulletProposal(s.value))
  }

  /** The Number button: its proposal goes through `onValueChange`. */
  function ApplyNumber(s: EditorState): (r: EditorState)
    requires Valid(s)
    ensures Valid(r)
  {
    ApplyChange(s, NumberProposal(s.value))
  }

  // ---------------------------------------------------------------------------------
  // What each handler does to the history

  /**
   * Moving the caret or the selection keeps the spans and both stacks; the active styles
   * are read again from the character before the new caret.
   */
  lemma SelectionMoveKeepsHistory(s: EditorState, nv: TextFieldValue)
    requires Valid(s) && ValidValue(nv) && nv.Text() == s.value.Text()
    ensures var r := ApplyChange(s, nv);
      && r.value == TextFieldValue(s.value.annotated, nv.selection)
      && r.undo == s.undo && r.redo == s.redo
      && r.active == LookBehind(r.value)
  {
    SelectionOnlyKeepsSpans(s.value, s.active, nv);
  }

  /**
   * Typing at a collapsed caret is one undo step: the old value goes on the undo stack,
   * the redo stack is cleared, the active styles are kept, and Undo brings back the
   * value as it was.
   */
  lemma TypingIsUndoable(s: EditorState, nv: TextFieldValue)
    requires Valid(s) && ValidValue(nv) && Classify(s.value, nv) == Insertion
    ensures var r := ApplyChange(s, nv);
      && r.undo == s.undo + [s.value] && r.redo == [] && r.active == s.active
      && Undo(r).value == s.value && Undo(r).undo == s.undo
  {
    InsertionResult(s.value, s.active, nv);
  }

  /** Backspace and forward delete are one undo step each, and Undo brings the value back. */
  lemma DeletionIsUndoable(s: EditorState, nv: TextFieldValue)
    requires Valid(s) && ValidValue(nv)
    requires Classify(s.value, nv) == Backspace || Classify(s.value, nv) == ForwardDelete
    ensures var r := ApplyChange(s, nv);
      && r.undo == s.undo + [s.value] && r.redo == []
      && r.active == LookBehind(r.value)
      && Undo(r).value == s.value && Undo(r).undo == s.undo
  {
    if Classify(s.value, nv) == Backspace {
      BackspaceResult(s.value, s.active, nv);
    } else {
      ForwardDeleteResult(s.value, s.active, nv);
    }
  }

  /**
   * A style button on a collapsed caret changes only the active styles: the value and
   * both stacks are kept.
   */
  lemma ToggleAtCaret(s: EditorState, t: SpanType)
    requires Valid(s) && s.value.selection.Collapsed()
    ensures var r := ApplyToggle(s, t);
      && r.value == s.value && r.undo == s.undo && r.redo == s.redo
      && r.active == ToggleActive(s.active, t)
  {
  }

  /**
   * A style button on a selection appends one span of the type's style over exactly the
   * selection, keeps the text and the selection, records one undo step, and reads the
   * active styles from the new spans; Undo takes the span off again.
   */
  lemma ToggleOnSelection(s: EditorState, t: SpanType)
    requires Valid(s) && !s.value.selection.Collapsed()
    ensures var r := ApplyToggle(s, t);
      var sel := s.value.selection;
      && r.value.Text() == s.value.Text() && r.value.selection == sel
      && r.value.annotated.spans == s.value.annotated.spans + [Range(Encode(t), sel.start, sel.end)]
      && r.undo == s.undo + [s.value] && r.redo == []
      && r.active == LookBehind(r.value)
      && Undo(r).value == s.value
  {
    var sel := s.value.selection;
    var a := AddStyle(s.value.annotated, Encode(t), sel.start, sel.end);
    assert |a.spans| == |s.value.annotated.spans| + 1;
  }

  /** Reset on a collapsed caret clears the active styles and nothing else. */
  lemma ResetAtCaret(s: EditorState)
    requires Valid(s) && s.value.selection.Collapsed()
    ensures var r := ApplyReset(s);
      r.value == s.value && r.undo == s.undo && r.redo == s.redo && r.active == []
  {
  }

  /**
   * Reset on a selection appends one span of the body style over the selection and
   * records one undo step; Undo takes it off again.
   */
  lemma ResetOnSelection(s: EditorState)
    requires Valid(s) && !s.value.selection.Collapsed()
    ensures var r := ApplyReset(s);
      var sel := s.value.selection;
      && r.value.Text() == s.value.Text() && r.value.selection == sel
      && r.value.annotated.spans == s.value.annotated.spans + [Range(ResetStyle(), sel.start, sel.end)]
      && r.undo == s.undo + [s.value] && r.redo == []
      && r.active == LookBehind(r.value)
      && Undo(r).value == s.value
  {
    var sel := s.value.selection;
    var a := AddStyle(s.value.annotated, ResetStyle(), sel.start, sel.end);
    assert |a.spans| == |s.value.annotated.spans| + 1;
  }
}
