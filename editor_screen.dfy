/**
 * The `EditorScreen` composable's state and handlers: the remembered text field value,
 * the active styles, and the undo and redo stacks, updated in place by each handler.
 * Every handler is proved to take the state exactly where the matching function of
 * `EditorModel` takes it, and to keep `Valid`.
 */
module EditorScreen {
  import opened LinkedSets
  import opened Styles
  import opened Annotated
  import opened Editing
  import opened Toolbar
  import opened EditorModel

  class Editor {
    var value: TextFieldValue
    var activeStyles: seq<SpanType>
    var undoStack: seq<TextFieldValue>
    var redoStack: seq<TextFieldValue>

    function State(): EditorState
      reads this
    {
      EditorState(value, activeStyles, undoStack, redoStack)
    }

    ghost predicate Valid()
      reads this
    {
      EditorModel.Valid(State())
    }

    /** `TextFieldValue()`, no active style, empty stacks. */
    constructor()
      ensures State() == Initial() && Valid()
    {
      value := TextFieldValue(AnnotatedString([], []), TextRange(0, 0));
      activeStyles := [];
      undoStack := [];
      redoStack := [];
    }

    /** `updateText`. */
    method UpdateText(newValue: TextFieldValue)
      modifies this
      ensures State() == Commit(old(State()), newValue)
    {
      if newValue.Text() != value.Text() || newValue.annotated != value.annotated {
        undoStack := undoStack + [value];
        redoStack := [];
      }
      value := newValue;
    }

    /** `updateActiveStyles`. */
    method UpdateActiveStyles(v: TextFieldValue)
      requires ValidValue(v)
      modifies this
      ensures State() == Refresh(old(State()), v)
    {
      activeStyles := CollectActiveStyles(v);
    }

    /** `onValueChange`: store what the classifier builds, then recompute where it does. */
    method OnValueChange(newValue: TextFieldValue)
      requires Valid() && ValidValue(newValue)
      modifies this
      ensures State() == ApplyChange(old(State()), newValue) && Valid()
    {
      var step := ValueChange(value, activeStyles, newValue);
      UpdateText(step.value);
      if step.recompute {
        UpdateActiveStyles(step.value);
      }
    }

    /** `toggleStyle`. */
    method ToggleStyle(t: SpanType)
      requires Valid()
      modifies this
      ensures State() == ApplyToggle(old(State()), t) && Valid()
    {
      var selection := value.selection;
      if selection.Collapsed() {
        activeStyles := ToggleActive(activeStyles, t);
      } else {
        var styled := AddStyle(value.annotated, Encode(t), selection.start, selection.end);
        var newValue := WithAnnotated(value, styled);
        UpdateText(newValue);
        UpdateActiveStyles(newValue);
      }
    }

    /** The Undo button. */
    method Undo()
      requires Valid()
      modifies this
      ensures State() == EditorModel.Undo(old(State())) && Valid()
    {
      if |undoStack| > 0 {
        redoStack := redoStack + [value];
        value := undoStack[|undoStack| - 1];
        undoStack := undoStack[..|undoStack| - 1];
      }
      UndoRedoValid(old(State()));
    }

    /** The Redo button. */
    method Redo()
      requires Valid()
      modifies this
      ensures State() == EditorModel.Redo(old(State())) && Valid()
    {
      if |redoStack| > 0 {
        undoStack := undoStack + [value];
        value := redoStack[|redoStack| - 1];
        redoStack := redoStack[..|redoStack| - 1];
      }
      UndoRedoValid(old(State()));
    }

    /** The Reset button. */
    method Reset()
      requires Valid()
      modifies this
      ensures State() == ApplyReset(old(State())) && Valid()
    {
      var selection := value.selection;
      if selection.Collapsed() {
        activeStyles := [];
      } else {
        var styled := AddStyle(value.annotated, ResetStyle(), selection.start, selection.end);
        var newValue := WithAnnotated(value, styled);
        UpdateText(newValue);
        UpdateActiveStyles(newValue);
      }
    }

    /** The Bullet button. */
    method ToggleBullet()
      requires Valid()
      modifies this
      ensures State() == ApplyBullet(old(State())) && Valid()
    {
      OnValueChange(BulletProposal(value));
    }

    /** The Number button. */
    method ToggleNumber()
      requires Valid()
      modifies this
      ensures State() == ApplyNumber(old(State())) && Valid()
    {
      OnValueChange(NumberProposal(value));
    }
  }
}
