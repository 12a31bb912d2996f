/**
 * What the Bullet and Number buttons do once their proposal has gone through
 * `onValueChange`. The classifier splices at the old caret, so the stored text is the
 * rewritten line when the caret sits at the line start, and something else otherwise.
 */
module ToolbarProps {
  import opened Wrappers
  import opened Styles
  import opened Annotated
  import opened TextOps
  import opened Editing
  import opened EditingProps
  import opened Toolbar

  /** A run of two or more characters put in at a collapsed caret is taken as an insertion. */
  lemma InsertAtCaret(v: TextFieldValue, active: seq<SpanType>, nv: TextFieldValue, ins: string)
    requires ValidValue(v) && ValidValue(nv) && v.selection.Collapsed()
    requires var p := v.selection.start;
      && |ins| >= 2
      && nv.Text() == v.Text()[..p] + ins + v.Text()[p..]
      && nv.selection == TextRange(p + |ins|, p + |ins|)
    ensures ValueChange(v, active, nv).value.Text() == nv.Text()
    ensures ValueChange(v, active, nv).value.selection == nv.selection
  {
    var p := v.selection.start;
    assert |nv.Text()| == |v.Text()| + |ins|;
    assert !EnterTyped(v, nv);
    assert Classify(v, nv) == Insertion;
    InsertionResult(v, active, nv);
    assert nv.Text()[p..p + |ins|] == ins;
  }

  /**
   * One character other than a line break put in at a collapsed caret that moves one
   * further on is taken as that character typed.
   */
  lemma TypeAtCaret(v: TextFieldValue, active: seq<SpanType>, nv: TextFieldValue)
    requires ValidValue(v) && ValidValue(nv) && v.selection.Collapsed()
    requires var p := v.selection.start;
      && |nv.Text()| == |v.Text()| + 1 && p < |nv.Text()| && nv.Text()[p] != '\n'
      && nv.selection == TextRange(p + 1, p + 1)
    ensures var p := v.selection.start;
      && ValueChange(v, active, nv).value.Text() == v.Text()[..p] + [nv.Text()[p]] + v.Text()[p..]
      && ValueChange(v, active, nv).value.selection == nv.selection
  {
    var p := v.selection.start;
    assert ListEditFor(v, nv).None?;
    assert Classify(v, nv) == Insertion;
    InsertionResult(v, active, nv);
    assert nv.Text()[p..p + 1] == [nv.Text()[p]];
  }

  /** Characters removed right after a caret that stays put are taken as a forward delete. */
  lemma DeleteAtCaret(v: TextFieldValue, active: seq<SpanType>, nv: TextFieldValue, d: int)
    requires ValidValue(v) && ValidValue(nv) && v.selection.Collapsed()
    requires var p := v.selection.start;
      && 0 < d && p + d <= |v.Text()|
      && nv.Text() == v.Text()[..p] + v.Text()[p + d..]
      && nv.selection == TextRange(p, p)
    ensures ValueChange(v, active, nv).value.Text() == nv.Text()
    ensures ValueChange(v, active, nv).value.selection == nv.selection
  {
    assert |nv.Text()| == |v.Text()| - d;
    assert Classify(v, nv) == ForwardDelete;
    ForwardDeleteResult(v, active, nv);
  }

  /**
   * A shorter text whose caret lies before a collapsed old caret is taken as a backspace:
   * whatever the new text holds, the stored text is the old one without `[q, p)`.
   */
  lemma BackspaceToCaret(v: TextFieldValue, active: seq<SpanType>, nv: TextFieldValue, q: int)
    requires ValidValue(v) && ValidValue(nv) && v.selection.Collapsed()
    requires |nv.Text()| < |v.Text()| && nv.selection.start == q && 0 <= q < v.selection.start
    ensures ValueChange(v, active, nv).value.Text() == v.Text()[..q] + v.Text()[v.selection.start..]
    ensures ValueChange(v, active, nv).value.selection.start == q
  {
    assert !EnterTyped(v, nv);
    assert Classify(v, nv) == Backspace;
    BackspaceResult(v, active, nv);
  }

  /**
   * A text `d` characters shorter whose caret stays at a collapsed old caret is taken as a
   * forward delete: whatever the new text holds, the stored text is the old one without
   * the `d` characters after the caret.
   */
  lemma ShrinkAtCaret(v: TextFieldValue, active: seq<SpanType>, nv: TextFieldValue, d: int)
    requires ValidValue(v) && ValidValue(nv) && v.selection.Collapsed()
    requires var p := v.selection.start;
      && 0 < d && |nv.Text()| == |v.Text()| - d && nv.selection == TextRange(p, p)
    ensures var p := v.selection.start;
      && p + d <= |v.Text()|
      && ValueChange(v, active, nv).value.Text() == v.Text()[..p] + v.Text()[p + d..]
      && ValueChange(v, active, nv).value.selection == nv.selection
  {
    assert !EnterTyped(v, nv);
    assert Classify(v, nv) == ForwardDelete;
    ForwardDeleteResult(v, active, nv);
  }

  /** The caret is collapsed at the start of its line. */
  predicate AtLineStart(v: TextFieldValue)
    requires ValidValue(v)
  {
    v.selection.Collapsed() && v.selection.start == CaretLine(v).start
  }

  /** Bullet at the start of a line with no marker: the line gains `"• "`. */
  lemma BulletAddAtLineStart(v: TextFieldValue, active: seq<SpanType>)
    requires ValidValue(v) && AtLineStart(v)
    requires !StartsWith(CaretLine(v).content, BulletMarker) && NumberMarker(CaretLine(v).content).None?
    ensures var l := CaretLine(v);
      var r := ValueChange(v, active, BulletProposal(v)).value;
      && r.Text() == v.Text()[..l.start] + BulletMarker + v.Text()[l.start..]
      && r.selection == TextRange(l.start + 2, l.start + 2)
  {
    BulletProposalAtPlainLineStart(v);
    InsertAtCaret(v, active, BulletProposal(v), BulletMarker);
  }

  /** Bullet at the start of a bullet item: the line loses its `"• "`. */
  lemma BulletRemoveAtLineStart(v: TextFieldValue, active: seq<SpanType>)
    requires ValidValue(v) && AtLineStart(v)
    requires StartsWith(CaretLine(v).content, BulletMarker)
    ensures var l := CaretLine(v);
      var r := ValueChange(v, active, BulletProposal(v)).value;
      && r.Text() == v.Text()[..l.start] + v.Text()[l.start + 2..]
      && r.selection == TextRange(l.start, l.start)
  {
    BulletProposalAtBulletLineStart(v);
    DeleteAtCaret(v, active, BulletProposal(v), 2);
  }

  /** Number at the start of a line with no marker: the line gains `"1. "`. */
  lemma NumberAddAtLineStart(v: TextFieldValue, active: seq<SpanType>)
    requires ValidValue(v) && AtLineStart(v)
    requires !StartsWith(CaretLine(v).content, BulletMarker) && NumberMarker(CaretLine(v).content).None?
    ensures var l := CaretLine(v);
      var r := ValueChange(v, active, NumberProposal(v)).value;
      && r.Text() == v.Text()[..l.start] + "1. " + v.Text()[l.start..]
      && r.selection == TextRange(l.start + 3, l.start + 3)
  {
    NumberProposalAtPlainLineStart(v);
    InsertAtCaret(v, active, NumberProposal(v), "1. ");
  }

  /** Number at the start of a numbered item: the line loses its `"{n}. "`. */
  lemma NumberRemoveAtLineStart(v: TextFieldValue, active: seq<SpanType>)
    requires ValidValue(v) && AtLineStart(v)
    requires NumberMarker(CaretLine(v).content).Some?
    ensures var l := CaretLine(v);
      var m := NumberMarker(l.content).value + 2;
      var r := ValueChange(v, active, NumberProposal(v)).value;
      && r.Text() == v.Text()[..l.start] + v.Text()[l.start + m..]
      && r.selection == TextRange(l.start, l.start)
  {
    var m := NumberMarker(CaretLine(v).content).value + 2;
    NumberProposalAtNumberedLineStart(v, m);
    DeleteAtCaret(v, active, NumberProposal(v), m);
  }

  /**
   * Bullet with the caret two or more characters into a line with no marker: the proposal
   * puts `"• "` at the line start and the caret two further on, which the classifier reads
   * as the two characters before the caret typed again at the old caret. The stored text
   * repeats them instead of gaining a marker.
   */
  lemma BulletMidLine(v: TextFieldValue, active: seq<SpanType>)
    requires ValidValue(v) && v.selection.Collapsed()
    requires CaretLine(v).start + 2 <= v.selection.start
    requires !StartsWith(CaretLine(v).content, BulletMarker) && NumberMarker(CaretLine(v).content).None?
    ensures var p := v.selection.start;
      var r := ValueChange(v, active, BulletProposal(v)).value;
      && r.Text() == v.Text()[..p] + v.Text()[p - 2..p] + v.Text()[p..]
      && r.selection == TextRange(p + 2, p + 2)
  {
    var nv := BulletProposal(v);
    BulletProposalMidLine(v);
    assert !EnterTyped(v, nv);
    assert Classify(v, nv) == Insertion;
    InsertionResult(v, active, nv);
  }

  /**
   * Number at the start of a bullet item: the proposal swaps `"• "` for `"1. "` and puts the
   * caret one further on, which the classifier reads as `'1'` typed at the caret. The stored
   * line keeps its bullet behind the `'1'`.
   */
  lemma NumberOnBulletLineAtStart(v: TextFieldValue, active: seq<SpanType>)
    requires ValidValue(v) && AtLineStart(v)
    requires StartsWith(CaretLine(v).content, BulletMarker)
    ensures var p := v.selection.start;
      var r := ValueChange(v, active, NumberProposal(v)).value;
      && r.Text() == v.Text()[..p] + "1" + v.Text()[p..]
      && r.selection == TextRange(p + 1, p + 1)
  {
    NumberProposalAtBulletLineStart(v);
    TypeAtCaret(v, active, NumberProposal(v));
  }

  /**
   * Bullet with the caret inside a numbered item: the proposal is `d` shorter and its caret
   * `d` further back (not before the line start), which the classifier reads as a backspace
   * over the characters before the old caret. The stored line loses those characters and
   * keeps its number marker, or what is left of it.
   */
  lemma BulletOnNumberedLineInBody(v: TextFieldValue, active: seq<SpanType>, d: int)
    requires ValidValue(v) && v.selection.Collapsed()
    requires NumberMarker(CaretLine(v).content).Some? && d == NumberMarker(CaretLine(v).content).value
    requires CaretLine(v).start < v.selection.start
    ensures var p := v.selection.start;
      var q := Max(p - d, CaretLine(v).start);
      var r := ValueChange(v, active, BulletProposal(v)).value;
      && CaretLine(v).start <= q < p
      && r.Text() == v.Text()[..q] + v.Text()[p..]
      && r.selection.start == q
  {
    var q := Max(v.selection.start - d, CaretLine(v).start);
    BulletProposalShrinksNumberedLine(v, d);
    BackspaceToCaret(v, active, BulletProposal(v), q);
  }

  /**
   * Bullet at the start of a numbered item whose digit run has `d` characters: the proposal
   * is `d` shorter with the caret in place, which the classifier reads as a forward delete
   * of the `d` characters after the caret. The stored line keeps `". "` and gains no bullet.
   */
  lemma BulletOnNumberedLineHead(v: TextFieldValue, active: seq<SpanType>, d: int)
    requires ValidValue(v) && AtLineStart(v)
    requires NumberMarker(CaretLine(v).content).Some? && d == NumberMarker(CaretLine(v).content).value
    ensures var p := v.selection.start;
      var r := ValueChange(v, active, BulletProposal(v)).value;
      && p + d <= |v.Text()|
      && r.Text() == v.Text()[..p] + v.Text()[p + d..]
      && r.selection == TextRange(p, p)
  {
    BulletProposalShrinksNumberedLine(v, d);
    ShrinkAtCaret(v, active, BulletProposal(v), d);
  }
}
