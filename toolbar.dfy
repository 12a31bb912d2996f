/**
 * The Bullet and Number buttons of the formatting toolbar: each finds the line around
 * the caret, rewrites its list marker, moves the selection by the change in length, and
 * hands the result to `onValueChange` as a span-free value.
 */
module Toolbar {
  import opened Wrappers
  import opened Annotated
  import opened TextOps
  import opened Editing

  /** `text.lastIndexOf('\n', caret - 1) + 1`: the start of the caret's line. */
  function LineStart(text: string, caret: int): (r: int)
    requires 0 <= caret <= |text|
    ensures 0 <= r <= caret
    ensures r == 0 || text[r - 1] == '\n'
    ensures forall j :: r <= j < caret ==> text[j] != '\n'
  {
    LastIndexOf(text, '\n', caret - 1) + 1
  }

  /** `text.indexOf('\n', caret)`, or the text's length when there is none: the line's end. */
  function LineEnd(text: string, caret: int): (r: int)
    requires 0 <= caret <= |text|
    ensures caret <= r <= |text|
    ensures r == |text| || text[r] == '\n'
    ensures forall j :: caret <= j < r ==> text[j] != '\n'
  {
    var i := IndexOf(text, '\n', caret);
    if i != -1 then i else |text|
  }

  /** `text.replaceRange(s, e, repl)`. */
  function ReplaceRange(text: string, s: int, e: int, repl: string): (r: string)
    requires 0 <= s <= e <= |text|
    ensures |r| == |text| - (e - s) + |repl|
    ensures r[..s] == text[..s] && r[s..s + |repl|] == repl && r[s + |repl|..] == text[e..]
  {
    text[..s] + repl + text[e..]
  }

  // ---------------------------------------------------------------------------------
  // The rewritten line

  /**
   * The Bullet button: a bullet item loses its `"• "`; any other line becomes a bullet
   * item, whose body is the line after a number marker, if it had one.
   */
  function BulletLine(line: string): (r: string)
    ensures StartsWith(line, BulletMarker) ==> BulletMarker + r == line
    ensures !StartsWith(line, BulletMarker) ==>
      && StartsWith(r, BulletMarker) && |r| - 2 <= |line|
      && r[2..] == line[|line| - (|r| - 2)..]
      && (|r| - 2 == |line| <==> NumberMarker(line).None?)
      && (|r| - 2 < |line| ==> NumberMarkerText(line[..|line| - (|r| - 2)]))
  {
    if StartsWith(line, BulletMarker) then line[2..] else BulletMarker + StripNumberMarker(line)
  }

  /**
   * The Number button: a numbered item loses its marker; any other line becomes item 1,
   * whose body is the line after a `"• "`, if it had one.
   */
  function NumberLine(line: string): (r: string)
    ensures NumberMarker(line).Some? ==>
      && |r| < |line| && r == line[|line| - |r|..]
      && |line| - |r| == NumberMarker(line).value + 2
      && NumberMarkerText(line[..|line| - |r|])
    ensures NumberMarker(line).None? ==>
      && StartsWith(r, "1. ") && NumberMarker(r) == Some(1)
      && (if StartsWith(line, BulletMarker) then BulletMarker + r[3..] == line else r[3..] == line)
  {
    if NumberMarker(line).Some? then StripNumberMarker(line)
    else
      var clean := if StartsWith(line, BulletMarker) then line[2..] else line;
      assert "1. " + clean == "1" + (". " + clean);
      LeadingDigitsOf("1", ". " + clean);
      "1. " + clean
  }

  // ---------------------------------------------------------------------------------
  // The moved selection

  /**
   * The selection the Bullet button computes, as written: removing a bullet moves it two
   * places back but not before the line start; adding one moves it by
   * `2 + (|clean| - |line|)` with no lower bound, which is negative when a number marker
   * of two or more characters is replaced.
   */
  function BulletSelectionAsWritten(sel: TextRange, ls: int, line: string): (r: TextRange)
    ensures StartsWith(line, BulletMarker) ==> r.start >= ls && r.end >= ls
    ensures !StartsWith(line, BulletMarker) ==>
      r.start - sel.start == r.end - sel.end == |BulletLine(line)| - |line|
  {
    if StartsWith(line, BulletMarker) then
      TextRange(Max(sel.start - 2, ls), Max(sel.end - 2, ls))
    else
      var offset := 2 + (|StripNumberMarker(line)| - |line|);
      TextRange(sel.start + offset, sel.end + offset)
  }

  /** The Bullet button's selection with the lower bound `lineStart` kept in both branches. */
  function BulletSelection(sel: TextRange, ls: int, line: string): (r: TextRange)
    ensures r.start >= ls && r.end >= ls
    ensures sel.start <= sel.end ==> r.start <= r.end
    ensures var w := BulletSelectionAsWritten(sel, ls, line);
      w.start >= ls && w.end >= ls ==> r == w
  {
    if StartsWith(line, BulletMarker) then
      TextRange(Max(sel.start - 2, ls), Max(sel.end - 2, ls))
    else
      var offset := 2 + (|StripNumberMarker(line)| - |line|);
      TextRange(Max(sel.start + offset, ls), Max(sel.end + offset, ls))
  }

  /**
   * The selection the Number button computes: removing a number marker moves it back by
   * the marker's length but not before the line start; adding `"1. "` moves it forward
   * by `3 + (|clean| - |line|)`, which is 1 or 3.
   */
  function NumberSelection(sel: TextRange, ls: int, line: string): (r: TextRange)
    ensures NumberMarker(line).Some? ==> r.start >= ls && r.end >= ls
    ensures NumberMarker(line).None? ==>
      r.start - sel.start == r.end - sel.end == |NumberLine(line)| - |line| >= 1
    ensures sel.start <= sel.end ==> r.start <= r.end
  {
    if NumberMarker(line).Some? then
      var offset := |StripNumberMarker(line)| - |line|;
      TextRange(Max(sel.start + offset, ls), Max(sel.end + offset, ls))
    else
      var clean := if StartsWith(line, BulletMarker) then line[2..] else line;
      var offset := 3 + (|clean| - |line|);
      TextRange(sel.start + offset, sel.end + offset)
  }

  // ---------------------------------------------------------------------------------
  // The value each button hands to `onValueChange`

  /** The line around the caret: its start, its end, and its content. */
  datatype LineAt = LineAt(start: int, end: int, content: string)

  function CaretLine(v: TextFieldValue): (r: LineAt)
    requires ValidValue(v)
    ensures 0 <= r.start <= v.selection.start <= r.end <= |v.Text()|
    ensures r.content == v.Text()[r.start..r.end] && '\n' !in r.content
  {
    var ls := LineStart(v.Text(), v.selection.start);
    var le := LineEnd(v.Text(), v.selection.start);
    var line := v.Text()[ls..le];
    assert forall j :: 0 <= j < |line| ==> line[j] != '\n' by {
      forall j | 0 <= j < |line| ensures line[j] != '\n' {
        assert line[j] == v.Text()[ls + j];
      }
    }
    LineAt(ls, le, line)
  }

  /** A marker put in front of the line `t[ls..le]` is a marker put in at `ls`. */
  lemma PutLineHead(t: string, ls: int, le: int, mk: string)
    requires 0 <= ls <= le <= |t|
    ensures t[..ls] + mk + t[ls..le] + t[le..] == t[..ls] + mk + t[ls..]
  {
    assert t[ls..] == t[ls..le] + t[le..];
  }

  /** Dropping the first `m` characters of the line `t[ls..le]` drops `t[ls..ls + m]`. */
  lemma DropLineHead(t: string, ls: int, le: int, m: int)
    requires 0 <= ls <= le <= |t| && 0 <= m <= le - ls
    ensures t[..ls] + t[ls..le][m..] + t[le..] == t[..ls] + t[ls + m..]
  {
    assert t[ls + m..] == t[ls..le][m..] + t[le..];
  }

  /**
   * `textFieldValue.copy(text = newText, selection = TextRange(start, end))` for the Bullet
   * button as written: `None` where `TextRange` rejects a negative coordinate.
   */
  function BulletProposalAsWritten(v: TextFieldValue): (r: Option<TextFieldValue>)
    requires ValidValue(v)
    ensures r.Some? ==> ValidValue(r.value) && r.value.annotated.spans == []
  {
    var l := CaretLine(v);
    var newText := ReplaceRange(v.Text(), l.start, l.end, BulletLine(l.content));
    var sel := BulletSelectionAsWritten(v.selection, l.start, l.content);
    if sel.start < 0 || sel.end < 0 then None
    else Some(TextFieldValue(AnnotatedString(newText, []), Coerce(sel, |newText|)))
  }

  /** The Bullet button's proposal, with the selection kept at or after the line start. */
  function BulletProposal(v: TextFieldValue): (r: TextFieldValue)
    requires ValidValue(v)
    ensures ValidValue(r) && r.annotated.spans == []
    ensures var l := CaretLine(v);
      r.Text() == ReplaceRange(v.Text(), l.start, l.end, BulletLine(l.content))
  {
    var l := CaretLine(v);
    var newText := ReplaceRange(v.Text(), l.start, l.end, BulletLine(l.content));
    TextFieldValue(AnnotatedString(newText, []), Coerce(BulletSelection(v.selection, l.start, l.content), |newText|))
  }

  /** The Number button's proposal. */
  function NumberProposal(v: TextFieldValue): (r: TextFieldValue)
    requires ValidValue(v)
    ensures ValidValue(r) && r.annotated.spans == []
    ensures var l := CaretLine(v);
      r.Text() == ReplaceRange(v.Text(), l.start, l.end, NumberLine(l.content))
  {
    var l := CaretLine(v);
    var newText := ReplaceRange(v.Text(), l.start, l.end, NumberLine(l.content));
    TextFieldValue(AnnotatedString(newText, []), Coerce(NumberSelection(v.selection, l.start, l.content), |newText|))
  }

  /** The Bullet proposal, once its rewritten line and its selection are known. */
  lemma BulletProposalFrom(v: TextFieldValue, l: LineAt, repl: string, sel: TextRange)
    requires ValidValue(v) && l == CaretLine(v)
    requires BulletLine(l.content) == repl && BulletSelection(v.selection, l.start, l.content) == sel
    requires 0 <= sel.start <= sel.end <= |v.Text()| - (l.end - l.start) + |repl|
    ensures BulletProposal(v).Text() == v.Text()[..l.start] + repl + v.Text()[l.end..]
    ensures BulletProposal(v).selection == sel
  {
  }

  /** The Number proposal, once its rewritten line and its selection are known. */
  lemma NumberProposalFrom(v: TextFieldValue, l: LineAt, repl: string, sel: TextRange)
    requires ValidValue(v) && l == CaretLine(v)
    requires NumberLine(l.content) == repl && NumberSelection(v.selection, l.start, l.content) == sel
    requires 0 <= sel.start <= sel.end <= |v.Text()| - (l.end - l.start) + |repl|
    ensures NumberProposal(v).Text() == v.Text()[..l.start] + repl + v.Text()[l.end..]
    ensures NumberProposal(v).selection == sel
  {
  }

  // ---------------------------------------------------------------------------------
  // Properties of the buttons

  /** Bullet on a line with no marker: `"• "` goes in at the line start, the selection moves by 2. */
  lemma BulletProposalOnPlainLine(v: TextFieldValue)
    requires ValidValue(v)
    requires !StartsWith(CaretLine(v).content, BulletMarker) && NumberMarker(CaretLine(v).content).None?
    ensures var l := CaretLine(v);
      var nv := BulletProposal(v);
      && nv.Text() == v.Text()[..l.start] + BulletMarker + l.content + v.Text()[l.end..]
      && nv.selection == TextRange(v.selection.start + 2, v.selection.end + 2)
  {
    var l := CaretLine(v);
    BulletLineTwice(l.content);
  }

  /** Two characters put in at `ls` shift the line: the pair at `[p, q)` is the pair that was before `p`. */
  lemma ShiftedPair(t: string, ls: int, le: int, m: string, p: int, q: int)
    requires 0 <= ls <= le <= |t| && |m| == 2 && ls + 2 <= p <= le && q == p + 2
    ensures (t[..ls] + m + t[ls..le] + t[le..])[p..q] == t[p - 2..p]
  {
    var u := t[..ls] + m + t[ls..le] + t[le..];
    assert u[p] == t[p - 2] && u[p + 1] == t[p - 1];
  }

  /**
   * Bullet with a collapsed caret two or more characters into a line with no marker: the
   * proposal is two characters longer, its caret is two further on, and the two
   * characters it has where the old caret was are the two before the old caret.
   */
  lemma BulletProposalMidLine(v: TextFieldValue)
    requires ValidValue(v) && v.selection.Collapsed()
    requires CaretLine(v).start + 2 <= v.selection.start
    requires !StartsWith(CaretLine(v).content, BulletMarker) && NumberMarker(CaretLine(v).content).None?
    ensures var nv := BulletProposal(v);
      var p := v.selection.start;
      && nv.selection == TextRange(p + 2, p + 2) && |nv.Text()| == |v.Text()| + 2
      && nv.Text()[p..nv.selection.start] == v.Text()[p - 2..p]
  {
    var l := CaretLine(v);
    BulletProposalOnPlainLine(v);
    ShiftedPair(v.Text(), l.start, l.end, BulletMarker, v.selection.start, BulletProposal(v).selection.start);
  }

  /** Bullet on a bullet item: the line loses `"• "`, the selection moves back by 2 within the line. */
  lemma BulletProposalOnBulletLine(v: TextFieldValue)
    requires ValidValue(v) && StartsWith(CaretLine(v).content, BulletMarker)
    ensures var l := CaretLine(v);
      var nv := BulletProposal(v);
      && nv.Text() == v.Text()[..l.start] + l.content[2..] + v.Text()[l.end..]
      && nv.selection == TextRange(Max(v.selection.start - 2, l.start), Max(v.selection.end - 2, l.start))
  {
  }

  /** Number on a line with no marker: `"1. "` goes in at the line start, the selection moves by 3. */
  lemma NumberProposalOnPlainLine(v: TextFieldValue)
    requires ValidValue(v)
    requires !StartsWith(CaretLine(v).content, BulletMarker) && NumberMarker(CaretLine(v).content).None?
    ensures var l := CaretLine(v);
      var nv := NumberProposal(v);
      && nv.Text() == v.Text()[..l.start] + "1. " + l.content + v.Text()[l.end..]
      && nv.selection == TextRange(v.selection.start + 3, v.selection.end + 3)
  {
    var l := CaretLine(v);
    NumberLineTwice(l.content);
    var sel := TextRange(v.selection.start + 3, v.selection.end + 3);
    assert NumberSelection(v.selection, l.start, l.content) == sel;
    NumberProposalFrom(v, l, "1. " + l.content, sel);
  }

  /**
   * Number on a bullet item: `"1. "` takes the place of `"• "`, so the line grows by one
   * character and the selection moves by one.
   */
  lemma NumberProposalOnBulletLine(v: TextFieldValue)
    requires ValidValue(v) && StartsWith(CaretLine(v).content, BulletMarker)
    ensures var l := CaretLine(v);
      var nv := NumberProposal(v);
      && nv.Text() == v.Text()[..l.start] + "1. " + l.content[2..] + v.Text()[l.end..]
      && nv.selection == TextRange(v.selection.start + 1, v.selection.end + 1)
  {
    var l := CaretLine(v);
    assert BulletMarker + l.content[2..] == l.content;
    NumberReplacesBullet(l.content[2..]);
    assert !IsDigit(l.content[0]);
    assert NumberMarker(l.content).None?;
    var sel := TextRange(v.selection.start + 1, v.selection.end + 1);
    assert NumberSelection(v.selection, l.start, l.content) == sel;
    NumberProposalFrom(v, l, "1. " + l.content[2..], sel);
  }

  /**
   * Number with the caret collapsed at the start of a bullet item: the proposal is one
   * longer, holds `'1'` at the caret, and has the caret one further on.
   */
  lemma NumberProposalAtBulletLineStart(v: TextFieldValue)
    requires ValidValue(v) && v.selection.Collapsed() && v.selection.start == CaretLine(v).start
    requires StartsWith(CaretLine(v).content, BulletMarker)
    ensures var p := v.selection.start;
      var nv := NumberProposal(v);
      && |nv.Text()| == |v.Text()| + 1 && p < |nv.Text()| && nv.Text()[p] == '1'
      && nv.selection == TextRange(p + 1, p + 1)
  {
    var l := CaretLine(v);
    NumberProposalOnBulletLine(v);
    var u := v.Text()[..l.start] + "1. " + l.content[2..] + v.Text()[l.end..];
    assert u[l.start] == '1';
  }

  /**
   * Bullet on a numbered item whose digit run has `d` characters: `"• "` takes the place of
   * the `d + 2` characters of the marker, so the proposal is `d` shorter, and the selection
   * moves back by `d`, not before the line start.
   */
  lemma BulletProposalOnNumberedLine(v: TextFieldValue, d: int)
    requires ValidValue(v) && NumberMarker(CaretLine(v).content).Some?
    requires d == NumberMarker(CaretLine(v).content).value
    ensures var l := CaretLine(v);
      var nv := BulletProposal(v);
      && nv.Text() == v.Text()[..l.start] + BulletMarker + l.content[d + 2..] + v.Text()[l.end..]
      && 1 <= d && |nv.Text()| == |v.Text()| - d
      && nv.selection == TextRange(Max(v.selection.start - d, l.start), Max(v.selection.end - d, l.start))
  {
    var l := CaretLine(v);
    assert IsDigit(l.content[0]);
    assert !StartsWith(l.content, BulletMarker);
    assert StripNumberMarker(l.content) == l.content[d + 2..];
    assert BulletLine(l.content) == BulletMarker + l.content[d + 2..];
    var sel := TextRange(Max(v.selection.start - d, l.start), Max(v.selection.end - d, l.start));
    assert BulletSelection(v.selection, l.start, l.content) == sel;
    BulletProposalFrom(v, l, BulletMarker + l.content[d + 2..], sel);
  }

  /** The length and selection of the Bullet proposal on a numbered item, as the classifier sees them. */
  lemma BulletProposalShrinksNumberedLine(v: TextFieldValue, d: int)
    requires ValidValue(v) && NumberMarker(CaretLine(v).content).Some?
    requires d == NumberMarker(CaretLine(v).content).value
    ensures var ls := CaretLine(v).start;
      var nv := BulletProposal(v);
      && 1 <= d && |nv.Text()| == |v.Text()| - d
      && nv.selection == TextRange(Max(v.selection.start - d, ls), Max(v.selection.end - d, ls))
  {
    BulletProposalOnNumberedLine(v, d);
  }

  /**
   * Number on a numbered item: the line loses its marker of `m` characters, the selection
   * moves back by `m` within the line.
   */
  lemma NumberProposalOnNumberedLine(v: TextFieldValue)
    requires ValidValue(v) && NumberMarker(CaretLine(v).content).Some?
    ensures var l := CaretLine(v);
      var m := NumberMarker(l.content).value + 2;
      var nv := NumberProposal(v);
      && nv.Text() == v.Text()[..l.start] + l.content[m..] + v.Text()[l.end..]
      && nv.selection == TextRange(Max(v.selection.start - m, l.start), Max(v.selection.end - m, l.start))
  {
    var l := CaretLine(v);
    var m := NumberMarker(l.content).value + 2;
    assert NumberLine(l.content) == l.content[m..];
    var sel := TextRange(Max(v.selection.start - m, l.start), Max(v.selection.end - m, l.start));
    assert NumberSelection(v.selection, l.start, l.content) == sel;
    assert sel.end <= |v.Text()| - m;
  }

  /** Bullet with the caret collapsed at the start of a line with no marker: `"• "` goes in at the caret, which moves past it. */
  lemma BulletProposalAtPlainLineStart(v: TextFieldValue)
    requires ValidValue(v) && v.selection.Collapsed() && v.selection.start == CaretLine(v).start
    requires !StartsWith(CaretLine(v).content, BulletMarker) && NumberMarker(CaretLine(v).content).None?
    ensures var p := v.selection.start;
      var nv := BulletProposal(v);
      && nv.Text() == v.Text()[..p] + BulletMarker + v.Text()[p..]
      && nv.selection == TextRange(p + 2, p + 2)
  {
    var l := CaretLine(v);
    BulletProposalOnPlainLine(v);
    PutLineHead(v.Text(), l.start, l.end, BulletMarker);
  }

  /** Bullet with the caret collapsed at the start of a bullet item: the `"• "` after the caret goes, the caret stays. */
  lemma BulletProposalAtBulletLineStart(v: TextFieldValue)
    requires ValidValue(v) && v.selection.Collapsed() && v.selection.start == CaretLine(v).start
    requires StartsWith(CaretLine(v).content, BulletMarker)
    ensures var p := v.selection.start;
      var nv := BulletProposal(v);
      && p + 2 <= |v.Text()|
      && nv.Text() == v.Text()[..p] + v.Text()[p + 2..]
      && nv.selection == TextRange(p, p)
  {
    var l := CaretLine(v);
    BulletProposalOnBulletLine(v);
    DropLineHead(v.Text(), l.start, l.end, 2);
  }

  /** Number with the caret collapsed at the start of a line with no marker: `"1. "` goes in at the caret, which moves past it. */
  lemma NumberProposalAtPlainLineStart(v: TextFieldValue)
    requires ValidValue(v) && v.selection.Collapsed() && v.selection.start == CaretLine(v).start
    requires !StartsWith(CaretLine(v).content, BulletMarker) && NumberMarker(CaretLine(v).content).None?
    ensures var p := v.selection.start;
      var nv := NumberProposal(v);
      && nv.Text() == v.Text()[..p] + "1. " + v.Text()[p..]
      && nv.selection == TextRange(p + 3, p + 3)
  {
    var l := CaretLine(v);
    NumberProposalOnPlainLine(v);
    PutLineHead(v.Text(), l.start, l.end, "1. ");
  }

  /** Number with the caret collapsed at the start of a numbered item: the marker's `m` characters go, the caret stays. */
  lemma NumberProposalAtNumberedLineStart(v: TextFieldValue, m: int)
    requires ValidValue(v) && v.selection.Collapsed() && v.selection.start == CaretLine(v).start
    requires NumberMarker(CaretLine(v).content).Some? && m == NumberMarker(CaretLine(v).content).value + 2
    ensures var p := v.selection.start;
      var nv := NumberProposal(v);
      && 0 < m && p + m <= |v.Text()|
      && nv.Text() == v.Text()[..p] + v.Text()[p + m..]
      && nv.selection == TextRange(p, p)
  {
    var l := CaretLine(v);
    NumberProposalOnNumberedLine(v);
    DropLineHead(v.Text(), l.start, l.end, m);
  }

  /**
   * Where the as-written selection stays on the caret's line, the corrected proposal is
   * exactly the as-written one.
   */
  lemma BulletProposalAgrees(v: TextFieldValue)
    requires ValidValue(v)
    ensures var l := CaretLine(v);
      var w := BulletSelectionAsWritten(v.selection, l.start, l.content);
      w.start >= l.start && w.end >= l.start ==> BulletProposalAsWritten(v) == Some(BulletProposal(v))
  {
  }

  /**
   * A Bullet press with the caret at the start of `"1. a"`: the as-written selection is
   * `-1`, which `TextRange` rejects, while the corrected one stays at the line start.
   */
  lemma BulletOnNumberedLineAtStart()
    ensures BulletSelectionAsWritten(TextRange(0, 0), 0, "1. a") == TextRange(-1, -1)
    ensures BulletProposalAsWritten(TextFieldValue(AnnotatedString("1. a", []), TextRange(0, 0))).None?
    ensures BulletSelection(TextRange(0, 0), 0, "1. a") == TextRange(0, 0)
  {
    NumberMarkerOf(1, "a");
    assert Decimal(1) + ". " + "a" == "1. a";
    var v := TextFieldValue(AnnotatedString("1. a", []), TextRange(0, 0));
    assert CaretLine(v) == LineAt(0, 4, "1. a");
  }

  /** Pressing Bullet twice on a line with no marker gives the line back. */
  lemma BulletLineTwice(line: string)
    requires !StartsWith(line, BulletMarker) && NumberMarker(line).None?
    ensures BulletLine(line) == BulletMarker + line
    ensures BulletLine(BulletLine(line)) == line
  {
    assert (BulletMarker + line)[..2] == BulletMarker;
    assert (BulletMarker + line)[2..] == line;
  }

  /** Pressing Number twice on a line with no marker gives the line back. */
  lemma NumberLineTwice(line: string)
    requires !StartsWith(line, BulletMarker) && NumberMarker(line).None?
    ensures NumberLine(line) == "1. " + line
    ensures NumberLine(NumberLine(line)) == line
  {
    NumberMarkerOf(1, line);
    assert Decimal(1) == "1";
    assert "1. " + line == Decimal(1) + ". " + line;
  }

  /** Bullet on a numbered item swaps the number marker for a bullet marker. */
  lemma BulletReplacesNumber(n: nat, rest: string)
    ensures BulletLine(Decimal(n) + ". " + rest) == BulletMarker + rest
  {
    var line := Decimal(n) + ". " + rest;
    DecimalHasNoBreak(n);
    assert line[0] == Decimal(n)[0];
    NumberMarkerOf(n, rest);
    assert line[|Decimal(n)| + 2..] == rest;
  }

  /** Number on a bullet item swaps the bullet marker for `"1. "`. */
  lemma NumberReplacesBullet(rest: string)
    ensures NumberLine(BulletMarker + rest) == "1. " + rest
  {
    var line := BulletMarker + rest;
    assert !IsDigit(line[0]);
    assert line[..2] == BulletMarker && line[2..] == rest;
  }
}
