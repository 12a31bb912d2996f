/**
 * What each class of `onValueChange` does to the text and to the styles of every
 * character, what the list continuation does to a line, and how `toggleStyle` behaves
 * when repeated.
 */
module EditingProps {
  import opened Wrappers
  import opened LinkedSets
  import opened Styles
  import opened Annotated
  import opened TextOps
  import opened Editing

  /** The text of a splice, which keeps the spans well formed. */
  lemma SpliceText(a: AnnotatedString, s: int, e: int, ins: AnnotatedString)
    requires WellFormed(a) && WellFormed(ins) && 0 <= s <= e <= |a.text|
    ensures Splice(a, s, e, ins).text == a.text[..s] + ins.text + a.text[e..]
    ensures WellFormed(Splice(a, s, e, ins))
  {
  }

  /**
   * A character of `l + m + r` has the styles it had in the part it comes from; `n` and
   * `k` are the lengths of `l` and `m`.
   */
  lemma ConcatThreeCover(l: AnnotatedString, m: AnnotatedString, r: AnnotatedString, n: int, k: int, i: int)
    requires WellFormed(l) && WellFormed(m) && WellFormed(r) && |l.text| == n && |m.text| == k
    ensures CoverAt(Concat(Concat(l, m), r).spans, i) ==
      if i < n then CoverAt(l.spans, i)
      else if i < n + k then CoverAt(m.spans, i - n)
      else CoverAt(r.spans, i - n - k)
  {
    ConcatCover(Concat(l, m), r, n + k, i);
    ConcatCover(l, m, n, i);
    assert i - (n + k) == i - n - k;
  }

  /** Before the splice point a character keeps its styles. */
  lemma SpliceCoverBefore(a: AnnotatedString, s: int, e: int, ins: AnnotatedString, i: int)
    requires WellFormed(a) && WellFormed(ins) && 0 <= s <= e <= |a.text| && 0 <= i < s
    ensures CoverAt(Splice(a, s, e, ins).spans, i) == CoverAt(a.spans, i)
  {
    var left := SubSequence(a, 0, s);
    ConcatThreeCover(left, ins, SubSequence(a, e, |a.text|), s, |ins.text|, i);
    SubSequenceCover(a, 0, s, i, i);
  }

  /** An inserted character carries the styles it had in `ins`. */
  lemma SpliceCoverInserted(a: AnnotatedString, s: int, e: int, ins: AnnotatedString, i: int)
    requires WellFormed(a) && WellFormed(ins) && 0 <= s <= e <= |a.text| && s <= i < s + |ins.text|
    ensures CoverAt(Splice(a, s, e, ins).spans, i) == CoverAt(ins.spans, i - s)
  {
    ConcatThreeCover(SubSequence(a, 0, s), ins, SubSequence(a, e, |a.text|), s, |ins.text|, i);
  }

  /** After the inserted text a character keeps the styles it had at its old place. */
  lemma SpliceCoverAfter(a: AnnotatedString, s: int, e: int, ins: AnnotatedString, i: int, j: int)
    requires WellFormed(a) && WellFormed(ins) && 0 <= s <= e <= |a.text|
    requires s + |ins.text| <= i && j == i - |ins.text| + (e - s) && j < |a.text|
    ensures CoverAt(Splice(a, s, e, ins).spans, i) == CoverAt(a.spans, j)
  {
    var right := SubSequence(a, e, |a.text|);
    ConcatThreeCover(SubSequence(a, 0, s), ins, right, s, |ins.text|, i);
    SubSequenceCover(a, e, |a.text|, i - s - |ins.text|, j);
  }

  /**
   * Splicing `ins` over `[s, e)`: characters before `s` keep their styles, the inserted
   * ones carry the styles they had in `ins`, and the rest keep theirs, moved by the
   * change in length.
   */
  lemma SpliceCover(a: AnnotatedString, s: int, e: int, ins: AnnotatedString, i: int)
    requires WellFormed(a) && WellFormed(ins) && 0 <= s <= e <= |a.text|
    requires 0 <= i < |a.text| - (e - s) + |ins.text|
    ensures CoverAt(Splice(a, s, e, ins).spans, i) ==
      if i < s then CoverAt(a.spans, i)
      else if i < s + |ins.text| then CoverAt(ins.spans, i - s)
      else CoverAt(a.spans, i - |ins.text| + (e - s))
  {
    if i < s {
      SpliceCoverBefore(a, s, e, ins, i);
    } else if i < s + |ins.text| {
      SpliceCoverInserted(a, s, e, ins, i);
    } else {
      SpliceCoverAfter(a, s, e, ins, i, i - |ins.text| + (e - s));
    }
  }

  /** The text left by a deletion, whose spans stay well formed. */
  lemma DeletedText(a: AnnotatedString, s: int, e: int)
    requires WellFormed(a) && 0 <= s <= e <= |a.text|
    ensures Deleted(a, s, e).text == a.text[..s] + a.text[e..]
    ensures WellFormed(Deleted(a, s, e))
  {
  }

  /** Deleting `[s, e)`: the characters outside it keep their styles. */
  lemma DeletedCover(a: AnnotatedString, s: int, e: int, i: int)
    requires WellFormed(a) && 0 <= s <= e <= |a.text|
    requires 0 <= i < |a.text| - (e - s)
    ensures CoverAt(Deleted(a, s, e).spans, i) ==
      if i < s then CoverAt(a.spans, i) else CoverAt(a.spans, i + (e - s))
  {
    if i < s {
      DeletedCoverBefore(a, s, e, i);
    } else {
      DeletedCoverAfter(a, s, e, i, i + (e - s));
    }
  }

  /** Before the deleted range a character keeps its styles. */
  lemma DeletedCoverBefore(a: AnnotatedString, s: int, e: int, i: int)
    requires WellFormed(a) && 0 <= s <= e <= |a.text| && 0 <= i < s
    ensures CoverAt(Deleted(a, s, e).spans, i) == CoverAt(a.spans, i)
  {
    ConcatCover(SubSequence(a, 0, s), SubSequence(a, e, |a.text|), s, i);
    SubSequenceCover(a, 0, s, i, i);
  }

  /** After the deleted range a character keeps the styles it had `e - s` places later. */
  lemma DeletedCoverAfter(a: AnnotatedString, s: int, e: int, i: int, j: int)
    requires WellFormed(a) && 0 <= s <= e <= |a.text| && s <= i && j == i + (e - s) && j < |a.text|
    ensures CoverAt(Deleted(a, s, e).spans, i) == CoverAt(a.spans, j)
  {
    ConcatCover(SubSequence(a, 0, s), SubSequence(a, e, |a.text|), s, i);
    SubSequenceCover(a, e, |a.text|, i - s, j);
  }

  /** A selection-only change keeps the text and every span, and recomputes the styles. */
  lemma SelectionOnlyKeepsSpans(cur: TextFieldValue, active: seq<SpanType>, nv: TextFieldValue)
    requires ValidValue(cur) && ValidValue(nv)
    requires cur.Text() == nv.Text()
    ensures ValueChange(cur, active, nv) == Step(TextFieldValue(cur.annotated, nv.selection), true)
  {
  }

  /**
   * The list branch rebuilds the value from plain text: no span survives, the caret is
   * collapsed where the list rule puts it, and the active styles are left as they were.
   */
  lemma ListBranchDropsSpans(cur: TextFieldValue, active: seq<SpanType>, nv: TextFieldValue)
    requires ValidValue(cur) && ValidValue(nv)
    requires Classify(cur, nv).ListContinued?
    ensures var edit := Classify(cur, nv).edit;
      var r := ValueChange(cur, active, nv);
      r.value.annotated == AnnotatedString(edit.text, []) &&
      r.value.selection == TextRange(edit.caret, edit.caret) && !r.recompute
  {
  }

  /** The insertion branch splices the stamped inserted run in at the old caret. */
  lemma InsertionSplice(cur: TextFieldValue, active: seq<SpanType>, nv: TextFieldValue)
    requires ValidValue(cur) && ValidValue(nv)
    requires Classify(cur, nv) == Insertion
    ensures var p := cur.selection.start;
      var r := ValueChange(cur, active, nv);
      && p < nv.selection.start <= |nv.Text()|
      && nv.selection.start - p == |nv.Text()| - |cur.Text()|
      && r.value.annotated
           == Splice(cur.annotated, p, p, Stamp(nv.Text()[p..nv.selection.start], EncodeAll(active)))
      && r.value.selection == nv.selection && !r.recompute
  {
  }

  /**
   * Collapsed insertion at the old caret `p` with the new caret at `q`: the text is the
   * old one with the `q - p` characters that end at the new caret put in at `p`, the caret
   * is the proposed one and the active styles stay as they were.
   */
  lemma InsertionResult(cur: TextFieldValue, active: seq<SpanType>, nv: TextFieldValue)
    requires ValidValue(cur) && ValidValue(nv)
    requires Classify(cur, nv) == Insertion
    ensures var p := cur.selection.start;
      var q := nv.selection.start;
      var r := ValueChange(cur, active, nv);
      && p < q && q - p == |nv.Text()| - |cur.Text()|
      && r.value.Text() == cur.Text()[..p] + nv.Text()[p..q] + cur.Text()[p..]
      && |r.value.Text()| == |nv.Text()|
      && r.value.selection == nv.selection
      && !r.recompute
  {
    var p := cur.selection.start;
    var ins := Stamp(nv.Text()[p..nv.selection.start], EncodeAll(active));
    InsertionSplice(cur, active, nv);
    SpliceText(cur.annotated, p, p, ins);
  }

  /** Insertion: the characters before the old caret keep their styles. */
  lemma InsertionKeepsBefore(cur: TextFieldValue, active: seq<SpanType>, nv: TextFieldValue, i: int)
    requires ValidValue(cur) && ValidValue(nv)
    requires Classify(cur, nv) == Insertion && 0 <= i < cur.selection.start
    ensures CoverAt(ValueChange(cur, active, nv).value.annotated.spans, i) == CoverAt(cur.annotated.spans, i)
  {
    var p := cur.selection.start;
    var ins := Stamp(nv.Text()[p..nv.selection.start], EncodeAll(active));
    InsertionSplice(cur, active, nv);
    SpliceCoverBefore(cur.annotated, p, p, ins, i);
  }

  /** Insertion: each inserted character carries exactly the active styles, in order. */
  lemma InsertionStampsInserted(cur: TextFieldValue, active: seq<SpanType>, nv: TextFieldValue, i: int)
    requires ValidValue(cur) && ValidValue(nv)
    requires Classify(cur, nv) == Insertion && cur.selection.start <= i < nv.selection.start
    ensures CoverAt(ValueChange(cur, active, nv).value.annotated.spans, i) == EncodeAll(active)
  {
    var p := cur.selection.start;
    var ins := Stamp(nv.Text()[p..nv.selection.start], EncodeAll(active));
    InsertionSplice(cur, active, nv);
    SpliceCoverInserted(cur.annotated, p, p, ins, i);
    StampCover(ins.text, EncodeAll(active), i - p);
  }

  /**
   * Insertion of `k` characters: a character after them keeps the styles it had at its
   * old place `j = i - k`.
   */
  lemma InsertionKeepsAfter(cur: TextFieldValue, active: seq<SpanType>, nv: TextFieldValue, i: int, j: int)
    requires ValidValue(cur) && ValidValue(nv)
    requires Classify(cur, nv) == Insertion
    requires nv.selection.start <= i && j == i - (|nv.Text()| - |cur.Text()|) && j < |cur.Text()|
    ensures CoverAt(ValueChange(cur, active, nv).value.annotated.spans, i) == CoverAt(cur.annotated.spans, j)
  {
    var p := cur.selection.start;
    var ins := Stamp(nv.Text()[p..nv.selection.start], EncodeAll(active));
    InsertionSplice(cur, active, nv);
    SpliceCoverAfter(cur.annotated, p, p, ins, i, j);
  }

  /**
   * The guard of collapsed insertion: when the inserted run does not end at the new caret
   * as seen from the old caret, the proposed value is taken as it is and the active
   * styles are recomputed from it.
   */
  lemma InsertionOffCaret(cur: TextFieldValue, active: seq<SpanType>, nv: TextFieldValue)
    requires ValidValue(cur) && ValidValue(nv)
    requires cur.Text() != nv.Text() && ListEditFor(cur, nv).None?
    requires cur.selection.Collapsed() && |nv.Text()| > |cur.Text()|
    requires nv.selection.start - (|nv.Text()| - |cur.Text()|) != cur.selection.start
    ensures ValueChange(cur, active, nv) == Step(nv, true)
  {
  }

  /** The replacement branch splices the stamped run over the old selection. */
  lemma ReplacementSplice(cur: TextFieldValue, active: seq<SpanType>, nv: TextFieldValue)
    requires ValidValue(cur) && ValidValue(nv)
    requires Classify(cur, nv) == Replacement
    ensures var s := cur.selection.start;
      var e := cur.selection.end;
      && s < e
      && ValueChange(cur, active, nv).value.annotated
           == Splice(cur.annotated, s, e, Editing.ReplacementText(cur, active, nv))
  {
  }

  /**
   * Replacement of a non-collapsed selection `[s, e)` by the `m` characters the new text
   * has at `s`, where `m = |new| - (|old| - (e - s))` when that is positive and 0
   * otherwise; the styles are recomputed only when the text shrank.
   */
  lemma ReplacementResult(cur: TextFieldValue, active: seq<SpanType>, nv: TextFieldValue)
    requires ValidValue(cur) && ValidValue(nv)
    requires Classify(cur, nv) == Replacement
    ensures var s := cur.selection.start;
      var e := cur.selection.end;
      var n := ReplacementLength(cur, nv);
      var m := if n > 0 then n else 0;
      var r := ValueChange(cur, active, nv);
      && s < e && (m > 0 ==> s + m <= |nv.Text()|)
      && r.value.Text() == cur.Text()[..s] + (if m > 0 then nv.Text()[s..s + m] else "") + cur.Text()[e..]
      && |r.value.Text()| == |cur.Text()| - (e - s) + m
      && r.recompute == (|nv.Text()| < |cur.Text()|)
  {
    var s := cur.selection.start;
    var e := cur.selection.end;
    var n := ReplacementLength(cur, nv);
    var m := if n > 0 then n else 0;
    var ins := Editing.ReplacementText(cur, active, nv);
    assert ins.text == if m > 0 then nv.Text()[s..s + m] else "";
    SpliceText(cur.annotated, s, e, ins);
    ReplacementSplice(cur, active, nv);
  }

  /** Replacement: the characters before the old selection keep their styles. */
  lemma ReplacementKeepsBefore(cur: TextFieldValue, active: seq<SpanType>, nv: TextFieldValue, i: int)
    requires ValidValue(cur) && ValidValue(nv)
    requires Classify(cur, nv) == Replacement && 0 <= i < cur.selection.start
    ensures CoverAt(ValueChange(cur, active, nv).value.annotated.spans, i) == CoverAt(cur.annotated.spans, i)
  {
    var ins := Editing.ReplacementText(cur, active, nv);
    ReplacementSplice(cur, active, nv);
    SpliceCoverBefore(cur.annotated, cur.selection.start, cur.selection.end, ins, i);
  }

  /** Replacement: each replacing character carries exactly the active styles, in order. */
  lemma ReplacementStampsInserted(cur: TextFieldValue, active: seq<SpanType>, nv: TextFieldValue, i: int)
    requires ValidValue(cur) && ValidValue(nv)
    requires Classify(cur, nv) == Replacement
    requires cur.selection.start <= i < cur.selection.start + ReplacementLength(cur, nv)
    ensures CoverAt(ValueChange(cur, active, nv).value.annotated.spans, i) == EncodeAll(active)
  {
    var s := cur.selection.start;
    var ins := Editing.ReplacementText(cur, active, nv);
    ReplacementSplice(cur, active, nv);
    SpliceCoverInserted(cur.annotated, s, cur.selection.end, ins, i);
    StampCover(ins.text, EncodeAll(active), i - s);
  }

  /**
   * Replacement by `m` characters: a character after them keeps the styles it had at its
   * old place `j`, past the end of the old selection.
   */
  lemma ReplacementKeepsAfter(cur: TextFieldValue, active: seq<SpanType>, nv: TextFieldValue, i: int, m: int, j: int)
    requires ValidValue(cur) && ValidValue(nv)
    requires Classify(cur, nv) == Replacement
    requires m == Max(ReplacementLength(cur, nv), 0)
    requires cur.selection.start + m <= i && j == i - m + (cur.selection.end - cur.selection.start) && j < |cur.Text()|
    ensures CoverAt(ValueChange(cur, active, nv).value.annotated.spans, i) == CoverAt(cur.annotated.spans, j)
  {
    var ins := Editing.ReplacementText(cur, active, nv);
    ReplacementSplice(cur, active, nv);
    SpliceCoverAfter(cur.annotated, cur.selection.start, cur.selection.end, ins, i, j);
  }

  /**
   * Backspace: the caret moved left from `os` to `ns` and `[ns, os)` goes; the styles
   * are recomputed at `ns`.
   */
  lemma BackspaceResult(cur: TextFieldValue, active: seq<SpanType>, nv: TextFieldValue)
    requires ValidValue(cur) && ValidValue(nv)
    requires Classify(cur, nv) == Backspace
    ensures var ns := nv.selection.start;
      var os := cur.selection.start;
      var r := ValueChange(cur, active, nv);
      && 0 <= ns < os
      && r.value.Text() == cur.Text()[..ns] + cur.Text()[os..]
      && r.value.selection.start == ns
      && r.recompute
  {
    DeletedText(cur.annotated, nv.selection.start, cur.selection.start);
  }

  /** The backspace branch deletes `[ns, os)` from the old annotated string. */
  lemma BackspaceDeletes(cur: TextFieldValue, active: seq<SpanType>, nv: TextFieldValue)
    requires ValidValue(cur) && ValidValue(nv)
    requires Classify(cur, nv) == Backspace
    ensures var ns := nv.selection.start;
      var os := cur.selection.start;
      && 0 <= ns < os <= |cur.Text()|
      && ValueChange(cur, active, nv).value.annotated == Deleted(cur.annotated, ns, os)
  {
  }

  /** Backspace: the characters before the new caret keep their styles. */
  lemma BackspaceKeepsBefore(cur: TextFieldValue, active: seq<SpanType>, nv: TextFieldValue, i: int)
    requires ValidValue(cur) && ValidValue(nv)
    requires Classify(cur, nv) == Backspace && 0 <= i < nv.selection.start
    ensures CoverAt(ValueChange(cur, active, nv).value.annotated.spans, i) == CoverAt(cur.annotated.spans, i)
  {
    BackspaceDeletes(cur, active, nv);
    DeletedCoverBefore(cur.annotated, nv.selection.start, cur.selection.start, i);
  }

  /** Backspace over `[ns, os)`: a later character keeps the styles it had at `j = i + (os - ns)`. */
  lemma BackspaceKeepsAfter(cur: TextFieldValue, active: seq<SpanType>, nv: TextFieldValue, i: int, j: int)
    requires ValidValue(cur) && ValidValue(nv)
    requires Classify(cur, nv) == Backspace
    requires nv.selection.start <= i && j == i + (cur.selection.start - nv.selection.start) && j < |cur.Text()|
    ensures CoverAt(ValueChange(cur, active, nv).value.annotated.spans, i) == CoverAt(cur.annotated.spans, j)
  {
    BackspaceDeletes(cur, active, nv);
    DeletedCoverAfter(cur.annotated, nv.selection.start, cur.selection.start, i, j);
  }

  /**
   * Forward delete: the caret stayed at `p` and the `d` characters after it go; the
   * styles are recomputed at `p`.
   */
  lemma ForwardDeleteResult(cur: TextFieldValue, active: seq<SpanType>, nv: TextFieldValue)
    requires ValidValue(cur) && ValidValue(nv)
    requires Classify(cur, nv) == ForwardDelete
    ensures var p := cur.selection.start;
      var d := |cur.Text()| - |nv.Text()|;
      var r := ValueChange(cur, active, nv);
      && d > 0 && p + d <= |cur.Text()|
      && r.value.Text() == cur.Text()[..p] + cur.Text()[p + d..]
      && r.value.selection == nv.selection && nv.selection.start == p
      && r.recompute
  {
    var q := cur.selection.start + (|cur.Text()| - |nv.Text()|);
    ForwardDeleteDeletes(cur, active, nv, q);
    DeletedText(cur.annotated, cur.selection.start, q);
  }

  /** The forward-delete branch deletes `[p, q)` from the old annotated string, `q - p` being the loss in length. */
  lemma ForwardDeleteDeletes(cur: TextFieldValue, active: seq<SpanType>, nv: TextFieldValue, q: int)
    requires ValidValue(cur) && ValidValue(nv)
    requires Classify(cur, nv) == ForwardDelete && q == cur.selection.start + (|cur.Text()| - |nv.Text()|)
    ensures cur.selection.start < q <= |cur.Text()|
    ensures ValueChange(cur, active, nv).value.annotated == Deleted(cur.annotated, cur.selection.start, q)
  {
  }

  /** Forward delete: the characters before the caret keep their styles. */
  lemma ForwardDeleteKeepsBefore(cur: TextFieldValue, active: seq<SpanType>, nv: TextFieldValue, i: int)
    requires ValidValue(cur) && ValidValue(nv)
    requires Classify(cur, nv) == ForwardDelete && 0 <= i < cur.selection.start
    ensures CoverAt(ValueChange(cur, active, nv).value.annotated.spans, i) == CoverAt(cur.annotated.spans, i)
  {
    var q := cur.selection.start + (|cur.Text()| - |nv.Text()|);
    ForwardDeleteDeletes(cur, active, nv, q);
    DeletedCoverBefore(cur.annotated, cur.selection.start, q, i);
  }

  /** Forward delete of `d` characters: a later character keeps the styles it had at `j = i + d`. */
  lemma ForwardDeleteKeepsAfter(cur: TextFieldValue, active: seq<SpanType>, nv: TextFieldValue, i: int, j: int)
    requires ValidValue(cur) && ValidValue(nv)
    requires Classify(cur, nv) == ForwardDelete
    requires cur.selection.start <= i && j == i + (|cur.Text()| - |nv.Text()|) && j < |cur.Text()|
    ensures CoverAt(ValueChange(cur, active, nv).value.annotated.spans, i) == CoverAt(cur.annotated.spans, j)
  {
    var q := cur.selection.start + (|cur.Text()| - |nv.Text()|);
    ForwardDeleteDeletes(cur, active, nv, q);
    DeletedCoverAfter(cur.annotated, cur.selection.start, q, i, j);
  }

  /** Choosing the same heading twice leaves the active styles as choosing it once. */
  lemma {:induction false} HeadingToggleIdempotent(active: seq<SpanType>, t: SpanType)
    requires t in Typography
    ensures ToggleActive(ToggleActive(active, t), t) == ToggleActive(active, t)
  {
    var kept := RemoveAll(active, Typography);
    assert ToggleActive(active, t) == kept + [t];
    RemoveAllAppend(kept, [t], Typography);
    RemoveAllTwice(active, Typography);
    assert RemoveAll([t], Typography) == [];
    assert RemoveAll(kept + [t], Typography) == kept;
  }

  /** Toggling a non-heading type twice restores the set of active styles. */
  lemma FormatToggleTwice(active: seq<SpanType>, t: SpanType)
    requires t !in Typography
    ensures forall u :: u in ToggleActive(ToggleActive(active, t), t) <==> u in active
  {
  }
}
