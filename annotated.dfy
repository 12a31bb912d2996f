/**
 * The part of Compose's `AnnotatedString` the editor relies on: a text and an ordered list
 * of style ranges, with `subSequence`, `+` and `Builder.addStyle`. The styles that
 * cover one character are the items of the ranges containing it, in list order.
 */
module Annotated {
  import opened Styles

  datatype Range = Range(item: SpanStyle, start: int, end: int)
  datatype AnnotatedString = AnnotatedString(text: string, spans: seq<Range>)

  function Max(a: int, b: int): int { if a < b then b else a }
  function Min(a: int, b: int): int { if a < b then a else b }

  predicate Covers(r: Range, i: int) { r.start <= i < r.end }

  /** The styles of the spans covering character `i`, in the order the spans are listed. */
  function CoverAt(spans: seq<Range>, i: int): seq<SpanStyle> {
    if spans == [] then []
    else (if Covers(spans[0], i) then [spans[0].item] else []) + CoverAt(spans[1..], i)
  }

  /** Every span is non-empty and lies inside `[lo, hi]`. */
  predicate InInterval(spans: seq<Range>, lo: int, hi: int) {
    forall k :: 0 <= k < |spans| ==> lo <= spans[k].start < spans[k].end <= hi
  }

  predicate WellFormed(a: AnnotatedString) {
    InInterval(a.spans, 0, |a.text|)
  }

  /** The range filter of `subSequence(s, e)`: overlapping spans, clipped and moved by `-s`. */
  function Clip(spans: seq<Range>, s: int, e: int): (r: seq<Range>)
    ensures InInterval(r, 0, e - s)
  {
    if spans == [] then []
    else
      var lo := Max(s, spans[0].start);
      var hi := Min(e, spans[0].end);
      (if lo < hi then [Range(spans[0].item, lo - s, hi - s)] else []) + Clip(spans[1..], s, e)
  }

  /** Every span moved by `d`, as `+` does to the spans of its right operand. */
  function Shift(spans: seq<Range>, d: int): (r: seq<Range>)
    ensures |r| == |spans|
    ensures forall k :: 0 <= k < |spans| ==>
      r[k] == Range(spans[k].item, spans[k].start + d, spans[k].end + d)
  {
    if spans == [] then [] else [Range(spans[0].item, spans[0].start + d, spans[0].end + d)] + Shift(spans[1..], d)
  }

  /**
   * `a.subSequence(s, e)`. Compose returns `a` itself for the whole range; on a well
   * formed string that is the same value (`ClipWhole`), so no branch is needed here.
   */
  function SubSequence(a: AnnotatedString, s: int, e: int): (r: AnnotatedString)
    requires 0 <= s <= e <= |a.text|
    ensures r.text == a.text[s..e]
    ensures WellFormed(a) ==> WellFormed(r)
  {
    AnnotatedString(a.text[s..e], Clip(a.spans, s, e))
  }

  /** Clipping well-formed spans to the whole text keeps every span as it is. */
  lemma {:induction false} ClipWhole(spans: seq<Range>, n: int)
    requires InInterval(spans, 0, n)
    ensures Clip(spans, 0, n) == spans
  {
    if spans != [] {
      assert InInterval(spans[1..], 0, n) by {
        forall k | 0 <= k < |spans[1..]| ensures 0 <= spans[1..][k].start < spans[1..][k].end <= n {
          assert spans[1..][k] == spans[k + 1];
        }
      }
      ClipWhole(spans[1..], n);
      assert spans == [spans[0]] + spans[1..];
    }
  }

  /** The whole-range `subSequence` gives the string back. */
  lemma SubSequenceWhole(a: AnnotatedString)
    requires WellFormed(a)
    ensures SubSequence(a, 0, |a.text|) == a
  {
    ClipWhole(a.spans, |a.text|);
    assert a.text[0..|a.text|] == a.text;
  }

  function Concat(a: AnnotatedString, b: AnnotatedString): (r: AnnotatedString)
    ensures r.text == a.text + b.text
    ensures WellFormed(a) && WellFormed(b) ==> WellFormed(r)
  {
    AnnotatedString(a.text + b.text, a.spans + Shift(b.spans, |a.text|))
  }

  /** `Builder(a).addStyle(st, s, e)`: the new range goes to the end of the list. */
  function AddStyle(a: AnnotatedString, st: SpanStyle, s: int, e: int): (r: AnnotatedString)
    ensures r.text == a.text
    ensures WellFormed(a) && 0 <= s < e <= |a.text| ==> WellFormed(r)
  {
    AnnotatedString(a.text, a.spans + [Range(st, s, e)])
  }

  /** The ranges `[0, n)` of `Builder(text)` after one `addStyle` per style. */
  function StampSpans(styles: seq<SpanStyle>, n: int): (r: seq<Range>)
    ensures n > 0 ==> InInterval(r, 0, n)
  {
    if styles == [] then [] else [Range(styles[0], 0, n)] + StampSpans(styles[1..], n)
  }

  function Stamp(text: string, styles: seq<SpanStyle>): (r: AnnotatedString)
    ensures r.text == text
    ensures |text| > 0 ==> WellFormed(r)
  {
    AnnotatedString(text, StampSpans(styles, |text|))
  }

  lemma {:induction false} CoverAppend(xs: seq<Range>, ys: seq<Range>, i: int)
    ensures CoverAt(xs + ys, i) == CoverAt(xs, i) + CoverAt(ys, i)
  {
    if xs == [] {
      assert xs + ys == ys;
    } else {
      var head := if Covers(xs[0], i) then [xs[0].item] else [];
      assert (xs + ys)[0] == xs[0];
      assert (xs + ys)[1..] == xs[1..] + ys;
      assert CoverAt(xs + ys, i) == head + CoverAt(xs[1..] + ys, i);
      CoverAppend(xs[1..], ys, i);
      assert CoverAt(xs, i) == head + CoverAt(xs[1..], i);
    }
  }

  lemma {:induction false} CoverShift(xs: seq<Range>, d: int, i: int)
    ensures CoverAt(Shift(xs, d), i) == CoverAt(xs, i - d)
  {
    if xs != [] {
      assert Shift(xs, d)[1..] == Shift(xs[1..], d);
      CoverShift(xs[1..], d, i);
    }
  }

  lemma {:induction false} CoverClip(xs: seq<Range>, s: int, e: int, j: int)
    requires s <= j < e
    ensures CoverAt(Clip(xs, s, e), j - s) == CoverAt(xs, j)
  {
    if xs != [] {
      var lo := Max(s, xs[0].start);
      var hi := Min(e, xs[0].end);
      var head := if lo < hi then [Range(xs[0].item, lo - s, hi - s)] else [];
      CoverAppend(head, Clip(xs[1..], s, e), j - s);
      CoverClip(xs[1..], s, e, j);
    }
  }

  lemma {:induction false} CoverOutside(xs: seq<Range>, lo: int, hi: int, i: int)
    requires InInterval(xs, lo, hi)
    requires i < lo || hi <= i
    ensures CoverAt(xs, i) == []
  {
    if xs != [] {
      CoverOutside(xs[1..], lo, hi, i);
    }
  }

  lemma {:induction false} CoverStamp(styles: seq<SpanStyle>, n: int, i: int)
    requires 0 <= i < n
    ensures CoverAt(StampSpans(styles, n), i) == styles
  {
    if styles != [] {
      CoverStamp(styles[1..], n, i);
    }
  }

  /**
   * Each character of a subsequence keeps exactly the styles it had in the original:
   * position `q` of `a.subSequence(s, e)` is position `j = q + s` of `a`.
   */
  lemma SubSequenceCover(a: AnnotatedString, s: int, e: int, q: int, j: int)
    requires 0 <= s <= j < e <= |a.text| && q == j - s
    ensures CoverAt(SubSequence(a, s, e).spans, q) == CoverAt(a.spans, j)
  {
    CoverClip(a.spans, s, e, j);
  }

  /** A character of `a + b` has the styles it had in `a` or in `b`; `n` is the length of `a`. */
  lemma ConcatCover(a: AnnotatedString, b: AnnotatedString, n: int, i: int)
    requires WellFormed(a) && WellFormed(b) && n == |a.text|
    ensures CoverAt(Concat(a, b).spans, i)
      == if i < n then CoverAt(a.spans, i) else CoverAt(b.spans, i - n)
  {
    CoverAppend(a.spans, Shift(b.spans, |a.text|), i);
    CoverShift(b.spans, |a.text|, i);
    if i < |a.text| {
      CoverOutside(b.spans, 0, |b.text|, i - |a.text|);
    } else {
      CoverOutside(a.spans, 0, |a.text|, i);
    }
  }

  /** Every character of a stamped text carries exactly the stamped styles, in order. */
  lemma StampCover(text: string, styles: seq<SpanStyle>, i: int)
    requires 0 <= i < |text|
    ensures CoverAt(Stamp(text, styles).spans, i) == styles
  {
    CoverStamp(styles, |text|, i);
  }

  /** `addStyle` puts `st` last on the characters of `[s, e)` and changes nothing else. */
  lemma AddStyleCover(a: AnnotatedString, st: SpanStyle, s: int, e: int, i: int)
    ensures CoverAt(AddStyle(a, st, s, e).spans, i)
      == CoverAt(a.spans, i) + (if s <= i < e then [st] else [])
  {
    CoverAppend(a.spans, [Range(st, s, e)], i);
  }
}
