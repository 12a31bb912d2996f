/** Flattening the editor's spans into the `NoteSpan` records a saved note keeps. */
module Notes {
  import opened Styles
  import opened Annotated

  datatype NoteSpan = NoteSpan(start: int, end: int, spanType: SpanType)

  /** `extractSpans`: one record per range, same count, order and bounds; the type decoded. */
  function ExtractSpans(a: AnnotatedString): (r: seq<NoteSpan>)
    ensures |r| == |a.spans|
    ensures forall k :: 0 <= k < |r| ==>
      r[k].start == a.spans[k].start && r[k].end == a.spans[k].end && r[k].spanType == Decode(a.spans[k].item)
  {
    seq(|a.spans|, k requires 0 <= k < |a.spans| => NoteSpan(a.spans[k].start, a.spans[k].end, Decode(a.spans[k].item)))
  }

  /**
   * A style applied from the toolbar is saved as the type that was applied, except that
   * SUBTITLE is saved as BODY.
   */
  lemma ExtractAfterAddStyle(a: AnnotatedString, t: SpanType, s: int, e: int)
    ensures ExtractSpans(AddStyle(a, Encode(t), s, e))
      == ExtractSpans(a) + [NoteSpan(s, e, if t == Subtitle then Body else t)]
  {
    var lhs := ExtractSpans(AddStyle(a, Encode(t), s, e));
    var rhs := ExtractSpans(a) + [NoteSpan(s, e, if t == Subtitle then Body else t)];
    assert |lhs| == |rhs|;
    forall k | 0 <= k < |lhs| ensures lhs[k] == rhs[k] {
      if k < |a.spans| {
        assert AddStyle(a, Encode(t), s, e).spans[k] == a.spans[k];
      }
    }
  }
}
