/**
 * Style attributes of the editor. `SpanType` is the closed set of formatting kinds a note
 * records; `SpanStyle` keeps the four Compose style attributes the editor sets or reads,
 * each of them optional ("unspecified"). Font sizes are the integer sp values 24, 20, 16.
 */
module Styles {
  import opened Wrappers

  datatype SpanType = Bold | Italic | Underline | Title | Subtitle | Body

  /** Compose's FontWeight.Normal, Medium and Bold are the weights 400, 500 and 700. */
  datatype FontWeight = W400 | W500 | W700
  datatype FontStyle = FontStyleNormal | FontStyleItalic
  datatype TextDecoration = DecorationNone | DecorationUnderline

  datatype SpanStyle = SpanStyle(
    fontSize: Option<int>,
    fontWeight: Option<FontWeight>,
    fontStyle: Option<FontStyle>,
    textDecoration: Option<TextDecoration>)

  /** The heading kinds; at most one of them is wanted at a time. */
  const Typography: set<SpanType> := {Title, Subtitle, Body}

  /**
   * The span types an `updateActiveStyles` look-behind adds for one span carrying `st`,
   * in the order the checks run: size 24, 20, 16, then weight Bold, Italic, Underline.
   */
  function Contribution(st: SpanStyle): seq<SpanType> {
    (if st.fontSize == Some(24) then [Title] else [])
    + (if st.fontSize == Some(20) then [Subtitle] else [])
    + (if st.fontSize == Some(16) then [Body] else [])
    + (if st.fontWeight == Some(W700) then [Bold] else [])
    + (if st.fontStyle == Some(FontStyleItalic) then [Italic] else [])
    + (if st.textDecoration == Some(DecorationUnderline) then [Underline] else [])
  }

  /** The `when` of `extractSpans`: one type per span, by fixed precedence. */
  function Decode(st: SpanStyle): SpanType {
    if st.fontWeight == Some(W700) && st.fontSize == Some(24) then Title
    else if st.fontWeight == Some(W700) then Bold
    else if st.fontStyle == Some(FontStyleItalic) then Italic
    else if st.textDecoration == Some(DecorationUnderline) then Underline
    else Body
  }

  /**
   * `getSpanStyle`. Decoding undoes it except for SUBTITLE, which comes back as BODY;
   * a TITLE span is seen by the look-behind as both TITLE and BOLD.
   */
  function Encode(t: SpanType): (st: SpanStyle)
    ensures Decode(st) == (if t == Subtitle then Body else t)
    ensures Contribution(st) == (if t == Title then [Title, Bold] else [t])
  {
    match t
    case Bold => SpanStyle(None, Some(W700), None, None)
    case Italic => SpanStyle(None, None, Some(FontStyleItalic), None)
    case Underline => SpanStyle(None, None, None, Some(DecorationUnderline))
    case Title => SpanStyle(Some(24), Some(W700), None, None)
    case Subtitle => SpanStyle(Some(20), Some(W500), None, None)
    case Body => SpanStyle(Some(16), Some(W400), None, None)
  }

  /** The style the Reset action stamps over a selection; it reads back only as BODY. */
  function ResetStyle(): (st: SpanStyle)
    ensures Contribution(st) == [Body]
    ensures Decode(st) == Body
  {
    SpanStyle(Some(16), Some(W400), Some(FontStyleNormal), Some(DecorationNone))
  }

  /** `Encode` applied to each active type, in order. */
  function EncodeAll(ts: seq<SpanType>): (r: seq<SpanStyle>)
    ensures |r| == |ts|
    ensures forall k :: 0 <= k < |ts| ==> r[k] == Encode(ts[k])
  {
    if ts == [] then [] else [Encode(ts[0])] + EncodeAll(ts[1..])
  }
}
