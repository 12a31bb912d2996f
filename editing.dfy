/**
 * The editing rules of the editor screen, on values: the text field value, the
 * look-behind that infers the active styles, the list continuation on Enter, the
 * classifier of `onValueChange` with the span splice of each class, and `toggleStyle`
 * on a collapsed selection.
 */
module Editing {
  import opened Wrappers
  import opened LinkedSets
  import opened Styles
  import opened Annotated
  import opened TextOps

  /** A selection, normalised so that `start <= end`. */
  datatype TextRange = TextRange(start: int, end: int) {
    predicate Collapsed() { start == end }
  }

  /** Compose's `TextFieldValue`, without the transient IME composition range. */
  datatype TextFieldValue = TextFieldValue(annotated: AnnotatedString, selection: TextRange) {
    function Text(): string { annotated.text }
  }

  predicate ValidValue(v: TextFieldValue) {
    WellFormed(v.annotated) && 0 <= v.selection.start <= v.selection.end <= |v.annotated.text|
  }

  function Clamp(x: int, lo: int, hi: int): int { if x < lo then lo else if x > hi then hi else x }

  /** A `TextFieldValue` coerces its selection into `[0, |text|]`. */
  function Coerce(r: TextRange, n: nat): (c: TextRange)
    ensures r.start <= r.end ==> 0 <= c.start <= c.end <= n
    ensures 0 <= r.start <= r.end <= n ==> c == r
  {
    TextRange(Clamp(r.start, 0, n), Clamp(r.end, 0, n))
  }

  /** `v.copy(annotatedString = a)`. */
  function WithAnnotated(v: TextFieldValue, a: AnnotatedString): (r: TextFieldValue)
    requires v.selection.start <= v.selection.end
    ensures r.annotated == a
    ensures WellFormed(a) ==> ValidValue(r)
  {
    TextFieldValue(a, Coerce(v.selection, |a.text|))
  }

  /** `v.copy(text = t, selection = TextRange(caret))`: a plain text carries no spans. */
  function PlainValue(t: string, caret: int): (r: TextFieldValue)
    ensures ValidValue(r) && r.annotated.spans == [] && r.Text() == t
    ensures 0 <= caret <= |t| ==> r.selection == TextRange(caret, caret)
  {
    TextFieldValue(AnnotatedString(t, []), Coerce(TextRange(caret, caret), |t|))
  }

  // ---------------------------------------------------------------------------------
  // Active styles: the look-behind of `updateActiveStyles`

  /**
   * The types the spans covering `lookBack` contribute, collected span by span into an
   * insertion-ordered set, as the `forEach` of `updateActiveStyles` does.
   */
  function Contributions(spans: seq<Range>, lookBack: int): seq<SpanType>
    decreases |spans|
  {
    if spans == [] then []
    else
      var before := Contributions(spans[..|spans| - 1], lookBack);
      var last := spans[|spans| - 1];
      if Covers(last, lookBack) then AddAll(before, Contribution(last.item)) else before
  }

  /** Some span with `start <= lookBack < end` contributes `t`. */
  predicate Inherits(spans: seq<Range>, lookBack: int, t: SpanType) {
    exists k :: 0 <= k < |spans| && Covers(spans[k], lookBack) && t in Contribution(spans[k].item)
  }

  lemma {:induction false} ContributionsSpec(spans: seq<Range>, lookBack: int)
    ensures NoDup(Contributions(spans, lookBack))
    ensures forall t :: t in Contributions(spans, lookBack) <==> Inherits(spans, lookBack, t)
    decreases |spans|
  {
    if spans != [] {
      var init := spans[..|spans| - 1];
      ContributionsSpec(init, lookBack);
      forall t ensures t in Contributions(spans, lookBack) <==> Inherits(spans, lookBack, t) {
        if Inherits(init, lookBack, t) {
          var k :| 0 <= k < |init| && Covers(init[k], lookBack) && t in Contribution(init[k].item);
          assert spans[k] == init[k];
        }
        if Inherits(spans, lookBack, t) {
          var k :| 0 <= k < |spans| && Covers(spans[k], lookBack) && t in Contribution(spans[k].item);
          if k < |init| {
            assert init[k] == spans[k];
          }
        }
      }
    }
  }

  /** One more span folded into the collected contributions. */
  lemma ContributionsStep(spans: seq<Range>, i: int, lookBack: int)
    requires 0 <= i < |spans|
    ensures Contributions(spans[..i + 1], lookBack) ==
      if Covers(spans[i], lookBack) then AddAll(Contributions(spans[..i], lookBack), Contribution(spans[i].item))
      else Contributions(spans[..i], lookBack)
  {
    assert spans[..i + 1][..i] == spans[..i];
  }

  /**
   * The styles inferred for the caret `selection.start`: exactly the types contributed
   * by spans covering the character before it; nothing at the start of the text.
   */
  function LookBehind(v: TextFieldValue): (r: seq<SpanType>)
    ensures NoDup(r)
    ensures forall t :: t in r <==>
      v.selection.start > 0 && Inherits(v.annotated.spans, v.selection.start - 1, t)
  {
    var cursor := v.selection.start;
    if cursor > 0 then
      ContributionsSpec(v.annotated.spans, cursor - 1);
      Contributions(v.annotated.spans, cursor - 1)
    else []
  }

  /** The loop of `updateActiveStyles`, filling a fresh set span by span. */
  method CollectActiveStyles(v: TextFieldValue) returns (styles: seq<SpanType>)
    ensures styles == LookBehind(v)
  {
    var cursor := v.selection.start;
    var spans := v.annotated.spans;
    styles := [];
    if cursor > 0 {
      var lookBack := cursor - 1;
      var i := 0;
      while i < |spans|
        invariant 0 <= i <= |spans|
        invariant styles == Contributions(spans[..i], lookBack)
      {
        var span := spans[i];
        ContributionsStep(spans, i, lookBack);
        if span.start <= lookBack && span.end > lookBack {
          styles := AddAll(styles, Contribution(span.item));
        }
        i := i + 1;
      }
      assert spans[..i] == spans;
      assert styles == Contributions(v.annotated.spans, cursor - 1);
    }
  }

  // ---------------------------------------------------------------------------------
  // List continuation on Enter

  datatype ListEdit = ListEdit(text: string, caret: int)

  const Bullet: string := "\U{2022}"
  const BulletMarker: string := "\U{2022} "

  /** The start of the line before the one `cursor` begins (`lastIndexOf('\n', cursor - 2) + 1`). */
  function PrevLineStart(newText: string, cursor: int): (r: int)
    requires 1 <= cursor <= |newText|
    ensures 0 <= r <= cursor - 1
  {
    LastIndexOf(newText, '\n', cursor - 2) + 1
  }

  /**
   * The list branch of `onValueChange`, given that the '\n' before `cursor` was just typed:
   * `newText` is `head + prevLine + "\n" + tail`, where `prevLine` is the line the caret
   * left. An empty bullet or numbered item is removed together with the new line break
   * (`removeRange(prevLineStart, cursor)` is `head + tail`); a bullet or numbered item with
   * content continues on the new line (`substring(0, cursor)` is `head + prevLine + "\n"`).
   * `None` when the previous line is not a list item.
   */
  function ListContinuation(newText: string, cursor: int): (r: Option<ListEdit>)
    requires 1 <= cursor <= |newText| && newText[cursor - 1] == '\n'
    ensures r.Some? ==> 0 <= r.value.caret <= |r.value.text|
  {
    var prevLineStart := PrevLineStart(newText, cursor);
    assert newText[..cursor] == newText[..prevLineStart] + newText[prevLineStart..cursor - 1] + "\n";
    LineContinuation(newText[..prevLineStart], newText[prevLineStart..cursor - 1], newText[cursor..])
  }

  /** The decision of the list branch on the line the caret left, in the source's order. */
  function LineContinuation(head: string, prevLine: string, tail: string): (r: Option<ListEdit>)
    ensures r.Some? ==> 0 <= r.value.caret <= |r.value.text|
  {
    var cursor := |head| + |prevLine| + 1;
    if Trim(prevLine) == Bullet then
      Some(ListEdit(head + tail, |head|))
    else if StartsWith(prevLine, BulletMarker) then
      Some(ListEdit(head + prevLine + "\n" + BulletMarker + tail, cursor + 2))
    else
      match NumberMarker(prevLine)
      case None => None
      case Some(digits) =>
        var number := ParseDigits(prevLine[..digits]);
        if Trim(prevLine) == Decimal(number) + "." then
          Some(ListEdit(head + tail, |head|))
        else
          var prefix := Decimal(number + 1) + ". ";
          Some(ListEdit(head + prevLine + "\n" + prefix + tail, cursor + |prefix|))
  }

  // ---------------------------------------------------------------------------------
  // The classifier of `onValueChange`

  datatype EditKind =
    | SelectionOnly
    | ListContinued(edit: ListEdit)
    | Replacement
    | Insertion
    | Backspace
    | ForwardDelete
    | Unclassified

  /** Enter-key test: the text grew, holds a line break, and the caret moved by one. */
  predicate EnterTyped(cur: TextFieldValue, nv: TextFieldValue) {
    |nv.Text()| > |cur.Text()| && '\n' in nv.Text() && nv.selection.start == cur.selection.start + 1
  }

  function ListEditFor(cur: TextFieldValue, nv: TextFieldValue): Option<ListEdit>
    requires ValidValue(cur) && ValidValue(nv)
  {
    if EnterTyped(cur, nv) && nv.Text()[nv.selection.start - 1] == '\n'
    then ListContinuation(nv.Text(), nv.selection.start)
    else None
  }

  /** Which branch of `onValueChange` a proposed value takes, in the source's order. */
  function Classify(cur: TextFieldValue, nv: TextFieldValue): EditKind
    requires ValidValue(cur) && ValidValue(nv)
  {
    if cur.Text() == nv.Text() then SelectionOnly
    else if ListEditFor(cur, nv).Some? then ListContinued(ListEditFor(cur, nv).value)
    else if !cur.selection.Collapsed() then Replacement
    else if |nv.Text()| > |cur.Text()| then
      if nv.selection.start - (|nv.Text()| - |cur.Text()|) == cur.selection.start then Insertion
      else Unclassified
    else if |nv.Text()| < |cur.Text()| then
      if nv.selection.start < cur.selection.start then Backspace
      else if nv.selection.start == cur.selection.start then ForwardDelete
      else Unclassified
    else Unclassified
  }

  /** `a.subSequence(0, s) + ins + a.subSequence(e, a.length)`. */
  function Splice(a: AnnotatedString, s: int, e: int, ins: AnnotatedString): AnnotatedString
    requires 0 <= s <= e <= |a.text|
  {
    Concat(Concat(SubSequence(a, 0, s), ins), SubSequence(a, e, |a.text|))
  }

  /** `a.subSequence(0, s) + a.subSequence(e, a.length)`. */
  function Deleted(a: AnnotatedString, s: int, e: int): AnnotatedString
    requires 0 <= s <= e <= |a.text|
  {
    Concat(SubSequence(a, 0, s), SubSequence(a, e, |a.text|))
  }

  /** Case A: the length of the text that replaced a non-collapsed selection. */
  function ReplacementLength(cur: TextFieldValue, nv: TextFieldValue): int {
    |nv.Text()| - (|cur.Text()| - (cur.selection.end - cur.selection.start))
  }

  /** Case A: the replacing text, stamped with the active styles when it is not empty. */
  function ReplacementText(cur: TextFieldValue, active: seq<SpanType>, nv: TextFieldValue): (r: AnnotatedString)
    requires ValidValue(cur) && ValidValue(nv)
    ensures WellFormed(r)
    ensures |r.text| == Max(ReplacementLength(cur, nv), 0)
    ensures |r.text| > 0 ==> r == Stamp(r.text, EncodeAll(active))
    ensures |r.text| == 0 ==> r.spans == []
  {
    var n := ReplacementLength(cur, nv);
    var inserted := if n > 0 then nv.Text()[cur.selection.start..cur.selection.start + n] else "";
    if |inserted| > 0 then Stamp(inserted, EncodeAll(active)) else AnnotatedString(inserted, [])
  }

  /** What `onValueChange` stores, and whether it recomputes the active styles. */
  datatype Step = Step(value: TextFieldValue, recompute: bool)

  function ValueChange(cur: TextFieldValue, active: seq<SpanType>, nv: TextFieldValue): (r: Step)
    requires ValidValue(cur) && ValidValue(nv)
    ensures ValidValue(r.value)
  {
    var shrank := |nv.Text()| < |cur.Text()|;
    match Classify(cur, nv)
    case SelectionOnly => Step(TextFieldValue(cur.annotated, nv.selection), true)
    case ListContinued(edit) => Step(PlainValue(edit.text, edit.caret), false)
    case Replacement =>
      var a := Splice(cur.annotated, cur.selection.start, cur.selection.end, ReplacementText(cur, active, nv));
      Step(WithAnnotated(nv, a), shrank)
    case Insertion =>
      var p := cur.selection.start;
      var inserted := nv.Text()[p..nv.selection.start];
      Step(WithAnnotated(nv, Splice(cur.annotated, p, p, Stamp(inserted, EncodeAll(active)))), shrank)
    case Backspace =>
      Step(WithAnnotated(nv, Deleted(cur.annotated, nv.selection.start, cur.selection.start)), shrank)
    case ForwardDelete =>
      var p := cur.selection.start;
      var d := |cur.Text()| - |nv.Text()|;
      Step(WithAnnotated(nv, Deleted(cur.annotated, p, p + d)), shrank)
    case Unclassified => Step(nv, true)
  }

  // ---------------------------------------------------------------------------------
  // `toggleStyle` on a collapsed selection

  /**
   * A heading type replaces whichever heading was active; any other type flips its
   * membership. The other types keep their order.
   */
  function ToggleActive(active: seq<SpanType>, t: SpanType): (r: seq<SpanType>)
    ensures NoDup(active) ==> NoDup(r)
    ensures t in Typography ==> forall u :: u in r <==> u == t || (u in active && u !in Typography)
    ensures t !in Typography ==> (t in r <==> t !in active)
    ensures t !in Typography ==> forall u :: u != t ==> (u in r <==> u in active)
  {
    if t in Typography then Add(RemoveAll(active, Typography), t)
    else if t in active then RemoveAll(active, {t})
    else Add(active, t)
  }
}
