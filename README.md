# Rich text editor screen, modelled in Dafny

This project models the editing core of the rich text note editor's `EditorScreen`
composable (`EditorScreen.kt`). The screen keeps four pieces of state: the text field
value (an `AnnotatedString` with span styles, plus a selection), the set of active span
types, and an undo stack and a redo stack of earlier values.

The model covers:

- `updateText`: the history step.
- `updateActiveStyles`: the styles read from the character before the caret.
- `onValueChange`: the Enter-key list continuation, then the replacement, insertion,
  backspace and forward-delete cases that rebuild the span list.
- `toggleStyle`.
- The Undo, Redo and Reset buttons.
- The Bullet and Number toolbar buttons.
- `getSpanStyle`, `extractSpans` and the `SpanType` enumeration of `data/Note.kt`.

## Layout

Modules follow the program's structure:

- `Wrappers`: `Option`.
- `LinkedSets`: Kotlin's insertion-ordered sets, as duplicate-free sequences.
- `Styles`: `SpanType`, the fields of `SpanStyle` the screen sets, `getSpanStyle`, and
  the two ways the screen reads a style back.
- `Notes`: `extractSpans`.
- `TextOps`: the Kotlin string operations used (`trim`, `startsWith`, `lastIndexOf`,
  `indexOf`, `"$n"`, `toInt`, the regex `^(\d+)\. `).
- `Annotated`: Compose's `AnnotatedString` with `subSequence`, `+` and `Builder.addStyle`,
  and `CoverAt`, the styles that apply to one character.
- `Editing`: `TextFieldValue`, the look-behind, the classifier and the value
  `onValueChange` stores (`ValueChange`), and the active-style toggle.
- `ListProps`: what the Enter key does on bullet, numbered and plain lines.
- `Toolbar`: the Bullet and Number buttons' proposed values.
- `EditingProps`: per-branch lemmas about the text and per-character styles that
  `onValueChange` stores.
- `ToolbarProps`: what a toolbar proposal becomes once it passes through `onValueChange`.
- `EditorModel`: the state as a value, each handler as a function, and the undo/redo
  timeline.
- `EditorScreen`: class `Editor`, whose fields are the remembered state and whose
  methods are the handlers. Each method is proved to move the fields exactly as its
  `EditorModel` function says.

## What the lemmas establish

**Style reading.** A span's styles are read back in two ways.

- The look-behind (`Contribution`) reads a TITLE span as both TITLE and BOLD.
- `extractSpans` (`Decode`) reads a SUBTITLE span as BODY, because its `when` has no
  SUBTITLE branch.
- `Styles.Encode` states both facts.
- `Notes.ExtractAfterAddStyle` shows the consequence: a SUBTITLE applied from the
  toolbar is saved as BODY.

**Spans.** The model states, for every branch of `onValueChange`, the stored text and
the exact ordered list of styles on every character (`CoverAt`):

- Characters outside the edit keep their styles.
- Typed characters carry one style per active type, in the order of the active set.
- The selection-only branch keeps the spans.
- The list branch drops all spans, since it goes through `copy(text = ...)`.

**Toolbar.** The Bullet and Number buttons build a rewritten line, then hand it to
`onValueChange`, which classifies it like any other change.

- With the caret at the start of a line that has no marker, or the button's own marker,
  this inserts or deletes exactly that marker (`ToolbarProps.BulletAddAtLineStart` and
  its siblings).
- A button pressed on a line with the other button's marker swaps the markers in the
  proposal, but the stored text is different. Number at the start of `"• x"` proposes
  `"1. x"` with the caret at 1. That reads as `'1'` typed at the caret, so `"1• x"` is
  stored (`ToolbarProps.NumberOnBulletLineAtStart`). Bullet at the start of `"1. a"`
  throws in the source. With the corrected selection it reads as a forward delete and
  stores `". a"` (`ToolbarProps.BulletOnNumberedLineHead`).
- Bullet with the caret inside the body of a numbered item makes the proposal shorter
  and moves the caret back, so the change reads as a backspace. The stored line loses
  the characters before the caret instead of its marker. `"12. a"` with the caret at 5
  stores `"12."` (`ToolbarProps.BulletOnNumberedLineInBody`).
- With the caret two or more characters into a plain line, the new selection is two
  places further on, so the change reads as an insertion at the old caret.
- In that case the text stored is the old text with the two characters before the
  caret repeated, not one with a bullet (`ToolbarProps.BulletMidLine`).

**History.** The undo stack, the current value and the reversed redo stack form one
timeline (`EditorModel.Timeline`). Undo and Redo move along it without changing it,
and a committed change is undone to the old value.

Text positions are unbounded integers. Strings are sequences of characters. The
selection is a `TextRange` with `start <= end`.

## Model

| member | source | states |
|---|---|---|
| LinkedSets.Add | app/src/main/java/com/example/richtexteditor/ui/editor/EditorScreen.kt:248 | `set + x`: the members are the old ones and `x`; no duplicate appears; a present `x` changes nothing |
| LinkedSets.AddAll | app/src/main/java/com/example/richtexteditor/ui/editor/EditorScreen.kt:89-100 | adding a list of types one by one: the members are the union, and no duplicate appears |
| LinkedSets.RemoveAll | app/src/main/java/com/example/richtexteditor/ui/editor/EditorScreen.kt:243-246 | `set - xs`: exactly the members not in `xs` remain, in their order, without duplicates |
| LinkedSets.RemoveAllAppend | app/src/main/java/com/example/richtexteditor/ui/editor/EditorScreen.kt:243 | removing from a concatenation is removing from each part |
| LinkedSets.RemoveAllTwice | app/src/main/java/com/example/richtexteditor/ui/editor/EditorScreen.kt:243 | removing the same types twice is removing them once |
| Styles.Encode | app/src/main/java/com/example/richtexteditor/ui/editor/EditorScreen.kt:512-521 | `getSpanStyle`; reading the style back as `extractSpans` does gives the type, except SUBTITLE, which reads as BODY; the look-behind reads TITLE as [TITLE, BOLD] and every other type as itself |
| Styles.ResetStyle | app/src/main/java/com/example/richtexteditor/ui/editor/EditorScreen.kt:322-328 | the Reset style is read back only as BODY, both by the look-behind and by `extractSpans` |
| Styles.EncodeAll | app/src/main/java/com/example/richtexteditor/ui/editor/EditorScreen.kt:196-198 | one style per active type, in the order of the active set |
| Notes.ExtractSpans | app/src/main/java/com/example/richtexteditor/ui/editor/EditorScreen.kt:523-534 | one `NoteSpan` per range, with the same count, order and bounds, the type decoded from the style |
| Notes.ExtractAfterAddStyle | app/src/main/java/com/example/richtexteditor/ui/editor/EditorScreen.kt:253-258 | a style applied from the toolbar is saved as one more `NoteSpan` of that type over the selection (SUBTITLE saved as BODY) |
| TextOps.TrimStart | app/src/main/java/com/example/richtexteditor/ui/editor/EditorScreen.kt:134 | the result is a suffix of the input |
| TextOps.TrimEnd | app/src/main/java/com/example/richtexteditor/ui/editor/EditorScreen.kt:134 | the result is a prefix of the input |
| TextOps.DigitChar | app/src/main/java/com/example/richtexteditor/ui/editor/EditorScreen.kt:155 | the character of a digit is a digit that reads back as that digit |
| TextOps.Decimal | app/src/main/java/com/example/richtexteditor/ui/editor/EditorScreen.kt:155 | `"$n"` is a non-empty run of digits |
| TextOps.DecimalRoundTrip | app/src/main/java/com/example/richtexteditor/ui/editor/EditorScreen.kt:148-149 | `toInt` of `"$n"` is `n` |
| TextOps.DecimalHasNoBreak | app/src/main/java/com/example/richtexteditor/ui/editor/EditorScreen.kt:155 | `"$n"` holds no line break and no bullet, and starts with a digit, which is not blank |
| TextOps.LeadingDigits | app/src/main/java/com/example/richtexteditor/ui/editor/EditorScreen.kt:145 | the length of the longest digit run at the start: all digits, and the next character is not one |
| TextOps.NumberMarker | app/src/main/java/com/example/richtexteditor/ui/editor/EditorScreen.kt:145-146 | `^(\d+)\. ` matches exactly when the leading digit run is non-empty and followed by `". "`: a match gives the whole leading digit run, and `None` means no digit prefix of any length is followed by `". "` |
| TextOps.DigitRunEndsAtMarker | app/src/main/java/com/example/richtexteditor/ui/editor/EditorScreen.kt:145 | a run of digits at the line's start followed by a non-digit is the whole leading digit run, so the greedy group cannot stop short |
| TextOps.StripNumberMarker | app/src/main/java/com/example/richtexteditor/ui/editor/EditorScreen.kt:458-459 | `replace(^\d+\. , "")`: the result is a suffix of the line, equal to it exactly when there is no match; otherwise the dropped prefix is a whole marker (digits, `". "`), as long as the match |
| TextOps.LeadingDigitsOf | app/src/main/java/com/example/richtexteditor/ui/editor/EditorScreen.kt:145 | the digit run of `ds + rest` is `ds` when `rest` does not start with a digit |
| TextOps.NumberMarkerOf | app/src/main/java/com/example/richtexteditor/ui/editor/EditorScreen.kt:145-148 | `"$n. " + rest` matches, with group `"$n"`, and the group reads back as `n` |
| TextOps.LastIndexOf | app/src/main/java/com/example/richtexteditor/ui/editor/EditorScreen.kt:130 | `lastIndexOf(c, from)`: -1 or an index at or before `from` holding `c`, with no `c` after it up to `from` |
| TextOps.IndexOf | app/src/main/java/com/example/richtexteditor/ui/editor/EditorScreen.kt:447 | `indexOf(c, from)`: -1 or the first index at or after `from` holding `c` |
| TextOps.TrimEndWhitespace | app/src/main/java/com/example/richtexteditor/ui/editor/EditorScreen.kt:134 | trailing blanks do not change `trimEnd` |
| TextOps.TrimEndKeeps | app/src/main/java/com/example/richtexteditor/ui/editor/EditorScreen.kt:134 | `trimEnd` keeps every non-blank character |
| TextOps.TrimStartWhitespace | app/src/main/java/com/example/richtexteditor/ui/editor/EditorScreen.kt:134 | `trimStart` drops exactly the leading blanks |
| Annotated.Clip | app/src/main/java/com/example/richtexteditor/ui/editor/EditorScreen.kt:183-185 | the ranges `subSequence(s, e)` keeps are non-empty and lie inside the new text |
| Annotated.Shift | app/src/main/java/com/example/richtexteditor/ui/editor/EditorScreen.kt:183-185 | `+` moves each range of its right operand by the left operand's length, keeping its style |
| Annotated.SubSequence | app/src/main/java/com/example/richtexteditor/ui/editor/EditorScreen.kt:183-185 | `subSequence(s, e)` has the text `text[s..e]` and keeps a well-formed string well formed |
| Annotated.ClipWhole | app/src/main/java/com/example/richtexteditor/ui/editor/EditorScreen.kt:185 | clipping well-formed ranges to the whole text keeps them all unchanged |
| Annotated.SubSequenceWhole | app/src/main/java/com/example/richtexteditor/ui/editor/EditorScreen.kt:185 | the whole-range `subSequence` is the string itself, as Compose's shortcut returns |
| Annotated.Concat | app/src/main/java/com/example/richtexteditor/ui/editor/EditorScreen.kt:183-185 | `a + b` has the text `a.text + b.text` and is well formed when both are |
| Annotated.AddStyle | app/src/main/java/com/example/richtexteditor/ui/editor/EditorScreen.kt:253-257 | `Builder(a).addStyle` keeps the text, and keeps the string well formed for a non-empty range inside it |
| Annotated.StampSpans | app/src/main/java/com/example/richtexteditor/ui/editor/EditorScreen.kt:195-198 | for a positive length `n`, the ranges of a stamped builder are non-empty and lie inside `[0, n]` |
| Annotated.Stamp | app/src/main/java/com/example/richtexteditor/ui/editor/EditorScreen.kt:195-199 | `Builder(text)` with one `addStyle` per style keeps the text and is well formed |
| Annotated.CoverAppend | app/src/main/java/com/example/richtexteditor/ui/editor/EditorScreen.kt:183-185 | the styles on a character of appended range lists are those of the first list, then those of the second |
| Annotated.CoverShift | app/src/main/java/com/example/richtexteditor/ui/editor/EditorScreen.kt:183-185 | moving the ranges by `d` moves the per-character styles by `d` |
| Annotated.CoverClip | app/src/main/java/com/example/richtexteditor/ui/editor/EditorScreen.kt:183-185 | clipping keeps the styles on every character inside the window |
| Annotated.CoverOutside | app/src/main/java/com/example/richtexteditor/ui/editor/EditorScreen.kt:183-185 | ranges inside `[lo, hi)` put no style on a character outside it |
| Annotated.CoverStamp | app/src/main/java/com/example/richtexteditor/ui/editor/EditorScreen.kt:195-199 | every character of a stamped text carries the stamped styles, in order |
| Annotated.SubSequenceCover | app/src/main/java/com/example/richtexteditor/ui/editor/EditorScreen.kt:183-185 | each character of `subSequence(s, e)` has exactly the styles it had in the original |
| Annotated.ConcatCover | app/src/main/java/com/example/richtexteditor/ui/editor/EditorScreen.kt:183-185 | each character of `a + b` has exactly the styles it had in `a` or in `b` |
| Annotated.StampCover | app/src/main/java/com/example/richtexteditor/ui/editor/EditorScreen.kt:195-199 | every character of the inserted text carries the active styles, in order |
| Annotated.AddStyleCover | app/src/main/java/com/example/richtexteditor/ui/editor/EditorScreen.kt:256 | `addStyle` puts the style last on the characters of `[s, e)` and changes no other character |
| Editing.Coerce | app/src/main/java/com/example/richtexteditor/ui/editor/EditorScreen.kt:226 | a `TextFieldValue` keeps a selection that fits the text and clamps an ordered one into it |
| Editing.WithAnnotated | app/src/main/java/com/example/richtexteditor/ui/editor/EditorScreen.kt:226 | `copy(annotatedString = a)` stores `a` and is a valid value when `a` is well formed |
| Editing.PlainValue | app/src/main/java/com/example/richtexteditor/ui/editor/EditorScreen.kt:136 | `copy(text = t, selection = TextRange(c))` is valid, has the text `t`, no spans, and the caret at `c` when `c` fits |
| Editing.ContributionsSpec | app/src/main/java/com/example/richtexteditor/ui/editor/EditorScreen.kt:87-100 | the collected types hold no duplicate, and a type is collected exactly when a span covering the look-back index contributes it |
| Editing.ContributionsStep | app/src/main/java/com/example/richtexteditor/ui/editor/EditorScreen.kt:89-100 | folding one more span adds its contribution when it covers the look-back index, and nothing otherwise |
| Editing.LookBehind | app/src/main/java/com/example/richtexteditor/ui/editor/EditorScreen.kt:81-106 | `updateActiveStyles`: exactly the types contributed by spans covering the character before the caret, none at the text's start |
| Editing.CollectActiveStyles | app/src/main/java/com/example/richtexteditor/ui/editor/EditorScreen.kt:81-106 | the loop of `updateActiveStyles` computes `LookBehind` |
| Editing.PrevLineStart | app/src/main/java/com/example/richtexteditor/ui/editor/EditorScreen.kt:130 | the start of the line the caret just left lies before the typed line break |
| Editing.ListContinuation | app/src/main/java/com/example/richtexteditor/ui/editor/EditorScreen.kt:125-162 | the Enter branch's edit, read on the line the caret left; its caret fits the new text |
| Editing.LineContinuation | app/src/main/java/com/example/richtexteditor/ui/editor/EditorScreen.kt:133-160 | the decision on the previous line in the source's order: empty bullet, bullet item, empty number, numbered item; its caret fits the new text |
| Editing.ReplacementText | app/src/main/java/com/example/richtexteditor/ui/editor/EditorScreen.kt:169-181 | the replacing text has length `max(insertedLength, 0)`, carries the active styles when non-empty and no span when empty |
| Editing.ValueChange | app/src/main/java/com/example/richtexteditor/ui/editor/EditorScreen.kt:108-236 | the value `onValueChange` stores is a valid text field value (what each branch stores is stated by the lemmas in `EditingProps`) |
| Editing.ToggleActive | app/src/main/java/com/example/richtexteditor/ui/editor/EditorScreen.kt:238-250 | a heading type replaces every active heading; another type flips its own membership and leaves the others; no duplicates |
| ListProps.PrevLineOf | app/src/main/java/com/example/richtexteditor/ui/editor/EditorScreen.kt:128-131 | the line the Enter branch inspects is exactly the line ended by the typed line break |
| ListProps.EnterAfterLine | app/src/main/java/com/example/richtexteditor/ui/editor/EditorScreen.kt:125-131 | on Enter at the end of a line the list branch decides on that line alone |
| ListProps.TrimStartOfUnblank | app/src/main/java/com/example/richtexteditor/ui/editor/EditorScreen.kt:134 | a line starting with a non-blank is its own `trimStart` |
| ListProps.BulletItemLine | app/src/main/java/com/example/richtexteditor/ui/editor/EditorScreen.kt:134-138 | a bullet line with content is not an empty bullet and starts with the bullet marker |
| ListProps.EmptyNumberedLine | app/src/main/java/com/example/richtexteditor/ui/editor/EditorScreen.kt:145-149 | `"$n. "` with trailing blanks trims to `"$n."` |
| ListProps.NumberedItemLine | app/src/main/java/com/example/richtexteditor/ui/editor/EditorScreen.kt:145-149 | a numbered line with content does not trim to `"$n."` |
| ListProps.EmptyBulletLine | app/src/main/java/com/example/richtexteditor/ui/editor/EditorScreen.kt:134 | `•` with blanks around it trims to `•` |
| ListProps.EmptyBulletExits | app/src/main/java/com/example/richtexteditor/ui/editor/EditorScreen.kt:134-137 | Enter on an empty bullet item removes the item and the new line break and puts the caret at the line start |
| ListProps.BulletItemContinues | app/src/main/java/com/example/richtexteditor/ui/editor/EditorScreen.kt:138-141 | Enter on a bullet item with content opens a new line starting with `"• "`, the caret after it |
| ListProps.EmptyNumberedItemExits | app/src/main/java/com/example/richtexteditor/ui/editor/EditorScreen.kt:149-152 | Enter on an empty numbered item removes the item and the new line break |
| ListProps.NumberedItemContinues | app/src/main/java/com/example/richtexteditor/ui/editor/EditorScreen.kt:153-158 | Enter on `"$n. ..."` with content opens a line starting with `"${n+1}. "`, the caret after it |
| ListProps.PlainLineStops | app/src/main/java/com/example/richtexteditor/ui/editor/EditorScreen.kt:133-161 | a line with no bullet that does not start with a digit leaves the list branch with no edit |
| Toolbar.LineStart | app/src/main/java/com/example/richtexteditor/ui/editor/EditorScreen.kt:446 | the start of the caret's line: after the last line break before the caret, no line break between |
| Toolbar.LineEnd | app/src/main/java/com/example/richtexteditor/ui/editor/EditorScreen.kt:447 | the end of the caret's line: the next line break at or after the caret, or the text's end |
| Toolbar.ReplaceRange | app/src/main/java/com/example/richtexteditor/ui/editor/EditorScreen.kt:452 | `replaceRange` keeps the text before and after and puts the replacement in between |
| Toolbar.BulletLine | app/src/main/java/com/example/richtexteditor/ui/editor/EditorScreen.kt:450-460 | a bullet item loses its `"• "`; any other line becomes a bullet item whose body is a suffix of the line, shorter exactly when the line had a number marker, and then by a whole marker |
| Toolbar.NumberLine | app/src/main/java/com/example/richtexteditor/ui/editor/EditorScreen.kt:478-488 | a numbered item loses a whole marker from its front and keeps the rest; any other line becomes a line the regex reads as item 1, whose body is the line, less its `"• "` if it had one |
| Toolbar.BulletSelectionAsWritten | app/src/main/java/com/example/richtexteditor/ui/editor/EditorScreen.kt:453-464 | removing a bullet keeps the selection at or after the line start; adding one moves both ends by the change in line length |
| Toolbar.BulletSelection | app/src/main/java/com/example/richtexteditor/ui/editor/EditorScreen.kt:453-464 | the corrected selection stays at or after the line start, stays ordered, and equals the as-written one wherever that one does |
| Toolbar.NumberSelection | app/src/main/java/com/example/richtexteditor/ui/editor/EditorScreen.kt:482-492 | removing a marker keeps the selection at or after the line start; adding `"1. "` moves both ends forward by the change in line length (1 or 3) |
| Toolbar.CaretLine | app/src/main/java/com/example/richtexteditor/ui/editor/EditorScreen.kt:444-448 | the caret's line holds the caret, is the text between its bounds, and has no line break |
| Toolbar.PutLineHead | app/src/main/java/com/example/richtexteditor/ui/editor/EditorScreen.kt:452 | a marker put in front of the caret's line is a marker put in at the line start |
| Toolbar.DropLineHead | app/src/main/java/com/example/richtexteditor/ui/editor/EditorScreen.kt:452 | dropping the first `m` characters of the line drops them from the text |
| Toolbar.BulletProposalAsWritten | app/src/main/java/com/example/richtexteditor/ui/editor/EditorScreen.kt:442-466 | the Bullet button's value as written, `None` where `TextRange` rejects the negative selection; a value it gives is valid and has no spans |
| Toolbar.BulletProposal | app/src/main/java/com/example/richtexteditor/ui/editor/EditorScreen.kt:442-466 | the Bullet button's value with the corrected selection: its text is the text with the caret's line rewritten, and it has no spans |
| Toolbar.NumberProposal | app/src/main/java/com/example/richtexteditor/ui/editor/EditorScreen.kt:470-494 | the Number button's value: its text is the text with the caret's line rewritten, and it has no spans |
| Toolbar.BulletProposalFrom | app/src/main/java/com/example/richtexteditor/ui/editor/EditorScreen.kt:442-466 | once the rewritten line and the corrected selection are known, the Bullet proposal is the text with the line replaced and that selection |
| Toolbar.NumberProposalFrom | app/src/main/java/com/example/richtexteditor/ui/editor/EditorScreen.kt:470-494 | once the rewritten line and the selection are known, the Number proposal is the text with the line replaced and that selection |
| Toolbar.BulletProposalOnPlainLine | app/src/main/java/com/example/richtexteditor/ui/editor/EditorScreen.kt:457-465 | on a line with no marker, `"• "` goes in front of the line and the selection moves by 2 |
| Toolbar.ShiftedPair | app/src/main/java/com/example/richtexteditor/ui/editor/EditorScreen.kt:461 | after a two-character marker goes in at the line start, the pair at `[p, p + 2)` of the new text is the pair that was at `[p - 2, p)` |
| Toolbar.BulletProposalMidLine | app/src/main/java/com/example/richtexteditor/ui/editor/EditorScreen.kt:457-465 | two or more characters into a plain line, the proposal is 2 longer, moves the caret by 2, and has at the old caret the two characters before it |
| Toolbar.BulletProposalOnBulletLine | app/src/main/java/com/example/richtexteditor/ui/editor/EditorScreen.kt:450-456 | on a bullet item, the `"• "` goes and the selection moves back by 2, not before the line start |
| Toolbar.NumberProposalOnPlainLine | app/src/main/java/com/example/richtexteditor/ui/editor/EditorScreen.kt:486-493 | on a line with no marker, `"1. "` goes in front of the line and the selection moves by 3 |
| Toolbar.NumberProposalOnNumberedLine | app/src/main/java/com/example/richtexteditor/ui/editor/EditorScreen.kt:479-485 | on a numbered item, the marker goes and the selection moves back by its length, not before the line start |
| Toolbar.NumberProposalOnBulletLine | app/src/main/java/com/example/richtexteditor/ui/editor/EditorScreen.kt:486-493 | on a bullet item, `"1. "` takes the place of `"• "` and the selection moves by 1 |
| Toolbar.NumberProposalAtBulletLineStart | app/src/main/java/com/example/richtexteditor/ui/editor/EditorScreen.kt:486-493 | at a bullet item's start, the proposal is one longer, has `'1'` at the caret, and its caret is one further on |
| Toolbar.BulletProposalOnNumberedLine | app/src/main/java/com/example/richtexteditor/ui/editor/EditorScreen.kt:457-465 | on a numbered item with a `d`-digit number, `"• "` takes the place of the marker, the text is `d` shorter, and the selection moves back by `d`, not before the line start |
| Toolbar.BulletProposalShrinksNumberedLine | app/src/main/java/com/example/richtexteditor/ui/editor/EditorScreen.kt:457-465 | on a numbered item with a `d`-digit number, the proposal is `d` shorter and its selection is `d` further back, not before the line start |
| Toolbar.BulletProposalAtPlainLineStart | app/src/main/java/com/example/richtexteditor/ui/editor/EditorScreen.kt:457-465 | at a plain line's start, `"• "` is inserted at the caret and the caret moves past it |
| Toolbar.BulletProposalAtBulletLineStart | app/src/main/java/com/example/richtexteditor/ui/editor/EditorScreen.kt:450-456 | at a bullet item's start, the two characters after the caret go and the caret stays |
| Toolbar.NumberProposalAtPlainLineStart | app/src/main/java/com/example/richtexteditor/ui/editor/EditorScreen.kt:486-493 | at a plain line's start, `"1. "` is inserted at the caret and the caret moves past it |
| Toolbar.NumberProposalAtNumberedLineStart | app/src/main/java/com/example/richtexteditor/ui/editor/EditorScreen.kt:479-485 | at a numbered item's start, the marker's characters after the caret go and the caret stays |
| Toolbar.BulletProposalAgrees | app/src/main/java/com/example/richtexteditor/ui/editor/EditorScreen.kt:462-465 | wherever the as-written selection is not before the line start, the corrected proposal is the as-written one |
| Toolbar.BulletOnNumberedLineAtStart | app/src/main/java/com/example/richtexteditor/ui/editor/EditorScreen.kt:462-465 | Bullet with the caret at the start of `"1. a"`: the as-written selection is (-1, -1), so the as-written proposal fails, while the corrected one stays at 0 |
| Toolbar.BulletLineTwice | app/src/main/java/com/example/richtexteditor/ui/editor/EditorScreen.kt:450-460 | Bullet twice on a line with no marker gives the line back |
| Toolbar.NumberLineTwice | app/src/main/java/com/example/richtexteditor/ui/editor/EditorScreen.kt:479-488 | Number twice on a line with no marker gives the line back |
| Toolbar.BulletReplacesNumber | app/src/main/java/com/example/richtexteditor/ui/editor/EditorScreen.kt:458-460 | Bullet on `"$n. rest"` gives `"• rest"` |
| Toolbar.NumberReplacesBullet | app/src/main/java/com/example/richtexteditor/ui/editor/EditorScreen.kt:487-488 | Number on `"• rest"` gives `"1. rest"` |
| EditingProps.SpliceText | app/src/main/java/com/example/richtexteditor/ui/editor/EditorScreen.kt:183-185 | the splice's text is the old text with `[s, e)` replaced, and it is well formed |
| EditingProps.ConcatThreeCover | app/src/main/java/com/example/richtexteditor/ui/editor/EditorScreen.kt:183-185 | a character of `l + m + r` has the styles it had in the part it comes from |
| EditingProps.SpliceCoverBefore | app/src/main/java/com/example/richtexteditor/ui/editor/EditorScreen.kt:183-185 | before the splice point a character keeps its styles |
| EditingProps.SpliceCoverInserted | app/src/main/java/com/example/richtexteditor/ui/editor/EditorScreen.kt:183-185 | an inserted character has the styles of the inserted string |
| EditingProps.SpliceCoverAfter | app/src/main/java/com/example/richtexteditor/ui/editor/EditorScreen.kt:183-185 | after the inserted part a character keeps the styles it had in the old text |
| EditingProps.SpliceCover | app/src/main/java/com/example/richtexteditor/ui/editor/EditorScreen.kt:183-185 | every character of the splice has the styles of the character it comes from |
| EditingProps.DeletedText | app/src/main/java/com/example/richtexteditor/ui/editor/EditorScreen.kt:214-221 | the deletion's text is the old text without `[s, e)`, and it is well formed |
| EditingProps.DeletedCover | app/src/main/java/com/example/richtexteditor/ui/editor/EditorScreen.kt:214-221 | every character left after a deletion keeps its styles |
| EditingProps.DeletedCoverBefore | app/src/main/java/com/example/richtexteditor/ui/editor/EditorScreen.kt:214-221 | before the deleted range a character keeps its styles |
| EditingProps.DeletedCoverAfter | app/src/main/java/com/example/richtexteditor/ui/editor/EditorScreen.kt:214-221 | after the deleted range a character keeps the styles it had `e - s` further on |
| EditingProps.SelectionOnlyKeepsSpans | app/src/main/java/com/example/richtexteditor/ui/editor/EditorScreen.kt:114-121 | with the text unchanged, the old spans are kept with the new selection, and the styles are recomputed |
| EditingProps.ListBranchDropsSpans | app/src/main/java/com/example/richtexteditor/ui/editor/EditorScreen.kt:134-158 | the list branch stores its text with no spans and its caret, and does not recompute the styles |
| EditingProps.InsertionSplice | app/src/main/java/com/example/richtexteditor/ui/editor/EditorScreen.kt:188-204 | an insertion splices the stamped inserted text in at the old caret |
| EditingProps.InsertionResult | app/src/main/java/com/example/richtexteditor/ui/editor/EditorScreen.kt:188-231 | after an insertion the stored text is the old text with the typed run put in at the old caret, the selection is the new one, and the styles are kept |
| EditingProps.InsertionKeepsBefore | app/src/main/java/com/example/richtexteditor/ui/editor/EditorScreen.kt:201 | before the old caret a character keeps its styles |
| EditingProps.InsertionStampsInserted | app/src/main/java/com/example/richtexteditor/ui/editor/EditorScreen.kt:195-199 | each inserted character carries exactly the active styles, in order |
| EditingProps.InsertionKeepsAfter | app/src/main/java/com/example/richtexteditor/ui/editor/EditorScreen.kt:203 | a character after the insertion keeps the styles it had before the insertion |
| EditingProps.InsertionOffCaret | app/src/main/java/com/example/richtexteditor/ui/editor/EditorScreen.kt:188-235 | text that grew from a collapsed caret, but not by a run ending at the new caret, is stored as proposed, and the styles are recomputed |
| EditingProps.ReplacementSplice | app/src/main/java/com/example/richtexteditor/ui/editor/EditorScreen.kt:169-186 | a replacement splices the stamped replacing text over the old selection |
| EditingProps.ReplacementResult | app/src/main/java/com/example/richtexteditor/ui/editor/EditorScreen.kt:169-231 | the stored text is the old text with the selection replaced by the typed run (or by nothing), and the styles are recomputed exactly when the text shrank |
| EditingProps.ReplacementKeepsBefore | app/src/main/java/com/example/richtexteditor/ui/editor/EditorScreen.kt:183 | before the old selection a character keeps its styles |
| EditingProps.ReplacementStampsInserted | app/src/main/java/com/example/richtexteditor/ui/editor/EditorScreen.kt:175-181 | each replacing character carries exactly the active styles |
| EditingProps.ReplacementKeepsAfter | app/src/main/java/com/example/richtexteditor/ui/editor/EditorScreen.kt:185 | a character after the replacement keeps the styles it had after the old selection |
| EditingProps.BackspaceResult | app/src/main/java/com/example/richtexteditor/ui/editor/EditorScreen.kt:210-231 | backspace deletes `[new caret, old caret)` and recomputes the styles at the new caret |
| EditingProps.BackspaceDeletes | app/src/main/java/com/example/richtexteditor/ui/editor/EditorScreen.kt:210-215 | the backspace branch stores the old string with `[new caret, old caret)` deleted |
| EditingProps.BackspaceKeepsBefore | app/src/main/java/com/example/richtexteditor/ui/editor/EditorScreen.kt:214 | before the new caret a character keeps its styles |
| EditingProps.BackspaceKeepsAfter | app/src/main/java/com/example/richtexteditor/ui/editor/EditorScreen.kt:215 | a character after the deletion keeps the styles it had before it |
| EditingProps.ForwardDeleteResult | app/src/main/java/com/example/richtexteditor/ui/editor/EditorScreen.kt:216-231 | forward delete removes the characters after the caret, keeps the selection, and recomputes the styles |
| EditingProps.ForwardDeleteDeletes | app/src/main/java/com/example/richtexteditor/ui/editor/EditorScreen.kt:216-221 | the forward-delete branch stores the old string with `[caret, caret + d)` deleted |
| EditingProps.ForwardDeleteKeepsBefore | app/src/main/java/com/example/richtexteditor/ui/editor/EditorScreen.kt:220 | before the caret a character keeps its styles |
| EditingProps.ForwardDeleteKeepsAfter | app/src/main/java/com/example/richtexteditor/ui/editor/EditorScreen.kt:221 | a character after the deletion keeps the styles it had `d` further on |
| EditingProps.HeadingToggleIdempotent | app/src/main/java/com/example/richtexteditor/ui/editor/EditorScreen.kt:242-243 | choosing the same heading twice is choosing it once |
| EditingProps.FormatToggleTwice | app/src/main/java/com/example/richtexteditor/ui/editor/EditorScreen.kt:244-250 | pressing Bold, Italic or Underline twice at a caret gives the same members back |
| ToolbarProps.InsertAtCaret | app/src/main/java/com/example/richtexteditor/ui/editor/EditorScreen.kt:188-204 | a run of two or more characters put in at a collapsed caret is stored exactly as proposed |
| ToolbarProps.DeleteAtCaret | app/src/main/java/com/example/richtexteditor/ui/editor/EditorScreen.kt:216-221 | characters removed after a caret that stays put are stored exactly as proposed |
| ToolbarProps.TypeAtCaret | app/src/main/java/com/example/richtexteditor/ui/editor/EditorScreen.kt:188-204 | one character other than a line break put in at a collapsed caret that moves one on is stored as typed at the old caret |
| ToolbarProps.BackspaceToCaret | app/src/main/java/com/example/richtexteditor/ui/editor/EditorScreen.kt:210-215 | a shorter text with its caret before a collapsed old caret is stored as the old text without the characters between the two carets |
| ToolbarProps.ShrinkAtCaret | app/src/main/java/com/example/richtexteditor/ui/editor/EditorScreen.kt:216-221 | a text `d` shorter with the caret in place is stored as the old text without the `d` characters after the caret |
| ToolbarProps.BulletAddAtLineStart | app/src/main/java/com/example/richtexteditor/ui/editor/EditorScreen.kt:457-465 | Bullet at the start of a plain line stores the line with `"• "` in front and the caret after it |
| ToolbarProps.BulletRemoveAtLineStart | app/src/main/java/com/example/richtexteditor/ui/editor/EditorScreen.kt:450-456 | Bullet at the start of a bullet item stores the line without its `"• "` |
| ToolbarProps.NumberAddAtLineStart | app/src/main/java/com/example/richtexteditor/ui/editor/EditorScreen.kt:486-493 | Number at the start of a plain line stores the line with `"1. "` in front and the caret after it |
| ToolbarProps.NumberRemoveAtLineStart | app/src/main/java/com/example/richtexteditor/ui/editor/EditorScreen.kt:479-485 | Number at the start of a numbered item stores the line without its marker |
| ToolbarProps.BulletMidLine | app/src/main/java/com/example/richtexteditor/ui/editor/EditorScreen.kt:457-465 | Bullet two or more characters into a plain line stores the two characters before the caret a second time, and no marker |
| ToolbarProps.NumberOnBulletLineAtStart | app/src/main/java/com/example/richtexteditor/ui/editor/EditorScreen.kt:486-493 | Number at the start of a bullet item stores the old text with `'1'` put in front of the bullet, and the caret after it |
| ToolbarProps.BulletOnNumberedLineInBody | app/src/main/java/com/example/richtexteditor/ui/editor/EditorScreen.kt:457-465 | Bullet inside a numbered item stores the old text without the `d` characters before the caret (fewer when they would reach past the line start) and keeps the number marker, or what is left of it |
| ToolbarProps.BulletOnNumberedLineHead | app/src/main/java/com/example/richtexteditor/ui/editor/EditorScreen.kt:457-465 | Bullet at the start of a numbered item with a `d`-digit number stores the old text without those `d` digits and leaves the caret in place |
| EditorModel.Initial | app/src/main/java/com/example/richtexteditor/ui/editor/EditorScreen.kt:66-71 | the screen starts with an empty value, no active style and empty stacks |
| EditorModel.Commit | app/src/main/java/com/example/richtexteditor/ui/editor/EditorScreen.kt:73-79 | `updateText`: the value is replaced; the old one is pushed and the redo stack cleared exactly when text or spans changed |
| EditorModel.Undo | app/src/main/java/com/example/richtexteditor/ui/editor/EditorScreen.kt:304-309 | Undo keeps the active styles, and with an empty undo stack changes nothing (what it does otherwise is stated by `UndoKeepsTimeline`) |
| EditorModel.Redo | app/src/main/java/com/example/richtexteditor/ui/editor/EditorScreen.kt:310-315 | Redo keeps the active styles, and with an empty redo stack changes nothing (what it does otherwise is stated by `RedoKeepsTimeline`) |
| EditorModel.Reverse | app/src/main/java/com/example/richtexteditor/ui/editor/EditorScreen.kt:304-315 | the redo stack read from its top: the same values in the opposite order |
| EditorModel.UndoKeepsTimeline | app/src/main/java/com/example/richtexteditor/ui/editor/EditorScreen.kt:304-309 | Undo moves one step back along the undo-value-redo timeline and keeps the timeline |
| EditorModel.RedoKeepsTimeline | app/src/main/java/com/example/richtexteditor/ui/editor/EditorScreen.kt:310-315 | Redo moves one step forward along the timeline and keeps the timeline |
| EditorModel.UndoRedo | app/src/main/java/com/example/richtexteditor/ui/editor/EditorScreen.kt:304-315 | Undo then Redo restores the state, and Redo then Undo too |
| EditorModel.UndoAfterCommit | app/src/main/java/com/example/richtexteditor/ui/editor/EditorScreen.kt:73-79 | a change is undone to the old value, can be redone, and drops the redo future |
| EditorModel.CommitUnchanged | app/src/main/java/com/example/richtexteditor/ui/editor/EditorScreen.kt:74 | a value with the same text and spans is stored without touching the history |
| EditorModel.CommitValid | app/src/main/java/com/example/richtexteditor/ui/editor/EditorScreen.kt:73-79 | storing a valid value keeps every stored value valid |
| EditorModel.UndoRedoValid | app/src/main/java/com/example/richtexteditor/ui/editor/EditorScreen.kt:304-315 | Undo and Redo keep every stored value valid |
| EditorModel.ApplyChange | app/src/main/java/com/example/richtexteditor/ui/editor/EditorScreen.kt:108-236 | `onValueChange` stores the classified value through `updateText` and keeps the state valid |
| EditorModel.ApplyToggle | app/src/main/java/com/example/richtexteditor/ui/editor/EditorScreen.kt:238-261 | `toggleStyle` keeps the state valid |
| EditorModel.ApplyReset | app/src/main/java/com/example/richtexteditor/ui/editor/EditorScreen.kt:316-336 | the Reset button keeps the state valid |
| EditorModel.ApplyBullet | app/src/main/java/com/example/richtexteditor/ui/editor/EditorScreen.kt:442-469 | the Bullet button keeps the state valid |
| EditorModel.ApplyNumber | app/src/main/java/com/example/richtexteditor/ui/editor/EditorScreen.kt:470-497 | the Number button keeps the state valid |
| EditorModel.SelectionMoveKeepsHistory | app/src/main/java/com/example/richtexteditor/ui/editor/EditorScreen.kt:114-121 | moving the caret keeps the spans and both stacks, and reads the styles before the new caret |
| EditorModel.TypingIsUndoable | app/src/main/java/com/example/richtexteditor/ui/editor/EditorScreen.kt:188-231 | typing is one undo step, keeps the active styles, and Undo brings the old value back |
| EditorModel.DeletionIsUndoable | app/src/main/java/com/example/richtexteditor/ui/editor/EditorScreen.kt:207-231 | backspace or forward delete is one undo step, recomputes the styles, and Undo brings the old value back |
| EditorModel.ToggleAtCaret | app/src/main/java/com/example/richtexteditor/ui/editor/EditorScreen.kt:241-250 | a style button at a caret changes only the active styles |
| EditorModel.ToggleOnSelection | app/src/main/java/com/example/richtexteditor/ui/editor/EditorScreen.kt:251-260 | a style button on a selection appends one span over exactly the selection, records one undo step and recomputes the styles; Undo removes the span |
| EditorModel.ResetAtCaret | app/src/main/java/com/example/richtexteditor/ui/editor/EditorScreen.kt:317-318 | Reset at a caret clears the active styles and nothing else |
| EditorModel.ResetOnSelection | app/src/main/java/com/example/richtexteditor/ui/editor/EditorScreen.kt:319-335 | Reset on a selection appends one BODY-style span over exactly the selection, records one undo step and recomputes the styles; Undo removes the span |
| EditorScreen.Editor.constructor | app/src/main/java/com/example/richtexteditor/ui/editor/EditorScreen.kt:66-71 | the remembered state starts as the initial state |
| EditorScreen.Editor.UpdateText | app/src/main/java/com/example/richtexteditor/ui/editor/EditorScreen.kt:73-79 | the fields move exactly as `Commit` says |
| EditorScreen.Editor.UpdateActiveStyles | app/src/main/java/com/example/richtexteditor/ui/editor/EditorScreen.kt:81-106 | only the active styles change, to `LookBehind` of the value |
| EditorScreen.Editor.OnValueChange | app/src/main/java/com/example/richtexteditor/ui/editor/EditorScreen.kt:108-236 | the fields move exactly as `ApplyChange` says, and stay valid |
| EditorScreen.Editor.ToggleStyle | app/src/main/java/com/example/richtexteditor/ui/editor/EditorScreen.kt:238-261 | the fields move exactly as `ApplyToggle` says, and stay valid |
| EditorScreen.Editor.Undo | app/src/main/java/com/example/richtexteditor/ui/editor/EditorScreen.kt:304-309 | the fields move exactly as `EditorModel.Undo` says, and stay valid |
| EditorScreen.Editor.Redo | app/src/main/java/com/example/richtexteditor/ui/editor/EditorScreen.kt:310-315 | the fields move exactly as `EditorModel.Redo` says, and stay valid |
| EditorScreen.Editor.Reset | app/src/main/java/com/example/richtexteditor/ui/editor/EditorScreen.kt:316-336 | the fields move exactly as `ApplyReset` says, and stay valid |
| EditorScreen.Editor.ToggleBullet | app/src/main/java/com/example/richtexteditor/ui/editor/EditorScreen.kt:442-469 | the fields move exactly as `ApplyBullet` says, and stay valid |
| EditorScreen.Editor.ToggleNumber | app/src/main/java/com/example/richtexteditor/ui/editor/EditorScreen.kt:470-497 | the fields move exactly as `ApplyNumber` says, and stay valid |

## Left out

- The composition range of `TextFieldValue` (IME state) is not modelled. The selection-only branch copies it from the new value; nothing else reads it.
- Reversed selections (`start > end`, which Compose allows) are not modelled. Every value has `start <= end`, and `collapsed`, `start` and `end` are read as for a normalised range.
- Zero-length spans are not modelled: every range in a well-formed string is non-empty, an assumption of this model. Compose's `subSequence` also keeps a range that contains an empty window, as a zero-length range. So where the source slices an empty window (backspace to index 0 at lines 213-215, typing at index 0 at lines 201-203), the source's string can carry extra zero-length ranges that `Annotated.Clip` drops. They style no character, but `extractSpans` saves them, so the saved note can hold extra zero-length `NoteSpan`s that the model's `Notes.ExtractSpans` does not produce. For example, `"ab"` bold over `[0, 2)` with a backspace at caret 1 saves `(0, 0, BOLD)` and `(0, 1, BOLD)` in the source, and only `(0, 1, BOLD)` in the model. `ClipWhole` shows the whole-range shortcut of `subSequence` to be the same string.
- Only the `SpanStyle` fields the screen sets or reads are modelled: `fontSize` (sp as an integer), `fontWeight`, `fontStyle` and `textDecoration`. Colours, shadows and the other fields, and paragraph styles and annotations, are never set by the screen and are left out.
- `AnnotatedString` equality in `updateText` compares text and span styles only, because the screen creates nothing else.
- `toInt` in the numbered-list branch (line 148) throws on a digit run beyond 32 bits, and `number + 1` (line 154) wraps around at `Int.MAX_VALUE`: after Enter on `"2147483647. x"` the source writes `"-2147483648. "`, where the model writes `"2147483648. "`. The model reads and increments the number as an unbounded natural, so neither the throw nor the wrap-around is modelled.
- Dafny `char` is a Unicode scalar value, while Kotlin `String` lengths and `TextRange` offsets count UTF-16 code units, so a character outside the Basic Multilingual Plane counts twice in the source and once in the model. The model tests characters only against `'\n'`, `'•'`, digits and blanks, so each `char` can be read as one code unit without changing any branch.
- `isWhitespace` (used by `trim`) is modelled by a fixed set: the ASCII controls Java counts as blanks, plus the Unicode space, line and paragraph separators.
- `Toolbar.BulletProposalAsWritten` models the crash of `TextRange` on a negative selection as `None`. The rest of the model uses the corrected `Toolbar.BulletProposal` (see Findings).
- EditorModel.ApplyBullet, EditorScreen.Editor.ToggleBullet: these use the corrected `Toolbar.BulletProposal`, so where the source's Bullet button throws they carry on. The source's `TextRange` throws when the selection moves below 0 (`"1. a"` with the caret at 0). The corrected proposal keeps the caret at 0 and the text one shorter. `onValueChange` therefore takes its forward-delete branch (lines 216-221) and stores `". a"`, not `"• a"` (`ToolbarProps.BulletOnNumberedLineHead`). Where the as-written selection lands before the line start without going below 0 (`"x\n1. a"` with the caret at 2), the source moves the selection into the previous line and these members clamp it at the line start instead.
- The title field, the Done button (saving through `NoteRepository`, navigation), the scaffold and toolbar layout, the keyboard-visibility condition and the highlighted state of the style buttons are UI and I/O. They are not part of this model.
- `data/Note.kt` beyond `SpanType` and the fields of `NoteSpan` (the `Note` record and its persistence) is not part of this model.
- `EditorModel.Refresh` has no contract of its own. It is the state with `active` replaced by `Editing.LookBehind`, which carries the contract.
- The Number button pressed mid-line sends its proposal through the same classifier as the Bullet button. Only the Bullet case is stated as a lemma (`ToolbarProps.BulletMidLine`).

## Findings

| source | as written | input that shows it | evidently intended | confidence | as-written member | corrected member |
|---|---|---|---|---|---|---|
| app/src/main/java/com/example/richtexteditor/ui/editor/EditorScreen.kt:462-465 | adding a bullet moves both selection ends by `2 + (clean.length - line.length)` with no lower bound, unlike the removal branches, which stop at `lineStart` | the text `"1. a"` with the caret at 0: the offset is -1, so the selection becomes `TextRange(-1, -1)` and `TextRange` throws | the selection kept at or after `lineStart`, as in the removal branches | not executed | Toolbar.BulletOnNumberedLineAtStart | Toolbar.BulletSelection |
