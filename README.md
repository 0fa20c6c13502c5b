# Selector derivation of the HTML-to-CSS inline editor provider

Brackets offers inline editors: with the cursor on something in an HTML
document, a provider may open an embedded editor on the related CSS. The
provider `htmlToCSSProvider` first checks that it applies. The editor must be
in `htmlmixed` mode, the tokenizer state at the cursor must be in its `html`
sub-mode, and the selection must be an insertion point. It then derives the
CSS selector for the cursor's tag context:

- on a tag name, the tag name itself (a type selector, used verbatim);
- in a `class` value, `.` and the one space-delimited class name that
  contains the cursor, found with `lastIndexOf(" ")` / `indexOf(" ")`
  arithmetic rather than by splitting;
- in an `id` value, `#` and the whole value;
- anywhere else, the empty string.

An empty selector, including a class candidate that comes out as `.` alone,
makes the provider decline by returning `null`.

This project models those guards and that derivation as Dafny functions and
proves what they promise:

- `wrappers.dfy` (`Wrappers`): `Option`, whose `None` is the provider's `null`.
- `js_string.dfy` (`JsString`): the JavaScript string operations the
  provider uses (`substr`, `lastIndexOf`, `indexOf`, `substring`). Their
  clamping of out-of-range positions follows ECMA-262.
- `class_list.dfy` (`ClassList`): the reference reading of a `class` value
  as the list `value.split(" ")`, with its round trip through `join(" ")`.
  It also holds the lemmas that tie space-delimited runs to the pieces of
  that list, in both directions.
- `inline_editor_providers.dfy` (`InlineEditorProviders`): the tag context
  the editor reports, the class-name bounds, `DeriveSelector` and `Provide`.
- `selector_properties.dfy` (`SelectorProperties`): the guard, tag-name,
  `id`, `class` and "other context" properties, and the worked examples.

What the editor and the tag inspector report is taken as input. That is the
editor mode, the inner mode, the two ends of the selection and a `TagInfo`
record. `TagInfo` has the same fields as the result of
`CodeHintUtils.getTagInfo`: the tag name, the attribute name and value, the
token type and the offset.

Two consequences of following the code:

- A tag name is used verbatim, so a tag name `.` is offered as the selector
  `.`. In `class` and `id` values an offered selector is never `.`.
- Whatever the offset, the two bounds computed for a class name are in
  order. So `substring` never swaps them, and an offset before or past the
  value picks the first or the last class name.

## Model

| member | source | states |
|---|---|---|
| `JsString.LastIndexOf` | src/InlineEditorProviders.js:65 | the result is -1 exactly when the character does not occur; otherwise it is an occurrence with none after it |
| `JsString.IndexOf` | src/InlineEditorProviders.js:66 | after clamping the start into range, the result is -1 exactly when the character does not occur from there on; otherwise it is the first occurrence at or after the start |
| `JsString.SubstrFromZero` | src/InlineEditorProviders.js:65 | `substr(0, length)` gives the prefix of `s` whose length is `length` clamped into [0, \|s\|] |
| `JsString.Substring` | src/InlineEditorProviders.js:68-71 | `substring` gives the slice between its bounds in either order, a bound below 0 counting as 0 and one past the end as the length, and never more than `s` |
| `ClassList.SplitOnSpace` | src/InlineEditorProviders.js:59-63 | the class value read as a list of names: at least one piece, and no piece holds a space |
| `ClassList.JoinSplit` | src/InlineEditorProviders.js:59-63 | joining the pieces with single spaces gives back the attribute value exactly |
| `ClassList.SpaceDelimitedIsPiece` | src/InlineEditorProviders.js:64-71 | every space-free run that starts at the beginning or after a space and ends at the end or on a space is a piece of the list: the first piece if it starts at 0, a later one otherwise |
| `ClassList.PieceIsSpaceDelimited` | src/InlineEditorProviders.js:64-71 | every piece of the list is such a run, and only the first piece starts at 0 |
| `InlineEditorProviders.ClassNameBounds` | src/InlineEditorProviders.js:64-71 | for every offset the bounds are in order and delimit a space-free run between spaces or the ends; for an offset inside the value the run contains the offset; an offset before the value gives the first name, one past it the last |
| `InlineEditorProviders.ClassNameAt` | src/InlineEditorProviders.js:64-71 | the extracted class name holds no space and, for an offset inside the value, is the run around the cursor |
| `InlineEditorProviders.DeriveSelector` | src/InlineEditorProviders.js:51-82 | a tag name gives the tag name verbatim; an `id` value gives `#` and the whole value; a `class` value gives "" or `.` and a space-free name; a value of any other attribute, and every token that is neither a tag name nor an attribute value, gives ""; the selector is `.` only for a tag name that is `.` |
| `InlineEditorProviders.Provide` | src/InlineEditorProviders.js:33-86 | an offered selector comes with mode `htmlmixed`, inner mode `html` and an insertion point; it is non-empty and is `.` only in a tag-name context |
| `SelectorProperties.ProvideNeedsInsertionPoint` | src/InlineEditorProviders.js:43-49 | start and end of the selection differing in line or in column gives `null`, whatever the context |
| `SelectorProperties.ProvideNeedsHtmlMarkup` | src/InlineEditorProviders.js:34-41 | a mode other than `htmlmixed` or an inner mode other than `html` gives `null` |
| `SelectorProperties.ProvideAcceptsExactlyDerivedSelectors` | src/InlineEditorProviders.js:84-86 | past the guards, `null` exactly when the derived selector is empty, otherwise that selector |
| `SelectorProperties.IdSelectorIgnoresOffset` | src/InlineEditorProviders.js:78-80 | in an `id` value the selector is the same for every offset |
| `SelectorProperties.EmptyIdIsNotDeclined` | src/InlineEditorProviders.js:78-86 | an empty `id` value is still offered, as `#` |
| `SelectorProperties.OtherContextsDecline` | src/InlineEditorProviders.js:51-86 | attribute names, other tokens and values of attributes other than `class` and `id` make the provider return `null` |
| `SelectorProperties.ClassNameIsUnique` | src/InlineEditorProviders.js:64-71 | around an offset there is only one space-delimited run, so the extracted name is determined by the nearest spaces alone |
| `SelectorProperties.ClassSelectorIsNameAtCursor` | src/InlineEditorProviders.js:58-77 | for an offset inside a `class` value, the selector is `.` and the run around the cursor, or "" when that run is empty |
| `SelectorProperties.ClassSelectorEmptyIffCursorBetweenSpaces` | src/InlineEditorProviders.js:73-77 | for an offset inside a `class` value, no selector exactly when the cursor has a space or an end of the value on both sides |
| `SelectorProperties.ClassSelectorIsListedName` | src/InlineEditorProviders.js:58-77 | for any offset, an offered class selector is `.` and a non-empty name from `value.split(" ")` |
| `SelectorProperties.EveryListedNameIsOffered` | src/InlineEditorProviders.js:58-77 | every non-empty name of `value.split(" ")` is offered as `.` and that name from some offset inside the value |
| `SelectorProperties.ModalExample` | src/InlineEditorProviders.js:59-63 | `class="error-dialog modal hide"` with the cursor anywhere from just before to just after `modal` gives `.modal` |
| `SelectorProperties.EmptyClassNameExamples` | src/InlineEditorProviders.js:73-86 | a lone space at offset 0, an empty value, and a cursor between two adjacent spaces are all declined |
| `SelectorProperties.ProvidedSelectorKinds` | src/InlineEditorProviders.js:51-86 | an offered selector is the non-empty tag name, `.` and a listed class name, or `#` and the `id` value |

## Left out

- The fetch after a selector is accepted is not modelled. It builds the `$.Deferred` result, reads the fixed file `todos.css` under the project root, and opens a read-only inline editor on the fixed lines 218-255. On a failed read it only writes a log line. All of it is I/O, host UI calls and asynchronous plumbing. `Provide` stops where the source commits, and returns the selector it would serve instead of a promise.
- Because there are no promises in the model, nothing is said about two requests with the same inputs giving independent results.
- `init`, which registers the provider in the editor manager's global list, is left out. It is a side effect on the host.
- The CodeMirror calls (`getOption("mode")`, `getTokenAt(pos).state.mode`, `getCursor`) and `CodeHintUtils.getTagInfo` are not part of this model. Their results are the inputs of `Provide`.
- Strings are sequences of `char`, not of UTF-16 code units.
- The offset is an `int`. A JavaScript number that is not an integer is not considered.
- The JavaScript string operations are modelled only for a one-character search string, the only kind the provider uses.
- `substr` is modelled only with start 0 (`JsString.SubstrFromZero`), the only start the provider passes.
