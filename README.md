# cv-builder preview and section registry in Dafny

This project models the browser-side logic of the cv-builder page (`script.js`):

- **Text helpers.** These are `escapeHtml`, `trim` and the comma-separated list parse used for the skills and hobbies fields.
- **Section registry.** There are four repeatable sections: work experience, higher education, references and languages. Each has a counter that only grows and a container of blocks. "Add" bumps the counter and appends a block whose input ids end in the new number. "Remove" detaches that one block.
- **Preview renderer `buildPreviewHtml`.** It turns the scalar form fields and the live blocks into one document. Every value except the picture's source is trimmed and escaped; the source is passed through as given. Empty optional parts are left out. The ten parts of the page come in a fixed order.

Modules, in dependency order:

| module | file | what it holds |
|---|---|---|
| `Wrappers` | wrappers.dfy | `Option` and `Present`, which keeps the filled entries of a run of optional slots |
| `Digits` | digits.dfy | decimal numerals and element ids such as `jobTitle3`; the id determines both the field name and the number |
| `Escape` | escape.dfy | `EscapeHtml` as the five chained global replacements, plus a per-character reference definition and a decoder |
| `Text` | text.dfy | ECMAScript `trim`, `split(',')` and the list parse `split → trim → filter` |
| `Registry` | registry.dfy | blocks, the `SectionRegistry` class with its counters and containers, and the `Add`, `Remove` and `Edit` methods |
| `Listing` | listing.dfy | the enumeration of a container; each block is read at a number, either its 1-based position or its own number |
| `FieldReader` | fieldreader.dfy | the block-scoped lookup `#<field><position>` |
| `Sections` | sections.dfy | the card templates, their significance gates, the cards of a container, and what a removal does to them |
| `Preview` | preview.dfy | the page as a run of fragments: its template order, its gates, its escaping, and the render loop |

How the code reads a block's field is central to the model. The block-scoped `querySelector('#jobTitle' + i)` uses `i = idx + 1`, the block's position among the *live* blocks. The number in the block's ids is its *creation* number. The model stores each input under its real element id, and the renderer looks up the id built from the position. `FieldReader.QueryByPosition` proves that this finds the value exactly when position and creation number agree. That needs two facts: decimal numerals are injective, and every field name ends in a letter.

As a result, once a block other than the last has been removed, every block after it reads as empty and shows no card (`Sections.RemovalHidesFollowers`, `Sections.RemovalLosesCards`). Removing the last block and then adding one hides the new block in the same way. With blocks 1 and 2, removing 2 and adding gives blocks 1 and 3, and block 3 sits at position 2 (`Sections.RemoveLastThenAdd`). In general, from the first block whose number differs from its position onward, no block shows (`Sections.RemovalHidesLaterBlocks`). A lookup by creation number, as the numbered element ids suggest, would show all these blocks. The model states that reading as `Sections.CardsByIdentity`, for comparison only.

The "References" heading is emitted whenever the reference container holds a block (script.js:252-253), even when no card passes its gate (`Preview.RenderReferencesWithoutCards`). A heading tied to an emitted card would be left out in that case. The model follows the code.

## Model

| member | source | states |
|---|---|---|
| Escape.EscapeHtml | script.js:4-12 | definition, no contract of its own: `''` for the empty input, otherwise the five chained global replacements; its behaviour is stated by `EscapeHtmlIsPerCharacter`, `EscapeHtmlEmpty`, `EscapeHtmlSafe` and `EscapeRoundTrip` |
| Escape.EscapeHtmlIsPerCharacter | script.js:4-12 | the five chained replacements, ampersand first, equal escaping each character on its own: `&`, `<`, `>`, `"`, `'` become their entities and every other character stays as it is |
| Escape.ApplyIsPerCharacter | script.js:6-11 | the replacement chain on a non-empty string equals the per-character escape |
| Escape.StagesNoRescan | script.js:7-11 | no replacement text holds a character that a later stage replaces, so no entity is rewritten |
| Escape.LookupIsEntity | script.js:7-11 | the first stage that matches a character gives that character's entity |
| Escape.ApplyOnChar | script.js:6-11 | on one character, stages that never rescan act as a lookup of the first matching stage |
| Escape.ReplaceAllAppend | script.js:7 | a global replacement distributes over concatenation |
| Escape.ReplaceAbsent | script.js:7 | replacing a character that does not occur changes nothing |
| Escape.EscapeHtmlEmpty | script.js:5 | escaping gives the empty string exactly for the empty input |
| Escape.EscapeHtmlSafe | script.js:7-11 | escaped text holds no raw `<`, `>`, `"` or `'`, and is never shorter than the input |
| Escape.EscapeEachSafe | script.js:7-11 | the per-character escape is safe and never shorter than its input |
| Escape.EscapeNotIdempotent | script.js:7 | escaping is not idempotent: `"&"` gives `"&amp;"` and escaping that again gives `"&amp;amp;"` |
| Escape.EscapeRoundTrip | script.js:4-12 | decoding the five entities of an escaped text gives the input back |
| Escape.EscapeInjective | script.js:4-12 | two different texts never escape to the same markup |
| Escape.EscapeHtmlAppend | script.js:4-12 | escaping distributes over concatenation |
| Escape.EscapeEachPlain | script.js:6-11 | text without any of the five characters is left unchanged |
| Digits.NatToString | script.js:79-85 | the interpolated counter is a non-empty run of decimal digits |
| Digits.ParseNatToString | script.js:85 | reading back the numeral of a number gives that number |
| Digits.NatToStringInjective | script.js:85 | different numbers have different numerals |
| Digits.ElementId | script.js:85 | an element id starts with its field name and is longer than it |
| Digits.ElementIdInjective | script.js:85-95 | for names that end in a non-digit, an element id determines both the field name and the block number |
| Text.Trim | script.js:13 | trimming never lengthens a text; what it keeps and drops is stated by `TrimSlice`, `TrimEnds`, `TrimIdempotent` and `TrimEmpty` |
| Text.TrimValue | script.js:13 | definition, no contract of its own: a missing value reads as `''` and is then trimmed, so `Trim`'s lemmas apply |
| Text.TrimStartSpaces | script.js:13 | the part `trim` drops at the front is whitespace, and the rest does not start with whitespace |
| Text.TrimEndSpaces | script.js:13 | the part `trim` drops at the back is whitespace, and the rest does not end with whitespace |
| Text.TrimEnds | script.js:13 | a trimmed text is empty or starts and ends with a non-whitespace character |
| Text.TrimSlice | script.js:13 | `trim` keeps one contiguous slice of its input, and everything before and after that slice is whitespace |
| Text.TrimIdempotent | script.js:13 | trimming twice is trimming once |
| Text.TrimEmpty | script.js:13 | trimming leaves nothing exactly when the text is all whitespace |
| Text.Split | script.js:180 | `split(',')` gives at least one piece, and no piece holds a comma |
| Text.JoinSplit | script.js:180 | joining the pieces with commas gives the text back |
| Text.SplitAtComma | script.js:180 | a comma splits the text into the pieces before it followed by the pieces after it |
| Text.ParseList | script.js:180 | an empty raw field gives the empty list |
| Text.ParseListItems | script.js:180-182 | every item is non-empty, comma-free and trimmed, and there are no more items than pieces |
| Text.ParseListAtComma | script.js:180-182 | the items of `a,b` are the items of `a` followed by those of `b`, so order and duplicates are kept |
| Text.ParseListSingle | script.js:180-182 | a field without a comma gives its trimmed text as the only item, or nothing when it is blank |
| Text.ParseListChars | script.js:180-182 | every character of an item occurs in the raw field |
| Text.ParseListExample | script.js:180 | `"Python, , Go,Go"` parses to `["Python", "Go", "Go"]` |
| Text.TrimNonEmpty | script.js:180-182 | definition, no contract of its own: `map(trim).filter(Boolean)` over the pieces; stated by `ParseListItems` and `TrimNonEmptyAppend` |
| Text.TrimNonEmptyAppend | script.js:180 | `map(trim).filter(Boolean)` distributes over concatenation of piece lists |
| Registry.FieldNames | script.js:85-155 | definition, no contract of its own: each kind's field names, in the order of the add handlers' inputs; `FieldNamesArePrefixes` states that each ends in a letter |
| Registry.InitialValue | script.js:152-159 | a new input is empty, except the fluency select, which shows its first option "Fluent"; definition, no contract of its own; `InitialInputsValues` and `NewBlockValues` state that every input of a new block starts with it |
| Registry.FieldNamesArePrefixes | script.js:85-95 | every field name of every kind can prefix a numeral without ambiguity |
| Registry.Heading | script.js:83-159 | experience, education and reference blocks are headed "Work Experience n", "Higher Education n" and "Reference n" (lines 83, 111, 132); exactly the language blocks, laid out at lines 152-159, have no heading |
| Registry.HeadingInjective | script.js:83-132 | a block's form heading determines its number |
| Registry.InitialInputs | script.js:82-159 | a new block has one input per field, each under its field name followed by the block number |
| Registry.InitialInputsValues | script.js:82-159 | each of those inputs holds its field's initial value: empty, or "Fluent" for the fluency select |
| Registry.NewBlock | script.js:80-159 | the block created as number `n` carries `n`, the heading of `n` and exactly the inputs of its kind |
| Registry.NewBlockValues | script.js:80-159 | each input of the block created as number `n` holds its field's initial value: empty, or "Fluent" for the fluency select |
| Registry.Detach | script.js:100 | detaching never lengthens a container |
| Registry.DetachMembers | script.js:100 | detaching keeps exactly the blocks with other numbers and adds none |
| Registry.DetachSplice | script.js:99-100 | in a container with increasing numbers, removing block `i` gives the blocks before it followed by the blocks after it, unchanged and in order |
| Registry.DetachAbsent | script.js:100 | removing a number that no block carries leaves the container as it is |
| Registry.DetachIdempotent | script.js:100 | removing twice is removing once |
| Registry.DetachKeepsIncreasing | script.js:100 | removal keeps block numbers strictly increasing along the container |
| Registry.DetachKeepsValid | script.js:100 | removal keeps a kind valid under the same counter |
| Registry.AppendKeepsValid | script.js:79-99 | appending block `count + 1` keeps a kind valid under the bumped counter |
| Registry.EditBlock | script.js:85-95 | typing into an input of block `id` changes that input only; numbers, headings and the set of inputs stay |
| Registry.EditInput | script.js:85-95 | typing changes exactly one input of the chosen block and nothing else in the container |
| Registry.EditKeepsValid | script.js:85-95 | typing keeps a kind valid |
| Registry.SectionRegistry.constructor | script.js:42-45 | all four counters start at zero and all four containers are empty |
| Registry.SectionRegistry.Add | script.js:76-166 | an add increments only its own kind's counter, by exactly 1, returns the new number, and appends the block created with that number; the other kinds are untouched |
| Registry.SectionRegistry.Remove | script.js:100 | a remove detaches the chosen block, changes no counter, and leaves the other kinds untouched |
| Registry.SectionRegistry.Edit | script.js:85-95 | typing into a block's input changes that kind's container as `EditInput` says, and nothing else |
| Listing.EntriesStep | script.js:206-225 | the enumeration of the first `i + 1` blocks yields what the first `i` yield, then whatever block `i` yields at position `i + 1` |
| Listing.SilentSuffix | script.js:206-225 | blocks that yield nothing at their positions add nothing to the enumeration |
| Listing.EntriesNonEmpty | script.js:206-225 | the enumeration yields something exactly when some block yields something at its position |
| FieldReader.Query | script.js:208 | definition, no contract of its own: the block-scoped `querySelector('#' + id)?.value`, missing when the block has no element with that id; what a lookup at a position finds is stated by `QueryByPosition` |
| FieldReader.ReadField | script.js:207-213 | definition, no contract of its own: the escaped, trimmed value of a field looked up at a position, `''` when the lookup finds nothing; stated by `ReadFieldByPosition`, `ReadFieldNonEmpty` and `ReadFieldSafe` |
| FieldReader.QueryByPosition | script.js:207-208 | looked up at a position, a well-formed block's input is found exactly when the position equals the block's number |
| FieldReader.ReadFieldByPosition | script.js:207-213 | a field reads as the escaped, trimmed stored value when position and number agree, and as `''` otherwise |
| FieldReader.ReadFieldNonEmpty | script.js:207-213 | a field reads as non-empty exactly when it sits at its own number and its stored value is not blank |
| FieldReader.ReadFieldSafe | script.js:208-213 | every value read from a block is escaped |
| Sections.ExperienceTemplate | script.js:214-223 | definition, no contract of its own: a card when job title, company or responsibilities is non-empty, titled "Job Title" when the job title is empty; stated by `ExperienceGate`, `CardDefaults` and `ExperienceFieldsSafe` |
| Sections.EducationTemplate | script.js:237-245 | definition, no contract of its own: a card when institution or degree is non-empty, titled "Qualification" when the degree is empty; stated by `EducationGate`, `CardDefaults` and `EducationFieldsSafe` |
| Sections.ReferenceTemplate | script.js:261-268 | definition, no contract of its own: a card when the name is non-empty; stated by `CardGate` and `ReferenceFieldsSafe` |
| Sections.LanguageTemplate | script.js:282-284 | definition, no contract of its own: a `name (level)` item when the name is non-empty; stated by `CardGate` and `LanguageFieldsSafe` |
| Sections.CardLines | script.js:215-283 | definition, no contract of its own: the text lines a card shows, such as ` at company`, `(location)` and `start - end`; stated by `CardLinesSafe` |
| Sections.CardOf | script.js:206-284 | definition, no contract of its own: a block's fields read at a position and fed to its kind's template; stated by `CardGate` and `CardOfSafe` |
| Sections.Cards | script.js:204-225 | definition, no contract of its own: the forEach over a container, block `idx` read at position `idx + 1` and present cards kept in order; stated by `CardsStep`, `CardsNonEmpty` and `RemovalHidesLaterBlocks`, and computed by `Preview.RenderCards` |
| Sections.CardsStep | script.js:206-225 | the forEach appends block `i`'s card, if any, after the cards of the blocks before it |
| Sections.ExperienceGate | script.js:214 | an experience card is emitted exactly when the block sits at its own number and job title, company or responsibilities is non-blank |
| Sections.EducationGate | script.js:237 | an education card is emitted exactly when the block sits at its own number and institution or degree is non-blank |
| Sections.NewBlockSilent | script.js:80-285 | a block just added, with every input at its initial value, passes no gate and yields no card or list item at any position; `StoredInitial` states that each of its inputs other than the fluency select reads back empty |
| Sections.CardGate | script.js:206-285 | for all four kinds, a card or list item is emitted exactly when the block sits at its own number and its kind's gate passes (name, for references and languages) |
| Sections.CardDefaults | script.js:218-241 | an emitted experience card's title falls back to "Job Title", an education card's to "Qualification" |
| Sections.CardsLength | script.js:206-225 | a container never yields more cards than it has blocks |
| Sections.CardsNonEmpty | script.js:206-225 | a container yields a card exactly when some block sits at its own number and passes its gate |
| Sections.NumberAtLeastPosition | script.js:79-100 | with increasing numbers from 1, a block's number is never below its position |
| Sections.DriftPersists | script.js:100 | once a block's number runs ahead of its position, every later block's number does too |
| Sections.RemovalHidesLaterBlocks | script.js:206-213 | from the first block whose number is not its position onward, no block yields a card |
| Sections.CardsWithoutRemoval | script.js:206-213 | while no block has been removed, reading by position and reading by number agree |
| Sections.CardsByIdentityAppend | script.js:206-213 | reading by number does not depend on where a block sits |
| Sections.RemovalHidesFollowers | script.js:204-225 | after block `i + 1` of `1..n` is removed, the cards are exactly those of the blocks before it; every block after it is hidden |
| Sections.RemoveLastThenAdd | script.js:76-225 | with blocks numbered 1 to n, removing the last leaves blocks 1 to n - 1; a block added afterwards carries a number above n at position n and never shows a card, whatever is typed into it |
| Sections.RemovalLosesCards | script.js:204-225 | when the last block passes its gate, removing an earlier block leaves fewer cards than reading by number would show |
| Sections.CardLinesSafe | script.js:215-283 | a card made of safe values has safe lines, because the fixed text of each template adds no markup-significant character (`ExpLinesSafe`, `EduLinesSafe`, `RefLinesSafe`, `LangLinesSafe`, over `PrefixedSafe`, `ParenthesizedSafe`, `SpanSafe` and `YearsSafe`) |
| Sections.ExperienceFieldsSafe | script.js:208-223 | an emitted experience card holds escaped values or its default title |
| Sections.EducationFieldsSafe | script.js:232-245 | an emitted education card holds escaped values or its default title |
| Sections.ReferenceFieldsSafe | script.js:256-268 | an emitted reference card holds escaped values only |
| Sections.LanguageFieldsSafe | script.js:280-284 | an emitted language item holds escaped values only |
| Sections.CardOfSafe | script.js:206-285 | every line of every emitted card is safe, since each template filled with safe values holds only safe values (`ExperienceTemplateSafe`, `EducationTemplateSafe`, `ReferenceTemplateSafe`, `LanguageTemplateSafe`, `OrSafe`) |
| Sections.CardsSafe | script.js:206-285 | every card of every container is safe |
| Preview.Scalar | script.js:170-180 | definition, no contract of its own: `escapeHtml(trim(el?.value))` of one form field; stated by `ShownOfSafe` and `RenderSummary` |
| Preview.ContactLines | script.js:184-191 | definition, no contract of its own: the contact block of a form; stated by `ContactBlockShape` and `ContactLinesSafe` |
| Preview.ShownOf | script.js:170-182 | definition, no contract of its own: the scalars the page shows, with the picture's source left raw; stated by `ShownOfSafe`, `RenderPicture`, `RenderSummary` and `RenderLists` |
| Preview.Slots | script.js:289-306 | definition, no contract of its own: the ten places of the page template in order, each filled or empty; stated by `LayoutShape` |
| Preview.Layout | script.js:292-309 | definition, no contract of its own: the filled places in template order; stated by `LayoutShape`, `LayoutShows` and `LayoutFixedParts` |
| Preview.Listed | script.js:250-287 | definition, no contract of its own: the references or languages part, present exactly when its container holds a block; stated by `RenderOptionalSections` |
| Preview.Render | script.js:169-310 | definition, no contract of its own: the page of a form and its four containers; stated by the `Render…` lemmas and `RenderSafe`, and computed by `BuildPreviewHtml` |
| Preview.ContactBlockShape | script.js:184-191 | contact lines come in the order date of birth, address, phone, email; each carries its own field's shown text, which is non-empty; every field with non-empty text has its line |
| Preview.ContactLinesSafe | script.js:184-191 | every contact line is escaped |
| Preview.LayoutShape | script.js:292-309 | each place holds only a fragment of its own rank (`SlotsRanked`), so the page lists its filled places in template order, each fragment is exactly what its place holds, and every filled place is on the page |
| Preview.LayoutShows | script.js:289-309 | a place of the template shows on the page exactly when it is filled |
| Preview.LayoutFixedParts | script.js:290-305 | the name line and contact block are always on the page, and so are the two section headings, each holding exactly the cards it was given |
| Preview.RenderPicture | script.js:289 | the picture shows exactly when its source is non-empty, and the source is passed on unchanged, without escaping |
| Preview.RenderFixedParts | script.js:290-305 | the name line, the contact block, and the experience and education sections always show, each section with the cards of its own container |
| Preview.RenderSummary | script.js:193 | the profile shows exactly when the trimmed summary is non-empty |
| Preview.RenderLists | script.js:195-201 | the skills and hobbies blocks show exactly when their parsed lists have an item |
| Preview.RenderOptionalSections | script.js:252-287 | the Languages wrapper and the References heading show exactly when their container holds a block, whether or not any card passes |
| Preview.RenderOrdered | script.js:292-309 | fragments appear in the order picture, name, contact, summary, skills, hobbies, languages, experience, education, references |
| Preview.RenderExperiencePlaceholder | script.js:303 | "No work experience added." shows exactly when no experience block sits at its own number with a significant field |
| Preview.RenderEducationPlaceholder | script.js:305 | "No higher education added." shows exactly when no education block sits at its own number with a significant field |
| Preview.RenderReferencesWithoutCards | script.js:252-271 | reference blocks whose cards are all hidden still bring the References heading, over an empty section |
| Preview.ListSafe | script.js:179-182 | every skills or hobbies item is safe |
| Preview.NameLineSafe | script.js:290 | the name line is safe |
| Preview.ShownOfSafe | script.js:170-182 | every scalar the page shows, except the picture's source, is safe |
| Preview.RenderSafe | script.js:169-310 | everything the preview shows, except the picture's source, is free of `<`, `>`, `"` and `'`; over safe scalars and safe cards every place of the template is safe (`SlotsSafe`) |
| Preview.RenderCards | script.js:206-225 | the forEach loop over a container accumulates exactly `Cards(k, blocks)` |
| Preview.BuildPreviewHtml | script.js:169-310 | the render yields `Render` of the form and the registry's four containers; it has no `modifies` clause, so it changes no registry state |

## Left out

- Theme switching (script.js:50-56): it only toggles CSS classes on the page body.
- Profile-picture ingestion with `FileReader` (script.js:46, 59-74): this is asynchronous file I/O. The picture's source is an input string (`FormState.imgSrc`), and the model records that it reaches the page unescaped.
- PDF export (script.js:350-382): it calls `html2canvas` and `jsPDF`, computes floating-point page geometry and raises `alert`.
- The "Apply" button's `window.open` (script.js:385-389), the DOM lookups, the early bail-out (script.js:3, 16-39) and the download button's disabled flag (script.js:47).
- Event wiring (script.js:313-347): the render is a method that may be called after any mutation.
- Markup and whitespace: fragments and card lines keep only the text the page shows. HTML tags, class names, icon entities and indentation are not kept. The placeholder lines are stated as the empty experience and education sections.
- Preview.BuildPreviewHtml: returns the document as a sequence of fragments rather than one HTML string. The concatenation into a string is not modelled.
- Registry.SectionRegistry.Edit: typing is not an operation of the script itself. It stands for the user changing an input's value between renders, so that the render lemmas range over any stored values.
- Text.IsSpace: the whitespace set is written out from ECMAScript's WhiteSpace and LineTerminator productions. Strings are sequences of Unicode scalar values, not UTF-16 code units.
- `(v || '').toString()` in `trim` (script.js:13): only strings and missing values (`None`) are modelled. Other JavaScript values and their `toString` are not.
