# Note extraction of obsidian-to-anki, in Dafny

This project models the parser of the obsidian-to-anki plugin. The parser turns the text of a note file into flashcard notes and diagnostics.

- `extractNotes` splits the text on line feeds and cuts it into chunks. A chunk runs from a begin-marker line to an end-marker line.
- `parseChunk` reads each chunk's card type and deck. It then hands the chunk to the Basic or the Cloze parser.
- `extractNotes` keeps the notes of the chunks without a fatal diagnostic. It reports every diagnostic of every chunk.
- Both note parsers share one front/back field state machine. The Cloze parser also rewrites every `{{…}}` deletion on the front into Anki's `{{cN::…}}` form.

Modules, one per part of the program:

| module | file | models |
|---|---|---|
| `Strings` | strings.dfy | the JavaScript string operations the parser uses: `startsWith`, `substring`, `trim`, `split`, `indexOf`, `replace` with a string pattern (including `$` patterns), number formatting |
| `Settings` | settings.dfy | the parsing settings and their defaults |
| `Notes` | notes.dfy | `Note`, `ParserError` and the diagnostic messages |
| `Chunks` | chunks.dfy | the first loop of `extractNotes`, the chunk scan |
| `TypeAndDeck` | prescan.dfy | the first pass of `parseChunk` over type and deck lines |
| `Fields` | fields.dfy | the front/back state machine of both note parsers |
| `BasicParser` | basic.dfy | `parseBasicChunk` |
| `ClozeMatch` | cloze_match.dfy | `text.match(/{{(.*?)}}/g)` |
| `ClozeRewrite` | cloze_rewrite.dfy | the rewrite of the deletions: as written (`Rewrite`) and as evidently intended (`InPlace`) |
| `ClozeParser` | cloze.dfy | `parseClozeChunk` |
| `Parser` | parser.dfy | `parseChunk` and `extractNotes` |
| `ClozeDiscrepancies` | cloze_discrepancies.dfy | the two inputs on which the written rewrite and the intended one differ |
| `Samples` | samples.dfy | the Basic and card-type test documents of the repository, under the default settings |
| `ClozeSamples` | cloze_samples.dfy | the Cloze test documents whose deletions name their cloze number |

Three behaviours of the code are easy to misread. The model follows the code in each:

- A stray end-marker line, outside any open chunk, pushes an empty chunk. Parsing it raises two fatal errors: the front is missing and the back is missing. So a document without begin markers has no notes. It has diagnostics exactly when it holds an end-marker line (`Parser.NoBeginMarker`).
- The number of a deletion without an id is its position among all matches, plus one. Deletions with an id take up a number too.
- Each deletion is replaced at the first place its text occurs in the partly rewritten front. That is not always the place where it was found (see Findings).

The Cloze parser in this model, `ClozeParser.ParseClozeChunk`, uses the code's rewrite, `ClozeRewrite.Rewrite`. `ClozeParser.ParseClozeChunkInPlace` is the same parser with the intended rewrite, `ClozeRewrite.InPlace`. `ClozeRewrite.RewriteInPlace` proves that the two rewrites give the same front whenever no deletion's inner text holds `{`, `:` or `$`. That covers every deletion in the repository's test documents.

## Model

| member | source | states |
|---|---|---|
| Strings.Substring | src/parser/index.ts:151-153 | `substring(n)` is what follows the first `n` characters; it is empty when `n` is past the end |
| Strings.Trim | src/parser/notetypes/basic.ts:88-89 | the result has no leading or trailing ECMAScript white space or line terminator; it is empty exactly when the input is all white space; it is the input with a run of trimmable characters removed at each end |
| Strings.TrimUnique | src/parser/notetypes/basic.ts:88-89 | a string obtained by removing trimmable runs at both ends, starting and ending with a non-trimmable character, is the trim |
| Strings.TrimIdempotent | src/parser/notetypes/basic.ts:88-89 | trimming twice is trimming once |
| Strings.Split | src/parser/index.ts:59 | `split('\n')` yields at least one part; no part holds the separator; joining the parts with it gives the input back |
| Strings.SplitJoin | src/parser/index.ts:123 | splitting the join of separator-free parts gives those parts back |
| Strings.SplitFirstParts | src/parser/notetypes/cloze.ts:100 | the first two parts of a split are the text before the first separator and the text between the first and second one |
| Strings.SplitTerminated | src/parser/index.ts:123-127 | lines each followed by a line feed split back into the lines plus one trailing empty part |
| Strings.IndexOf | src/parser/notetypes/cloze.ts:104-107 | the result is the leftmost occurrence at or after the start; none means no occurrence there |
| Strings.Substitute | src/parser/notetypes/cloze.ts:112-115 | a replacement string without `$` is inserted unchanged |
| Strings.ReplaceFirst | src/parser/notetypes/cloze.ts:112-115 | `replace` leaves a text without the pattern unchanged, and otherwise substitutes at the leftmost occurrence only, keeping the text around it |
| Strings.NatToString | src/parser/notetypes/cloze.ts:114 | `${index + 1}` is a non-empty string of decimal digits, without a leading zero, whose value is the number |
| Notes.AnyFatalAppend | src/parser/index.ts:98 | a concatenation of diagnostics holds a fatal one exactly when one of its parts does |
| Chunks.ChunksAreSegments | src/parser/index.ts:64-91 | the scan yields one chunk per end-marker line; each is made of the lines since the previous end marker, from the last begin marker among them on, each followed by a line feed, or is empty when they hold no begin marker |
| Chunks.ScanSegment | src/parser/index.ts:66-91 | over lines without an end marker, the scan pushes nothing; the open chunk is replaced from the last begin marker on, or grows by every line while a chunk is open, or stays empty |
| Chunks.CloseFirst | src/parser/index.ts:81-85 | the next end marker pushes the chunk open at that point, whether or not it is empty, and the scan continues with no chunk open |
| Chunks.NextEndIsFirst | src/parser/index.ts:81-85 | the next end line found from a position is an end marker line, and no end marker lies between that position and it |
| Chunks.LastBeginIsLast | src/parser/index.ts:69-78 | the last begin line found in a segment is a begin marker, and none follows it |
| Chunks.OneChunkPerEnd | src/parser/index.ts:81-85 | the number of chunks is the number of end-marker lines that are not begin markers; a chunk still open at the end is lost |
| Chunks.ChunkShape | src/parser/index.ts:66-91 | every chunk is empty, or is lines `a..b` of the document each followed by a line feed, where line `a` is a begin marker, line `b` is an end marker, and no line in between is a begin or end marker |
| Chunks.SegmentShape | src/parser/index.ts:66-91 | the same, for the chunks the scan pushes from any position |
| Chunks.NoBeginOnlyEmptyChunks | src/parser/index.ts:69-90 | a document without a begin marker yields only empty chunks |
| Chunks.ChunkRoundTrip | src/parser/index.ts:123-127 | a non-empty chunk starts with the begin marker and a line feed; split again it yields its lines plus a trailing empty part, so it never splits into nothing |
| Chunks.EndLinesAppend | src/parser/index.ts:81-85 | end markers are counted additively over a concatenation of lines |
| TypeAndDeck.ParseCardType | src/parser/index.ts:156-162 | a type string is valid exactly when it is the name of one of the four card types, and then it names that type |
| TypeAndDeck.CardTypeRoundTrip | src/parser/index.ts:156-162 | each card type is read back from its own name |
| TypeAndDeck.PrescanIsLastWins | src/parser/index.ts:131-180 | the first pass ends with the type of the last type line naming a valid type (Basic if none), the trimmed text of the last deck line (the default deck if none), and each type line's diagnostics in line order |
| TypeAndDeck.PrescanNeverFatal | src/parser/index.ts:143-169 | the first pass raises no fatal diagnostic |
| TypeAndDeck.LineErrorCounts | src/parser/index.ts:140-170 | a type line raises one overwrite warning exactly when the type resolved before it is not Basic, and one invalid-type error exactly when its text names no type |
| TypeAndDeck.PrescanCounts | src/parser/index.ts:136-180 | the first pass raises one invalid-type error per invalid type line and one overwrite warning per type line after a non-Basic type, and nothing else |
| TypeAndDeck.NoTypeLine | src/parser/index.ts:131-132 | a chunk without type lines is Basic and the first pass raises nothing |
| Fields.RunAppend | src/parser/notetypes/basic.ts:15-85 | running the field loop over two runs of lines is running it over the first, then the second |
| Fields.WithoutMeta | src/parser/notetypes/basic.ts:19-24 | the lines left after dropping type and deck lines are no more than before; none is a type or deck line; every other line of the input is among them and every line among them is from the input; a chunk without type or deck lines is left as it is |
| Fields.WithoutMetaAppend | src/parser/notetypes/basic.ts:19-24 | dropping type and deck lines works line by line: over a concatenation it is the concatenation of the two results |
| Fields.WithoutMetaSingle | src/parser/notetypes/basic.ts:19-24 | a single line is dropped exactly when it is a type or deck line, and kept as it is otherwise |
| Fields.MetaLinesIgnored | src/parser/notetypes/basic.ts:19-24 | type and deck lines never change a field, the state or the warnings: the loop gives the same result without them |
| Fields.ExtractionOnlyWarns | src/parser/notetypes/basic.ts:32-41 | the field loop raises only the front and back overwrite warnings, and nothing fatal |
| Fields.WarningsCarryNoOtherMessage | src/parser/notetypes/basic.ts:60-67 | no field-loop warning carries a missing-field message |
| Fields.InlineFrontLine | src/parser/notetypes/basic.ts:28-44 | an inline front line sets the front to the text after the marker; it warns exactly when the front was non-empty; the back and the state are unchanged |
| Fields.FrontOpenerLine | src/parser/notetypes/basic.ts:49-53 | a line equal to the front marker empties the front and switches to the front, without a warning |
| Fields.InlineBackLine | src/parser/notetypes/basic.ts:56-70 | the same rule as for the front, for the back, on lines that are not front lines |
| Fields.BackOpenerLine | src/parser/notetypes/basic.ts:73-77 | a line equal to the back marker empties the back and switches to the back, without a warning |
| Fields.ContentLines | src/parser/notetypes/basic.ts:79-84 | other lines are appended, each with a line feed, to the field being parsed, and dropped when none is |
| Fields.MultilineFront | src/parser/notetypes/basic.ts:46-53 | a bare front marker followed by content lines gives a front of exactly those lines, each followed by a line feed |
| Fields.MultilineBack | src/parser/notetypes/basic.ts:72-84 | the same for the back |
| Fields.FrontIndependentOfBack | src/parser/notetypes/basic.ts:15-85 | the final front and state depend only on the front and state the loop starts from, never on the back |
| Fields.BackIndependentOfFront | src/parser/notetypes/basic.ts:15-85 | the final back and state depend only on the back and state the loop starts from |
| Fields.FrontOpenerForgets | src/parser/notetypes/basic.ts:49-53 | nothing before a bare front marker affects the final front |
| Fields.BackOpenerForgets | src/parser/notetypes/basic.ts:73-77 | nothing before a bare back marker affects the final back |
| BasicParser.ParseBasicChunk | src/parser/notetypes/basic.ts:4-117 | the note holds the trimmed front and back, type Basic and the given deck; the field warnings come first; exactly one front-missing error when the front is empty and one back-missing error when the back is empty; nothing else follows the warnings, and everything that follows them is a fatal error; a fatal error exactly when either field is empty |
| BasicParser.AfterWarnings | src/parser/notetypes/basic.ts:91-107 | after overwrite warnings, the missing-field checks add one fatal error per empty field and nothing else |
| BasicParser.MissingErrors | src/parser/notetypes/basic.ts:91-107 | the two missing-field checks are independent: each adds its own error, and the pair is fatal when either fires |
| ClozeMatch.Close | src/parser/notetypes/cloze.ts:93 | the lazy `(.*?)}}` closes at the first `}}` that is reached without crossing a line terminator, and fails when there is none |
| ClozeMatch.MatchAtShortest | src/parser/notetypes/cloze.ts:93 | a match tried at a position is the shortest deletion starting there, and it fails exactly when no deletion starts there |
| ClozeMatch.ScanOrdered | src/parser/notetypes/cloze.ts:93 | the global match yields matches left to right, without overlap, each the shortest one at its start |
| ClozeMatch.ScanCovering | src/parser/notetypes/cloze.ts:93 | every position where a match could start lies inside one of the matches found |
| ClozeMatch.ScanUnique | src/parser/notetypes/cloze.ts:93 | any ordered sequence of matches that covers every possible match is exactly what the global match finds |
| ClozeMatch.DeletionText | src/parser/notetypes/cloze.ts:93 | each match is at least the four braces long and is the text between its bounds |
| ClozeMatch.NoDeletionsIff | src/parser/notetypes/cloze.ts:93-94 | there are no matches exactly when no `{{` is followed on the same line by a `}}` |
| ClozeMatch.DeletionShape | src/parser/notetypes/cloze.ts:93 | every match is `{{`, an inner text without line terminators and without `}}`, then `}}` |
| ClozeMatch.OccurrenceMatches | src/parser/notetypes/cloze.ts:93 | a match's text occurring anywhere in a string is a place where the expression matches |
| ClozeRewrite.Inner | src/parser/notetypes/cloze.ts:114 | `slice(2, -2)` of a deletion is the text between its two opening and two closing braces |
| ClozeRewrite.ReplacementParts | src/parser/notetypes/cloze.ts:99-115 | with a vertical bar in the inner text, the number is the text before the first bar and the content runs from there to the next bar or the end; otherwise the number is the match index plus one and the content is the whole inner text |
| ClozeRewrite.RewriteFrom | src/parser/notetypes/cloze.ts:96-116 | the sequential rewrite never empties a non-empty front |
| ClozeRewrite.InPlaceWithoutDeletions | src/parser/notetypes/cloze.ts:117-124 | without deletions the front is left unchanged |
| ClozeRewrite.InPlaceEmpty | src/parser/notetypes/cloze.ts:127-133 | the rewritten front is empty exactly when the trimmed front was |
| ClozeRewrite.AssemblePrefix | src/parser/notetypes/cloze.ts:96-116 | rewriting more deletions extends the rewritten prefix |
| ClozeRewrite.InPlaceLayout | src/parser/notetypes/cloze.ts:112-115 | in the rewritten front, each deletion's Anki form stands where the deletion stood, right after the unchanged text since the previous deletion |
| ClozeRewrite.RewriteInPlace | src/parser/notetypes/cloze.ts:96-116 | when no deletion's inner text holds `{`, `:` or `$`, the sequential first-occurrence rewrite equals the in-place rewrite |
| ClozeRewrite.ReplaceStep | src/parser/notetypes/cloze.ts:112-115 | one step of the loop replaces the deletion's first occurrence, which is where the scan found it, with its Anki form |
| ClozeRewrite.FirstOccurrence | src/parser/notetypes/cloze.ts:104-107 | after the earlier deletions are rewritten, a plain deletion's text first occurs where the scan found it |
| ClozeRewrite.FormsClean | src/parser/notetypes/cloze.ts:99-115 | plain deletions yield Anki forms without `{` or `$`, whose number holds no `}}` |
| ClozeParser.ParseClozeChunk | src/parser/notetypes/cloze.ts:4-143 | the note holds the trimmed front rewritten by the code's sequential first-occurrence `replace`, which is the in-place rewrite when the deletions are plain; the trimmed back, or no back when it is empty; type Cloze and the given deck; the field warnings come first; exactly one no-deletions error when the front has no deletion; one front-missing error when the front is empty; never a back-missing error; nothing else follows the warnings, and everything that follows them is a fatal error; fatal exactly when there is no deletion |
| ClozeParser.AfterWarnings | src/parser/notetypes/cloze.ts:117-133 | after overwrite warnings, the no-deletions and empty-front checks add one fatal error each when they fire and nothing else |
| ClozeParser.ParseClozeChunkInPlace | src/parser/notetypes/cloze.ts:96-116 | the corrected parser: the same diagnostics and note as the code's, except that each deletion is rewritten where it stands; it agrees with the code's parser whenever the deletions are plain |
| ClozeRewrite.RewriteEmpty | src/parser/notetypes/cloze.ts:96-133 | the code's rewrite yields an empty front exactly when the trimmed front was empty, so the front-missing check sees the same emptiness before and after |
| ClozeParser.MissingErrors | src/parser/notetypes/cloze.ts:117-133 | the no-deletions and empty-front checks each add their own fatal error |
| ClozeParser.ClozeAgreesWithBasic | src/parser/notetypes/cloze.ts:15-89 | the Cloze parser reads the same fields as the Basic parser: its back is the Basic back, absent when empty; its front is the Basic front when there is no deletion; the deck is the same |
| Parser.ParseChunk | src/parser/index.ts:119-195 | the first pass's diagnostics come first; the deck is the last deck line's text or the default; the note is a Cloze note exactly when the last valid type line names Cloze; the rest is the chosen parser's result; a fatal diagnostic exists exactly when the parser raised one |
| Parser.ParseAll | src/parser/index.ts:95-96 | one parse result per chunk, the parse of that chunk, in chunk order |
| Parser.CollectIsFilter | src/parser/index.ts:93-105 | the second loop appends, in chunk order, the notes of the chunks without a fatal diagnostic and the diagnostics of all chunks |
| Parser.ExtractNotesIsFilter | src/parser/index.ts:55-111 | `extractNotes` returns the notes of the kept chunks and every chunk's diagnostics, in chunk order |
| Parser.NotesPerKeptChunk | src/parser/index.ts:95-105 | one note per kept chunk, so never more notes than chunks |
| Parser.KeptNotesMembers | src/parser/index.ts:97-104 | a chunk's note is among the notes if the chunk has no fatal diagnostic, and every note is the note of such a chunk |
| Parser.NoErrorsIff | src/parser/index.ts:99-103 | the diagnostics are empty exactly when no chunk has one |
| Parser.EmptyChunkIsFatal | src/parser/notetypes/basic.ts:88-107 | the empty chunk a stray end marker pushes raises diagnostics, one of them fatal, so its note is dropped |
| Parser.OnlyDropped | src/parser/index.ts:98-101 | when every chunk has a fatal diagnostic, no note is kept |
| Parser.NoBeginMarker | src/parser/index.ts:66-105 | a document without a begin marker yields no notes, and no diagnostics exactly when it has no end-marker line |
| Chunks.OneChunk | src/parser/index.ts:64-91 | a document holding one begin..end run among lines with no marker yields exactly that run, each line followed by a line feed |
| Parser.OneChunkDocument | src/parser/index.ts:55-111 | such a document yields the chunk's note when the chunk has no fatal diagnostic, and the chunk's diagnostics either way |
| Parser.EmptyDocument | src/parser/index.ts:59-110 | the empty document yields no notes and no diagnostics, unless the empty line is itself an end marker |
| ClozeDiscrepancies.DollarPatternsExpand | src/parser/notetypes/cloze.ts:112-115 | as written, the front `{{$$x$$}}` becomes `{{c1::$x$}}` |
| ClozeDiscrepancies.DollarPatternsKept | src/parser/notetypes/cloze.ts:112-115 | the intended rewrite turns `{{$$x$$}}` into `{{c1::$$x$$}}` |
| ClozeDiscrepancies.WrongOccurrenceReplaced | src/parser/notetypes/cloze.ts:104-115 | as written, the front `{{x}} {{c1::x}}` becomes `{{c2::c1::x}} {{c1::x}}` |
| ClozeDiscrepancies.EachDeletionInPlace | src/parser/notetypes/cloze.ts:104-115 | the intended rewrite turns `{{x}} {{c1::x}}` into `{{c1::x}} {{c2::c1::x}}` |
| ClozeDiscrepancies.MixedScan | src/parser/notetypes/cloze.ts:93 | the global match finds `{{x}}` at 0 and `{{c1::x}}` at 6 in `{{x}} {{c1::x}}` |
| ClozeDiscrepancies.DisplayMathScan | src/parser/notetypes/cloze.ts:93 | the global match finds the whole of `{{$$x$$}}` as its one match |
| Samples.InlineBasicChunk | src/parser/index.ts:119-195 | a chunk with a type line, a deck line in either order, `Front: q` and `Back: a` gives the note `q`/`a` of type Basic in that deck, with only the type line's diagnostic when the type name is invalid |
| Samples.CapitalOfFrance | tests/parser/basic.test.ts:18-37 | the inline Basic test chunk gives the note "What is the capital of France?"/"Paris" in deck "Common Knowledge" and no diagnostics |
| Samples.CapitalOfFranceDocument | tests/parser/basic.test.ts:18-37 | the same chunk among lines with no marker: `extractNotes` returns that one note and no diagnostics |
| Samples.MisspeltType | tests/parser/cardtype.test.ts:58-79 | the type name "Basix" gives a Basic note with one invalid-type error |
| Samples.InvalidTypeKept | tests/parser/cardtype.test.ts:74-77 | the invalid-type diagnostic is an error, not fatal, so the note is kept |
| Samples.MisspeltTypeDocument | tests/parser/cardtype.test.ts:58-79 | as a document: one Basic note and the one invalid-type error |
| ClozeSamples.NumberedForm | src/parser/notetypes/cloze.ts:99-115 | a deletion `{{n\|c}}` becomes the Anki cloze numbered `n` hiding `c`, whatever its position |
| ClozeSamples.NumberedRewrite | src/parser/notetypes/cloze.ts:96-116 | the code's rewrite of a front with two plain numbered deletions puts each one's Anki cloze where it stood |
| ClozeSamples.InlineClozeChunk | src/parser/index.ts:119-195 | a Cloze chunk whose inline front has deletions gives the rewritten front, no back, the named deck and no diagnostics |
| ClozeSamples.MultilineClozeChunk | src/parser/notetypes/cloze.ts:46-53 | the same for a front written on two lines after `Front:`: the two lines joined by a line feed, rewritten |
| ClozeSamples.NumberedInlineChunk | src/parser/notetypes/cloze.ts:96-116 | an inline front with two numbered deletions becomes the text with each deletion's Anki cloze in its place |
| ClozeSamples.NumberedMultilineChunk | src/parser/notetypes/cloze.ts:96-116 | the same for two lines after `Front:`, one numbered deletion on each |
| ClozeSamples.IdsProvided | tests/parser/cloze.test.ts:137-158 | `{{1\|Paris}}` and `{{1\|Berlin}}` on the front line become `{{c1::Paris}}` and `{{c1::Berlin}}`, with no back and no diagnostics |
| ClozeSamples.IdsProvidedDocument | tests/parser/cloze.test.ts:137-158 | as a document: that one Cloze note and no diagnostics |
| ClozeSamples.IdsProvidedMultiline | tests/parser/cloze.test.ts:160-183 | `{{2\|Berlin}}` on each of two lines after `Front:` becomes `{{c2::Berlin}}` twice, the lines joined by a line feed |
| ClozeSamples.IdsProvidedMultilineDocument | tests/parser/cloze.test.ts:160-183 | as a document: that one Cloze note and no diagnostics |

## Left out

- `isParserError` (src/parser/index.ts:45-47) checks the shape of an untyped value at run time. Every value in the model is typed, so it has nothing to model.
- The empty-chunk exception in `parseChunk` is not modelled as an error path. `split` always yields at least one part (`Strings.Split`), so it can never be raised.
- The card types `Basic (and reversed card)` and `Basic (type in the answer)` are resolved by the first pass. The chunk then goes to the Basic parser, as in the code.
- `trim` and the regular expression's `.` are modelled over the fixed ECMAScript white-space and line-terminator characters, without Unicode normalisation.
- Strings are sequences of Unicode scalar values, where JavaScript strings are sequences of UTF-16 code units. A character outside the Basic Multilingual Plane is one character here and two code units in JavaScript, and a lone surrogate cannot occur here. So a string's length can differ from JavaScript's `.length`. Every string length the parser reads gives the same answer in either unit. `back.length` (src/parser/notetypes/cloze.ts:137) only tests for the empty string. The marker test `line.trim().length !== marker.trim().length` (src/parser/notetypes/basic.ts:30, src/parser/notetypes/cloze.ts:30) compares two strings, one a prefix of the other, so it holds exactly when they differ. `substring(marker.length)` on a line that starts with the marker cuts exactly the marker.
- Reading files, the settings screens, the plugin lifecycle, the AnkiConnect client and the note serialiser are not part of this model. They are I/O or user-interface code around the parser.
- The `$` patterns `$1` to `$99` and `$<name>` refer to capture groups. A string pattern has no groups, so they stay literal; that is how `Strings.Substitute` treats them.

## Findings

| source | as written | input that shows it | evidently intended | confidence | as-written member | corrected member |
|---|---|---|---|---|---|---|
| src/parser/notetypes/cloze.ts:112-115 | the Anki form is passed to `replace` as a replacement string, so `$$`, `$&`, `` $` `` and `$'` in a deletion are expanded | the front `{{$$x$$}}` becomes `{{c1::$x$}}` | the deletion's text is copied literally: `{{c1::$$x$$}}` | not executed | ClozeDiscrepancies.DollarPatternsExpand | ClozeDiscrepancies.DollarPatternsKept |
| src/parser/notetypes/cloze.ts:104-115 | each deletion is replaced at the first occurrence of its text in the partly rewritten front, which can be an Anki form written by an earlier step | the front `{{x}} {{c1::x}}` becomes `{{c2::c1::x}} {{c1::x}}` | each deletion is replaced where the match was found: `{{c1::x}} {{c2::c1::x}}` | not executed | ClozeDiscrepancies.WrongOccurrenceReplaced | ClozeDiscrepancies.EachDeletionInPlace |
