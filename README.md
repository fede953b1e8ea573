# EXEGESIS-AI core in Dafny

EXEGESIS-AI is a web application. It asks a generative language model for a
structured Bible study, either an exegesis of one passage or an introduction
to a whole book, and shows, exports and remembers the result. This project
models the sequential logic around that call and proves properties of it:

- **Data model** (`types.dfy`, module `StudyTypes`). The enumerations and
  records of `types.ts` become datatypes. A study is a `type` tag
  (`kind`) plus `meta`, and every payload is optional.
- **Generation** (`gemini.dfy`, module `GeminiService`). This covers:
  - the API-key check;
  - routing on `mode`;
  - the depth switch that selects five instruction fragments;
  - the two response schemas, as constant data with their required sets;
  - the retry loop of `makeGeminiRequest`, as a method with a loop,
    proved against the function `RetryFrom`;
  - the normalisation of a parsed reply.

  The model service is a parameter `(Call, nat) -> AttemptOutcome`: the
  outcome of attempt *k* of a call.
- **Application state** (`app.dfy`, module `AppState`). This covers:
  - the history, a most-recently-used list of at most ten entries;
  - the defaults taken from URL parameters, and the check that runs once;
  - the loading-message cycle;
  - the state changes of `handleCreateStudy` and `handleBack`, as methods
    of the class `App`.
- **Input form** (`input_form.dfy`, module `InputForm`; `passage_format.dfy`,
  module `PassageFormat`). The passage regex is written by hand twice:
  - as a declarative full-match predicate (`Matches`);
  - as a deterministic scanner (`Scan`), which the regex test
    `IsPassageFormat` runs.

  The two are proved equal. The class `Form` holds the validation, submit,
  typing and history-click handlers. The history filter is
  case-insensitive.
- **Markdown export** (`export.dfy`, module `ExportService`). The book
  template, the passage template and its sections, and the sermon and slides
  parts appended step by step.
- **Viewer helpers** (`viewer.dfy`, module `StudyViewer`;
  `reference_tokens.dfy`, module `ReferenceTokens`). These are:
  - the tab sets and the initial tab;
  - the font-size level, clamped to 0..3;
  - the file name of the Markdown download;
  - the plain-text sermon copy;
  - the view state, as the class `Viewer`;
  - the reference highlighter `renderTextWithRefs`.

  The highlighter models JavaScript's `split` with a capturing group, as a
  generic split over a matcher. The reference pattern is written twice, as
  a matcher that follows the regex engine's priority order and as a
  declarative language. The anchored test is proved equal to that
  language.
- Support modules: `Wrappers` (Option and Result), `Seqs` (subsequences) and
  `Text`. `Text` holds JavaScript's `trim`, white space, ASCII and Latin-1
  case mapping, `includes`, `join` and decimal numerals.

Clock, locale, random numbers, storage and the network are parameters or are
left out (see below).

## Model

| member | source | states |
|---|---|---|
| StudyTypes.TranslationsEnumerated | types.ts:1 | there are exactly nine translations, NAA among them; their codes are pairwise distinct, and parsing a translation's code gives that translation back |
| StudyTypes.ParseTranslation | types.ts:1 | a parsed translation has exactly the code it was parsed from |
| StudyTypes.DepthsAndModesEnumerated | types.ts:2-3 | there are exactly four depths with distinct codes, and exactly two modes with distinct codes |
| StudyTypes.Stamp | types.ts:12-14 | a history item is the request it came from plus its timestamp |
| Text.Trim | services/exportService.ts:210 | the result is the input with its leading and trailing white space cut off, and it neither starts nor ends with white space |
| Text.TrimIdempotent | services/exportService.ts:210 | trimming twice is trimming once |
| Text.TrimKeepsTrimmed | services/exportService.ts:210 | a text without white space at either end is its own trim |
| Text.TrimEmptyIffBlank | components/InputForm.tsx:40 | `trim()` gives the empty string exactly when the input is all white space |
| Text.TrimStartsWith | services/exportService.ts:122-124 | white space, then a non-empty trimmed line, then anything: the trim starts with that line |
| Text.Lower | components/InputForm.tsx:93-96 | `toLowerCase` keeps the length and maps each character on its own |
| Text.NatToString | services/exportService.ts:186 | a numeral is non-empty, all digits, without a leading zero |
| Text.NatToStringRoundTrip | services/exportService.ts:186 | reading a numeral back gives the number |
| Text.NatToStringInjective | services/exportService.ts:186 | different numbers have different numerals |
| Text.ContainsEmpty | components/InputForm.tsx:95-96 | every text includes the empty string |
| Text.IsSpace | services/exportService.ts:210 | space, tab, line feed, carriage return and no-break space are white space |
| Text.Contains | components/InputForm.tsx:95-96 | a text includes only texts no longer than itself |
| Text.ContainsSurvivesTrim | services/exportService.ts:210 | a non-empty trimmed piece of a text is still a piece of the text's trim |
| Text.InsideSpaces | services/exportService.ts:210 | a non-empty trimmed piece of a text with only white space around a middle part lies inside that part |
| Text.JoinLength | services/exportService.ts:135 | joining nothing gives the empty text; otherwise the length is the parts' lengths plus one separator between each two parts |
| Text.JoinHasPart | services/exportService.ts:135 | every part occurs in the joined text |
| Text.JoinHasNeighbours | services/exportService.ts:154 | each two neighbouring parts occur in the joined text with the separator between them |
| Text.UpperChar | components/StudyViewer.tsx:172 | a character upper-cases to one character, or to two exactly for `ß`; characters outside the ASCII and Latin-1 small letters stay as they are |
| Text.Upper | components/StudyViewer.tsx:172 | upper-casing never shortens a text |
| Text.UpperLength | components/StudyViewer.tsx:172 | upper-casing lengthens a text by exactly its number of `ß`s |
| Seqs.PrefixSubsequence | App.tsx:80 | a prefix of a subsequence is a subsequence |
| GeminiService.Names | services/geminiService.ts:5-150 | the names of a property list, position by position |
| GeminiService.Lookup | services/geminiService.ts:5-150 | a property is found exactly when its name is declared |
| GeminiService.MetaSchemaWellFormed | services/geminiService.ts:8-16 | the `meta` schema declares distinct names, and every required name is declared |
| GeminiService.SummarySchemaWellFormed | services/geminiService.ts:17-25 | the same for `summary` |
| GeminiService.ParallelSchemaWellFormed | services/geminiService.ts:33-44 | the same for a parallel passage |
| GeminiService.LexicalSchemaWellFormed | services/geminiService.ts:45-58 | the same for a lexical entry |
| GeminiService.InterpretationSchemaWellFormed | services/geminiService.ts:60-70 | the same for an interpretation |
| GeminiService.TheologianSchemaWellFormed | services/geminiService.ts:71-82 | the same for a theologian |
| GeminiService.BibliographySchemaWellFormed | services/geminiService.ts:85-98 | the same for a bibliography entry |
| GeminiService.ContentChildrenWellFormed | services/geminiService.ts:26-111 | every child schema of `content` is well formed |
| GeminiService.ContentNamesDistinct | services/geminiService.ts:28-98 | `content` declares each name once |
| GeminiService.ContentRequiredDeclared | services/geminiService.ts:100-111 | every required name of `content` is declared |
| GeminiService.ContentSchemaWellFormed | services/geminiService.ts:26-111 | the `content` schema is well formed at every level |
| GeminiService.ContentNames | services/geminiService.ts:28-98 | the twelve names `content` declares, in order |
| GeminiService.SermonPointSchemaWellFormed | services/geminiService.ts:119-131 | a sermon point's schema is well formed |
| GeminiService.SermonSchemaWellFormed | services/geminiService.ts:113-135 | the sermon schema is well formed at every level |
| GeminiService.SlideSchemaWellFormed | services/geminiService.ts:136-147 | a slide's schema is well formed |
| GeminiService.PassageSchemaWellFormed | services/geminiService.ts:5-150 | the passage schema is well formed at every level |
| GeminiService.BookMetaSchemaWellFormed | services/geminiService.ts:156-164 | the book `meta` schema is well formed |
| GeminiService.LooseWellFormed | services/geminiService.ts:168-297 | an object of distinct string or string-list properties with no required list is well formed |
| GeminiService.SectionSchemasWellFormed1 | services/geminiService.ts:168-211 | the first five book sections' schemas are well formed |
| GeminiService.SectionSchemasWellFormed2 | services/geminiService.ts:212-256 | the next five are well formed |
| GeminiService.SectionSchemasWellFormed3 | services/geminiService.ts:257-296 | the last five object sections are well formed |
| GeminiService.BookIntroSectionsWellFormed1 | services/geminiService.ts:168-228 | book fields 1 to 6 have well-formed schemas |
| GeminiService.BookIntroSectionsWellFormed2 | services/geminiService.ts:229-256 | book fields 7 to 12 have well-formed schemas |
| GeminiService.BookIntroSectionsWellFormed3 | services/geminiService.ts:257-297 | book fields 13 to 18 have well-formed schemas |
| GeminiService.BookIntroSectionsWellFormed | services/geminiService.ts:166-305 | all eighteen book fields have well-formed schemas |
| GeminiService.BookIntroSectionNames | services/geminiService.ts:299-304 | the book object declares eighteen fields, named as `BookIntroContent`'s fields, in order |
| GeminiService.BookIntroFieldsDistinct | types.ts:71-151 | the eighteen field names are distinct |
| GeminiService.BookIntroNames | services/geminiService.ts:166-305 | the declared names are the field names, and no name is declared twice |
| GeminiService.BookIntroSchemaWellFormed | services/geminiService.ts:166-305 | the `bookIntro` schema is well formed |
| GeminiService.BookSchemaWellFormed | services/geminiService.ts:153-308 | the book schema is well formed at every level |
| GeminiService.SchemaFacts | services/geminiService.ts:149 | the passage schema requires exactly its five declared sections, and the book schema requires `meta` and `bookIntro`, whose required list is the eighteen field names; only `intertextuality` and `study_questions` of `content` are optional |
| GeminiService.DepthTable | services/geminiService.ts:338-371 | `rapido`, `academico` and `sermao` each select their own fragments; no two depths select the same ones; `detalhado` and every unknown depth select the `detalhado` fragments |
| GeminiService.FragmentsFor | services/geminiService.ts:338-371 | each of the five fragments fills its own slot of the prompt, all five come from the same case of the switch, and that case is `rapido`, `academico` or `sermao` exactly when the depth is that one |
| GeminiService.CallFor | services/geminiService.ts:322-326 | mode `book` gives the book prompt and schema; any other mode, absent included, gives the passage prompt (depth upper-cased, its fragments, passage, translation) and schema; model, MIME type and temperature 0.5 are fixed |
| GeminiService.TagFor | services/geminiService.ts:404 | the result is tagged `book` exactly when the mode is `book` |
| GeminiService.Normalise | services/geminiService.ts:479-482 | the returned study has the tag, and `meta` holds the request's reference and translation and the generation time; the payloads are kept as parsed |
| GeminiService.AttemptResult | services/geminiService.ts:475-487 | a thrown error keeps its status; an empty text, an unparseable text or a reply without `meta` fails with no status; only a parsed reply with `meta` succeeds, normalised |
| GeminiService.Pow2 | services/geminiService.ts:495 | a power of two is at least one |
| GeminiService.Backoffs | services/geminiService.ts:494-497 | the delays after attempts 1..n are `1000 * 2^(k-1)` for each attempt k |
| GeminiService.IsRetryable | services/geminiService.ts:492 | an error without a status, or with a status of 500 or more, is retried; a status from 1 to 499 is not |
| GeminiService.RetryFrom | services/geminiService.ts:457-501 | from attempt k: between k and three attempts, one delay per attempt after the k-th, a failure is always the generic message, and a success is what the last attempt gave |
| GeminiService.RetryStep | services/geminiService.ts:460-500 | one round of the loop: a success stops at attempt k; a retryable failure before the third attempt adds that attempt's backoff and goes on; any other failure stops with the generic message |
| GeminiService.BackoffsSnoc | services/geminiService.ts:494-497 | the schedule grows by the next attempt's delay |
| GeminiService.MakeGeminiRequest | services/geminiService.ts:449-505 | the loop's outcome, attempt count and delays equal the retry function's; between one and three attempts; one delay per attempt but the last; a failure is always the generic message |
| GeminiService.RetryShape | services/geminiService.ts:457-501 | every attempt before the last failed retryably; the last succeeded, or was the third or a terminal failure; the delays are the backoffs of the attempts before the last |
| GeminiService.GenerateStudy | services/geminiService.ts:310-328 | no attempt exactly when the key is missing or empty, and then the configuration message and no delay; at most three attempts and the backoff delays; errors are the configuration or the generic message |
| GeminiService.Generate | services/geminiService.ts:310-328 | no attempt exactly when the key is missing or empty, and then the configuration message and no delay; at most three attempts, one delay per attempt but the last; errors are the configuration or the generic message |
| GeminiService.SuccessIsNormalised | services/geminiService.ts:479-482 | a success is the normalised reply of the last attempt, tagged by the mode, with the request's reference and translation |
| GeminiService.ServerErrorsExhaustRetries | services/geminiService.ts:492-504 | three server errors give three attempts, delays 1000 and 2000, and the generic message |
| GeminiService.ClientErrorStopsAtOnce | services/geminiService.ts:492-499 | a client error stops after the first attempt, with no delay |
| GeminiService.MissingKeyFailsFirst | services/geminiService.ts:314-318 | a missing or empty key throws the configuration message before any attempt |
| GeminiService.DelaySchedule | services/geminiService.ts:494-497 | the delay schedule is a prefix of [1000, 2000] |
| AppState.WithoutKey | App.tsx:77-79 | the entries kept are exactly those with another (passage, translation), in their old order |
| AppState.WithoutKeyCounts | App.tsx:77-79 | an entry with the new item's key is gone, and every other entry keeps its number of occurrences |
| AppState.UpdatedHistory | App.tsx:75-80 | the new item is first; no later entry has its key and all come from the old history; the length is min(10, 1 + entries kept) |
| AppState.HistoryKeepsOrder | App.tsx:77-80 | the retained old entries keep their relative order |
| AppState.WithoutKeyUnique | App.tsx:77-79 | filtering keeps keys unique |
| AppState.HistoryKeysStayUnique | App.tsx:75-80 | a history with unique keys keeps them unique after an addition |
| AppState.WithoutAbsentKey | App.tsx:77-79 | filtering out a key no entry has changes nothing |
| AppState.WithoutKeySameKey | App.tsx:77-79 | filtering depends only on the key |
| AppState.RepeatedRequestReplaces | App.tsx:75-80 | adding the same study twice equals adding it once, with the later timestamp |
| AppState.ParamOr | App.tsx:61-69 | a present, non-empty parameter is used; otherwise the default |
| AppState.UrlRequest | App.tsx:59-71 | a request is made exactly when `ref` is present, non-empty and decodes; it carries the decoded ref, the translation defaulted to `NVI` and the depth defaulted to `detalhado`, with no mode |
| AppState.ErrorText | App.tsx:95 | the shown error is the message when it is non-empty, otherwise the fallback; it is never empty |
| AppState.GenerationErrorsShownAsIs | App.tsx:95 | both messages the generator throws are shown unchanged |
| AppState.CycleAfter | App.tsx:44-48 | the message index after k ticks is a valid index |
| AppState.CycleIsModular | App.tsx:44-48 | after k ticks the index is k mod the number of messages |
| AppState.App.constructor | App.tsx:20-26 | no study, not loading, no error, empty history, URL not checked, first message |
| AppState.App.LoadHistory | App.tsx:29-38 | a saved history replaces the current one; nothing else changes |
| AppState.App.StartLoadingCycle | App.tsx:43-45 | the cycle restarts at the first message |
| AppState.App.Tick | App.tsx:46-48 | the index advances by one modulo the message count, and the message follows it |
| AppState.App.RunCycle | App.tsx:43-48 | after k ticks the index is k mod the count and the message is that one |
| AppState.App.AddToHistory | App.tsx:74-83 | the history becomes the updated history, headed by the request |
| AppState.App.HandleCreateStudy | App.tsx:86-99 | history recorded first; on success the study is shown and the error cleared; on failure the error text is set and the study kept; loading is false after both |
| AppState.App.BeginRequest | App.tsx:87-90 | the history is updated with the stamped request, loading starts with the first message and no error; the study and the URL flag are kept |
| AppState.App.EndRequest | App.tsx:93-98 | a success shows its study, a failure shows the error text and keeps the study; loading ends and nothing else changes |
| AppState.App.HandleBack | App.tsx:101-104 | the study and the error are both cleared |
| AppState.App.CheckUrlParams | App.tsx:55-72 | afterwards the URL counts as checked; a second check makes no request and changes nothing else; a first one makes the URL request if any, and then the history is updated, loading has ended, the cycle is at the first message, and the study or the error is what generating that request gives; with no request nothing else changes |
| AppState.UrlCheckRunsOnce | App.tsx:55-57 | the first check makes the URL request; the second makes none and leaves the state as the first left it |
| PassageFormat.Span | components/InputForm.tsx:50 | a maximal run of one character class |
| PassageFormat.Matches | components/InputForm.tsx:50 | a text of the pattern has at least three characters, one of them a digit |
| PassageFormat.SplitHasDigit | components/InputForm.tsx:50 | every split of the pattern has a chapter digit |
| PassageFormat.SpanIsMaximal | components/InputForm.tsx:50 | any maximal run of a class is the one `Span` finds |
| PassageFormat.OrdinalSound | components/InputForm.tsx:50 | the scanned lead is an optional digit followed by spaces |
| PassageFormat.VerseSound | components/InputForm.tsx:50 | the scanned tail is an optional `[:.]verse` or `[:.]verse-verse` |
| PassageFormat.EndsSound | components/InputForm.tsx:50 | the leading and trailing runs are white space |
| PassageFormat.ScanIsSound | components/InputForm.tsx:50 | every accepted scan gives cut points of the pattern |
| PassageFormat.ScanVerseComplete | components/InputForm.tsx:50 | every verse part followed by white space is found |
| PassageFormat.ScanIsComplete | components/InputForm.tsx:50 | every split of the pattern is the one the scanner finds |
| PassageFormat.ClassesDisjoint | components/InputForm.tsx:50 | spaces, digits and book characters are disjoint classes, and `:` `-` `.` are outside the first two |
| PassageFormat.VerseStart | components/InputForm.tsx:50 | a verse part never starts with a digit, so the chapter run is maximal |
| PassageFormat.ScanIsMatch | components/InputForm.tsx:50 | the scanner accepts a text exactly when the declarative pattern matches it |
| PassageFormat.IsPassageFormat | components/InputForm.tsx:50 | the regex test holds exactly when the declarative pattern matches |
| PassageFormat.MatchIsNotBlank | components/InputForm.tsx:40-50 | an accepted text is never blank |
| PassageFormat.ExampleAccepted | components/InputForm.tsx:50 | "1 Jo 1:9" is accepted |
| PassageFormat.ExampleRejected | components/InputForm.tsx:50 | "Jo 3:" is rejected |
| InputForm.FilterHistory | components/InputForm.tsx:92-98 | an item is kept exactly when its lower-cased passage or translation includes the lower-cased filter; order is kept, and each kept item keeps its multiplicity while every other item is gone |
| InputForm.Shown | components/InputForm.tsx:92-96 | an empty filter shows every item; a shown item's passage or translation is at least as long as the filter |
| InputForm.EmptyFilterShowsAll | components/InputForm.tsx:92-98 | an empty filter keeps every item |
| InputForm.LowerIdempotent | components/InputForm.tsx:93 | lower-casing twice is lower-casing once |
| InputForm.FilterIgnoresCase | components/InputForm.tsx:92-98 | filtering by the lower-cased filter is filtering by the filter |
| InputForm.Form.constructor | components/InputForm.tsx:23-30 | empty passage, `NVI`, `detalhado`, no error, empty filter |
| InputForm.Form.ValidatePassage | components/InputForm.tsx:39-60 | true exactly for texts of the pattern; blank input returns false and leaves the error as it was; otherwise the format error is set or cleared |
| InputForm.Form.HandleSubmit | components/InputForm.tsx:62-76 | a request (passage, translation, depth, no mode) is submitted exactly when the passage is valid; a blank one sets the "insira uma passagem" error; a malformed one sets the format error |
| InputForm.Form.HandleInputChange | components/InputForm.tsx:78-81 | typing sets the passage and clears the error |
| InputForm.Form.HandleHistoryClick | components/InputForm.tsx:83-89 | the item's passage, translation and depth fill the form, the error is cleared, and the item is selected |
| InputForm.Form.FilteredHistory | components/InputForm.tsx:92-98 | the list shown is the history filtered by the form's filter |
| ExportService.OrEmpty | services/exportService.ts:170 | a missing publisher or year is the empty string |
| ExportService.BookSections | services/exportService.ts:16-107 | the book template has eighteen sections, section i under the i-th of the template's titles (Identificação Geral … Conclusão) |
| ExportService.NumberedSections | services/exportService.ts:16-107 | section i is headed `## i. title` |
| ExportService.BookMarkdown | services/exportService.ts:16-107 | the book export starts with `# Introdução ao Livro de` and the book's name, ends with the untrimmed conclusion tail, and contains each of the eighteen headings `## i. title`, numbered 1 to 18 under the template's titles |
| ExportService.NumberedSectionsStart | services/exportService.ts:16-107 | every numbered section starts with its heading |
| ExportService.BookSectionsNumbered | services/exportService.ts:16-107 | the eighteen sections are numbered 1 to 18, each under its own title |
| ExportService.HeadingNumber | services/exportService.ts:16-107 | a heading carries its number right after `## ` |
| ExportService.HeadingNumbersDistinct | services/exportService.ts:16-107 | headings with different numbers differ |
| ExportService.ParallelsSection | services/exportService.ts:114-120 | the parallels section is empty exactly when there are no parallels |
| ExportService.ParallelsSectionHeadings | services/exportService.ts:114-120 | a non-empty parallels section holds its title and the heading of every parallel |
| ExportService.LexicalPartRows | services/exportService.ts:151-154 | the lexical table holds every row, each on the line right above the next, so the rows keep the entries' order |
| ExportService.SermonSectionHeadings | services/exportService.ts:174-196 | the sermon section holds its title line and the heading `### i. title` of every point, numbered from 1 |
| ExportService.SlidesSectionHeadings | services/exportService.ts:198-208 | the slides section holds its title and the heading `### Slide i: title` of every slide, numbered from 1 |
| ExportService.StudyRestTables | services/exportService.ts:122-172 | the passage template holds the lexical rows in order and, with parallels, the parallels title and every parallel's heading |
| ExportService.TitleSurvivesTrim | services/exportService.ts:122-124 | whatever follows the title line, and whichever parts are appended, the trimmed text starts with the title |
| ExportService.WithPartsAppends | services/exportService.ts:174-208 | appending the sermon and the slides extends the text by their concatenation |
| ExportService.PassageTextKeeps | services/exportService.ts:174-210 | a non-empty trimmed piece of the template or of an appended part survives the appending and the trim |
| ExportService.PassageText | services/exportService.ts:122-210 | the passage text starts with the title line and is trimmed |
| ExportService.SermonText | services/exportService.ts:174-196 | a sermon section exists exactly when the study has a sermon |
| ExportService.SlidesText | services/exportService.ts:198-208 | a slides section exists exactly when the study has slides |
| ExportService.PassageExport | services/exportService.ts:111-210 | a passage export starts with the title line and is trimmed |
| ExportService.Markdown | services/exportService.ts:11-211 | with the book template (tagged `book` with `bookIntro`): the title line, the tail and all eighteen numbered headings; otherwise empty without `content` or `summary`, else a trimmed text starting with the passage title |
| ExportService.MarkdownIsPassage | services/exportService.ts:110-210 | without the book template, and with `content` and `summary`, the export is the passage template with the sermon and slides parts, trimmed |
| ExportService.MarkdownHasStudyTables | services/exportService.ts:110-210 | that export holds the lexical rows in order and, with parallels, the parallels title and every parallel's heading |
| ExportService.MarkdownHasSermon | services/exportService.ts:174-210 | with a sermon, that export holds the sermon's title line and every point's heading, numbered from 1 in order |
| ExportService.MarkdownHasSlides | services/exportService.ts:198-210 | with slides, that export holds the slides title and every slide's heading, numbered from 1 in order |
| ExportService.AppendParts | services/exportService.ts:122-208 | the step-by-step `md +=` builds the passage text with the parts each present |
| ExportService.ExportToMarkdown | services/exportService.ts:11-211 | what the exporter returns is the Markdown of the study |
| ReferenceTokens.IRun | components/StudyViewer.tsx:65 | `I{1,3}` takes up to three `I`s, greedily |
| ReferenceTokens.Countdown | components/StudyViewer.tsx:65 | the lengths a greedy run backs off through, longest first |
| ReferenceTokens.Alternatives | components/StudyViewer.tsx:65 | the ends the book-number group may take, each within the text, the empty one included |
| ReferenceTokens.ChapterEnd | components/StudyViewer.tsx:65 | a chapter found ends at a `:` or `.`, at least three characters in |
| ReferenceTokens.RefTail | components/StudyViewer.tsx:65 | a reference found is at least five characters long |
| ReferenceTokens.FirstTail | components/StudyViewer.tsx:65 | the first alternative that matches, none exactly when none does |
| ReferenceTokens.MatchLen | components/StudyViewer.tsx:65 | a match is at least five characters and within the text |
| ReferenceTokens.SpanPrefix | components/StudyViewer.tsx:65 | a run in a prefix is the run cut at the prefix's end |
| ReferenceTokens.ChapterEndPrefix | components/StudyViewer.tsx:65 | cutting the text after the chapter does not change it |
| ReferenceTokens.RefHeadPrefix | components/StudyViewer.tsx:65 | a chapter and verse found stay found in any longer prefix |
| ReferenceTokens.RefEndPrefix | components/StudyViewer.tsx:65 | the range and parenthesis end stays the same on the matched prefix |
| ReferenceTokens.RefTailPrefix | components/StudyViewer.tsx:65 | a match is also a match of the matched text alone |
| ReferenceTokens.RefHeadExtends | components/StudyViewer.tsx:65 | a chapter and verse found in a prefix are found in the whole text |
| ReferenceTokens.RefTailExtends | components/StudyViewer.tsx:65 | a match of a prefix means a match in the whole text |
| ReferenceTokens.StartsPrefix | components/StudyViewer.tsx:65 | the start alternatives do not depend on what follows the fourth character |
| ReferenceTokens.MatchLenSound | components/StudyViewer.tsx:65-69 | what the split cuts out passes the anchored test |
| ReferenceTokens.RefTextStartsMatch | components/StudyViewer.tsx:65-69 | a prefix that passes the anchored test means the split finds a match there |
| ReferenceTokens.AlternativeSound | components/StudyViewer.tsx:65 | every alternative is a book number: empty, one digit 1-3, or one to three `I`s |
| ReferenceTokens.AlternativeComplete | components/StudyViewer.tsx:65 | every book number is among the alternatives |
| ReferenceTokens.StartsSound | components/StudyViewer.tsx:65 | every start is an optional `(` and a book number |
| ReferenceTokens.StartsComplete | components/StudyViewer.tsx:65 | every optional `(` and book number is a start |
| ReferenceTokens.ChapterEndSound | components/StudyViewer.tsx:65 | a chapter found splits as optional space, book, spaces, digits and separator |
| ReferenceTokens.ChapterEndComplete | components/StudyViewer.tsx:65 | every such split is the one found |
| ReferenceTokens.RefEndSound | components/StudyViewer.tsx:65 | an end that reaches the text's end is an optional range and optional `)` |
| ReferenceTokens.RefEndComplete | components/StudyViewer.tsx:65 | every optional range and `)` ending the text is found |
| ReferenceTokens.RefTailSound | components/StudyViewer.tsx:65 | a match of the whole text after a start splits as the pattern's pieces |
| ReferenceTokens.RefTailComplete | components/StudyViewer.tsx:65 | every such split is matched |
| ReferenceTokens.RefTextIsReference | components/StudyViewer.tsx:69 | the anchored test accepts exactly the texts of the reference language |
| ReferenceTokens.IsReference | components/StudyViewer.tsx:65 | a text of the reference language has at least five characters |
| ReferenceTokens.IsRefText | components/StudyViewer.tsx:69 | a text the anchored test accepts has at least five characters |
| ReferenceTokens.ReferencesAreReferences | components/StudyViewer.tsx:69 | tokens classified by the anchored test are classified by the reference language |
| ReferenceTokens.CutConcat | components/StudyViewer.tsx:65 | a cut and the rest put together give the text from the cut's start |
| ReferenceTokens.SplitFrom | components/StudyViewer.tsx:65 | the parts put together are the text, and there are an odd number of them |
| ReferenceTokens.AlternatingCons | components/StudyViewer.tsx:65-69 | a plain part and a reference in front of alternating parts keep them alternating |
| ReferenceTokens.SplitSkips | components/StudyViewer.tsx:65 | no match at a position moves the search on by one |
| ReferenceTokens.SplitCuts | components/StudyViewer.tsx:65-69 | a match cuts off the plain text before it and the reference itself |
| ReferenceTokens.SplitEnds | components/StudyViewer.tsx:65-69 | the rest of the text with no match is one plain part |
| ReferenceTokens.SplitCutAlternates | components/StudyViewer.tsx:65-69 | a cut keeps the parts alternating |
| ReferenceTokens.SplitClassified | components/StudyViewer.tsx:65-69 | after the split, a part passes the anchored test exactly when it is at an odd position |
| ReferenceTokens.OffsetCons | components/StudyViewer.tsx:65 | two parts in front move every later part's offset by their lengths |
| ReferenceTokens.CutsCons | components/StudyViewer.tsx:65 | a gap without a match, then the match at its end, in front of leftmost cuts, gives leftmost cuts |
| ReferenceTokens.SplitLeftmost | components/StudyViewer.tsx:65 | the split cuts every part at the leftmost match the previous cut leaves |
| ReferenceTokens.GapIsPlain | components/StudyViewer.tsx:65-69 | the text between matches never passes the anchored test |
| ReferenceTokens.PatternRecognised | components/StudyViewer.tsx:65-69 | the split's matcher and the anchored test agree, and the empty text is not a reference |
| ReferenceTokens.Texts | components/StudyViewer.tsx:71-77 | the texts of the tokens, in order |
| ReferenceTokens.Highlight | components/StudyViewer.tsx:65-77 | the tokens' texts together are the input; text and reference tokens alternate, starting and ending with text; a token is a reference exactly when the anchored test accepts its text; no position inside a text token starts a match, and each reference token is exactly the match found where it starts |
| ReferenceTokens.RenderTextWithRefs | components/StudyViewer.tsx:63-78 | nothing exactly for empty text; otherwise tokens whose texts are the input, with the references exactly at the odd positions; a token is a reference exactly when its text is in the reference language; every cut is at the leftmost match the previous cut leaves |
| ReferenceTokens.ExampleParenthesised | components/StudyViewer.tsx:65-69 | "(1 Jo 1:9)" is a reference |
| ReferenceTokens.ExampleRomanRange | components/StudyViewer.tsx:65-69 | "II Reis 2:11–14" is a reference |
| ReferenceTokens.ExamplePlainReference | components/StudyViewer.tsx:69 | "Jo 3:16" passes the anchored test |
| ReferenceTokens.LeadingReference | components/StudyViewer.tsx:65-77 | a text that starts with a reference is highlighted as an empty text token, then that reference |
| ReferenceTokens.FirstCutIsMatch | components/StudyViewer.tsx:65 | when a match starts the text, the split opens with an empty part and does not stop there |
| ReferenceTokens.ExampleLeadingReference | components/StudyViewer.tsx:65-77 | "Jo 3:16" is highlighted as an empty text token, then a reference |
| StudyViewer.Tabs | components/StudyViewer.tsx:100-119 | book data gets only book tabs, any other data only passage tabs |
| StudyViewer.TabIds | components/StudyViewer.tsx:119 | the ids of the tab set, in order |
| StudyViewer.InitialTab | components/StudyViewer.tsx:81 | the first tab of the set: `book_general` for book data, `text` otherwise |
| StudyViewer.FontSizeLabel | components/StudyViewer.tsx:310 | levels 0, 1 and 2 read Pequeno, Padrão and Grande; any other level reads Extra |
| StudyViewer.ExportFileName | components/StudyViewer.tsx:193 | every white-space character becomes `_`, all others stay |
| StudyViewer.FileNameHasNoSpace | components/StudyViewer.tsx:193 | the file name has no white space |
| StudyViewer.FileNameOfPlainTitle | components/StudyViewer.tsx:193 | a title without white space is its own file name |
| StudyViewer.FileNameIdempotent | components/StudyViewer.tsx:193 | sanitising twice is sanitising once |
| StudyViewer.MarkdownFileName | components/StudyViewer.tsx:193-202 | `estudo-` + sanitised title + `.md`, with no white space |
| StudyViewer.PointCopy | components/StudyViewer.tsx:171-176 | a copied point starts with a line break, its numeral and a full stop, and ends with `]` and a line break |
| StudyViewer.CopySermonText | components/StudyViewer.tsx:161-180 | a text exactly when there is a sermon; it is trimmed, opens with `TÍTULO:` and the title, then `TEXTO:` and the text focus, then `INTRODUÇÃO`, and holds the lines of every point, numbered from 1 in order, with its title in capitals |
| StudyViewer.CopyHasPoints | components/StudyViewer.tsx:171-180 | the trimmed copy holds the lines of every point, numbered from 1 in order |
| StudyViewer.PointNumber | components/StudyViewer.tsx:171-176 | a copied point has its numeral right after the leading line break, followed by a full stop |
| StudyViewer.NumberAfterBreak | components/StudyViewer.tsx:171 | a line break, a numeral and a dot: the numeral sits right after the break |
| StudyViewer.PointNumbersDistinct | components/StudyViewer.tsx:171 | points with different numbers are copied differently |
| StudyViewer.UpperHasNoSmallLetter | components/StudyViewer.tsx:172 | an upper-cased title has no ASCII small letter |
| StudyViewer.UpperIdempotent | components/StudyViewer.tsx:172 | upper-casing twice is upper-casing once |
| StudyViewer.UpperOfUpperChar | components/StudyViewer.tsx:172 | an upper-cased character is its own upper case |
| StudyViewer.UpperAppend | components/StudyViewer.tsx:172 | upper-casing distributes over concatenation |
| StudyViewer.Viewer.constructor | components/StudyViewer.tsx:81-93 | the initial tab of the data's kind, level 1, sans font, menus closed, not reading, title the reference |
| StudyViewer.Viewer.CurrentFontSize | components/StudyViewer.tsx:121-122 | the class of the current level is always defined |
| StudyViewer.Viewer.CurrentFontFamily | components/StudyViewer.tsx:123 | the class is `font-serif` or `font-sans`, and it is `font-serif` exactly when the serif font is chosen |
| StudyViewer.Viewer.DecreaseFont | components/StudyViewer.tsx:304 | the level goes down by one, never below 0; nothing else changes |
| StudyViewer.Viewer.IncreaseFont | components/StudyViewer.tsx:312 | the level goes up by one, never above 3; nothing else changes |
| StudyViewer.Viewer.SetSerif | components/StudyViewer.tsx:325-331 | the font family is set; nothing else changes |
| StudyViewer.Viewer.ToggleAppearanceMenu | components/StudyViewer.tsx:291 | the appearance menu opens or closes; nothing else changes |
| StudyViewer.Viewer.ToggleExportMenu | components/StudyViewer.tsx:377-384 | the export menu opens or closes; nothing else changes |
| StudyViewer.Viewer.ToggleReadingMode | components/StudyViewer.tsx:340-343 | reading mode switches and the appearance menu closes |
| StudyViewer.Viewer.ExitReadingMode | components/StudyViewer.tsx:417 | reading mode ends |
| StudyViewer.Viewer.SelectTab | components/StudyViewer.tsx:439 | the chosen tab of the current set becomes active |
| StudyViewer.Viewer.EditTitle | components/StudyViewer.tsx:268 | the editable title is set |
| StudyViewer.Viewer.HandleExport | components/StudyViewer.tsx:191-214 | the export menu closes; only the `md` format yields a download, named `estudo-<sanitised title>.md` and holding the Markdown of the study |

## Left out

- The generative model client and its network call are replaced by the `service` parameter. `JSON.parse` is replaced by the `Reply` outcome it produced.
- The prompt wording is left out. A prompt is modelled by which fragments it carries and the values it interpolates.
- `setTimeout` sleeps and `setInterval` ticks are recorded as a list of delays and as explicit `Tick` calls. React effects and re-rendering are left out.
- The clock (`Date.now`, `new Date().toISOString`) and the date formatter (`toLocaleDateString`) are parameters.
- `localStorage` is left out. `LoadHistory` takes what was read from it, and the write in `addToHistory` is not modelled.
- These are left out as browser I/O or randomness: `URLSearchParams`, `window.history.replaceState`, `decodeURIComponent` (a parameter that may fail), `navigator.clipboard`, the sermon-copy and share toasts with their timers, `handleShare`, the random daily verse and the click-outside handling of the menus.
- The PDF, Word and PowerPoint exporters (`exportToPDF`, `exportToDoc`, `exportToPPTX`) are left out because they drive DOM and library calls. `HandleExport` returns no download for them.
- JSX rendering, CSS and icons are left out. The highlighter returns tokens instead of elements.
- JavaScript strings are UTF-16 and Dafny's `char` is a code point; the model works on code points. Every character in the two patterns is in the Basic Multilingual Plane.
- Text.Lower: maps only ASCII and Latin-1 capitals; the other Unicode case mappings of `toLowerCase` are left out.
- Text.UpperChar: maps only ASCII and Latin-1 small letters (with `ß` to `SS`, `ÿ` to `Ÿ`, `µ` to `Μ`); the other Unicode case mappings of `toUpperCase` are left out.
- The regex engine is not modelled in general. The two patterns are written by hand.
- An absent `parallels` list is modelled as an empty sequence, since the exporter treats both the same.
- Cancellation and abort are not modelled, because the code has none.
- ExportService.Markdown: that a study without a sermon, slides or parallels exports no such section is stated on `SermonText`, `SlidesText` and `ParallelsSection`, not on the exported text, because the user's own fields may contain the same headings.
- Text.Join: its properties are stated in the lemmas `JoinLength`, `JoinHasPart` and `JoinHasNeighbours` rather than on the function. It is used in every template, and a contract on it would enter every proof about a template and make those proofs much larger.
- Text.IsSpace: that white space, digits and book characters are disjoint is stated in `PassageFormat.ClassesDisjoint`, not on the predicate, for the same reason.

Behaviour a reader might expect that the code does not have:

- Temperature is fixed at 0.5 for every depth.
- The only delays are 1000 ms and 2000 ms. No delay follows the third attempt.
- The form and the URL handler send requests without a `mode`. The passage path is taken for any mode other than `book`.
- `study_questions` is optional in the schema, yet the passage export reads it. The model's `Content` carries it as a list.
- The book export is not trimmed.
- Status 0 counts as "no status", as JavaScript's `!error.status` is true for it.
