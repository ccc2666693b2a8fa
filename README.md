# BMAD Viewer: extraction layer and dashboard aggregation

BMAD Viewer is a browser dashboard over the planning documents of a BMAD
project. This project models its two computational parts in Dafny and proves
properties of the model.

- **The extractors** (`parsers.js`) turn raw document text into records:
  - the document list of the index file;
  - the requirement counters and the implemented/planned requirement lists of the product document;
  - the epic and story headings of the epics document;
  - the normalised capability records of the roadmap object.
- **The aggregation helpers** (`app.js`) work over the sprint status mapping and the roadmap:
  - the epic-key test;
  - theme extraction from the roadmap's `# TEMA:` comments;
  - the capability numbering;
  - per-capability progress;
  - the kanban column of a status;
  - the stories of one epic;
  - the header and dashboard tallies.

Every extractor takes an arbitrary JavaScript value (`JsValue.Value`: null,
undefined, booleans, numbers, strings, arrays and objects). This lets the
model state the fallbacks for null, non-string and empty input. The
regular expressions are written out as greedy recognisers over
`seq<char>`. Where their backtracking can change the outcome, the
recogniser's contract, or a lemma beside it, states the match condition
exactly (for example `Patterns.SpacedRest` for `\s*(.+)$`,
`Requirements.SectionTitleIff` for `^###\s+(.+)$` and
`DocIndex.LinkAtExact` for the optional `./` of the link regex).

Modules:

| module | models |
|---|---|
| `Options`, `Text`, `Patterns`, `JsValue` | shared vocabulary: JS whitespace, `trim`, `split`/`join`, `toLowerCase`/`toUpperCase`, `replace`, `includes`, decimal numerals, the small regular expressions, JS values and truthiness |
| `DocIndex` | `extractDocListFromIndex` |
| `Metrics` | `parsePrdMetrics`, `parseEpicsMetrics` |
| `Requirements`, `PlanOrder` | `isPersonaValue`, `normalizePersona`, `parsePriority`, `parseTableRows`, `parsePrdRfLists`, `parsePrdRnfLists`, and the stable sort of the plan list |
| `Epics` | `parseEpicsLists` |
| `Roadmap` | `parseRoadmapYamlFromObject` |
| `Themes` | `extractThemes`, `getCapNumberMap` |
| `Progress` | `isEpicKey`, `computeProgress`, `statusToColumn`, `getStoriesForEpic`, the tallies of `updateMetrics` and `renderDashboard` |

Loops in the source become methods with loops:
- `parseTableRows`;
- `extractDocListFromIndex`;
- `parseEpicsLists`;
- `parseRoadmapYamlFromObject`;
- `extractThemes`;
- `computeProgress`;
- `getCapNumberMap`;
- the tally loops.

Each such method is proved equal to a specification function, and the
properties are lemmas about that function.

The sprint document's `development_status` mapping is a sequence of
(key, status) pairs in `Object.keys` order. Statuses are strings. None
of the lemmas needs the keys to be distinct.

## Model

| member | source | states |
|---|---|---|
| JsValue.NonEmptyText | parsers.js:19 | the text guard `!raw \|\| typeof raw !== 'string'`: text is present exactly for a non-empty string |
| JsValue.Or | parsers.js:255-260 | `a \|\| b` yields a when a is truthy and b otherwise |
| Text.Trim | parsers.js:134 | `trim()` removes exactly the leading and trailing JS whitespace and keeps the middle |
| Text.TrimIdempotent | parsers.js:129 | trimming twice is trimming once |
| Text.JoinSplit | parsers.js:122 | `split('\n')` loses nothing: joining the pieces gives back the text |
| Text.SplitJoin | parsers.js:218 | splitting the join of separator-free pieces gives back the pieces |
| Text.ReplaceFirst | app.js:132 | `replace(pattern, rep)` with a string pattern changes only the first occurrence, and only if there is one |
| Text.LowerIdempotent | app.js:611 | lower-casing is idempotent |
| Text.CollapseSpaces | parsers.js:144 | `replace(/\s+/g, ' ')`: the result is empty exactly when the input is; every whitespace character left is a blank and no two are adjacent; it starts with a blank exactly when the input starts with whitespace |
| Text.CollapseSpacesContent | parsers.js:144 | collapsing keeps every non-whitespace character in order and keeps the number of whitespace runs: each run becomes exactly one blank |
| Text.TrimNonSpaces | parsers.js:144 | `trim()` removes only whitespace: the non-whitespace characters are kept in order |
| Text.DigitsValueOfNat | parsers.js:223 | `parseInt` of the decimal numeral of n is n |
| Patterns.SpacedRest | parsers.js:216-217 | `\s*(.+)$` matches exactly when some whitespace prefix is followed by a line without terminators; the greedy capture is the longest such tail |
| Patterns.SpacedRestTrim | parsers.js:223 | the trimmed capture of `\s*(.+)$` is the trimmed remainder of the line |
| Patterns.FirstMatch | parsers.js:53-60 | `text.match(re)` gives the captures of the leftmost match, and no match exactly when no position matches |
| Patterns.MatchAt | parsers.js:53-78 | a match at one position of a pattern made of literals, `\s*` and `(\d+)` yields one capture per `(\d+)`, each a decimal numeral |
| Patterns.MatchAtIff | parsers.js:53-78 | for the metric patterns, a match at p with captures caps happens exactly when the text from p is the pattern with caps for its `(\d+)` and some whitespace runs (any length, including none) for its `\s*`, followed by text a final `(\d+)` cannot extend |
| Patterns.FirstMatchNone | parsers.js:53-78 | `text.match(re)` is null exactly when no position of the text holds such a rendering of the pattern |
| Patterns.MatchRender | parsers.js:53-78 | a rendering of the pattern, with any whitespace runs for its `\s*`, matches where it starts, with exactly its digit captures |
| Patterns.FirstMatchRender | parsers.js:53-60 | a rendered instance of a pattern, with any whitespace runs and no match before it, is found with exactly its digit captures |
| DocIndex.HeadingAtMatch | parsers.js:20 | `/^###\s+(.+)$/gm` at a line start: the match, its whitespace run and its line-terminator-free title, and no match exactly when the line does not start with `###` |
| DocIndex.NextHeading | parsers.js:23-25 | `exec` returns a heading match that starts at or after the search position |
| DocIndex.NextHeadingLeftmost | parsers.js:23-25 | no heading starts between the search position and the one `exec` returns |
| DocIndex.NextHeadingNone | parsers.js:23-25 | when `exec` returns null, no heading starts at or after the search position |
| DocIndex.HeadingsFrom | parsers.js:22-25 | the collected section starts are strictly increasing headings of the text |
| DocIndex.LinkAt | parsers.js:29 | a link match `](./?path.md)` has a target of at least four characters that ends in `.md` and contains no `)` |
| DocIndex.LinkAtExact | parsers.js:29 | the link regex matches at an offset exactly when `](` stands there and the text up to the first `)` is at least four characters ending in `.md`; group 2 is that text without its leading `./` only when at least four characters remain, so `](./.md)` gives `./.md` |
| DocIndex.NextLink | parsers.js:32 | `exec` on the block returns a link match that starts at or after the position |
| DocIndex.NextLinkLeftmost | parsers.js:32 | no link starts between the position and the one `exec` returns |
| DocIndex.NextLinkNone | parsers.js:32 | when `exec` returns null, no link starts at or after the position |
| DocIndex.ExtractDocListFromIndex | parsers.js:16-42 | the method's two loops compute the document list of the index text |
| DocIndex.SectionEntries | parsers.js:27-39 | the loop over sections gathers each section's block entries in order |
| DocIndex.BlockEntries | parsers.js:29-38 | the loop over one block's links keeps each path once, tagged with the section title |
| DocIndex.PathsEndWithMd | parsers.js:33-34 | every path, with its leading `./` removed, ends in `.md` |
| DocIndex.DedupDistinct | parsers.js:31-36 | within a section the paths are distinct, unseen before and taken from the block |
| DocIndex.DedupComplete | parsers.js:34-36 | every `.md` path of the block that was not seen before is listed |
| DocIndex.DedupAppend | parsers.js:32-37 | paths are listed in first-seen order: those from a split list are the ones from its first part, then the ones from the second part that the first did not already supply |
| DocIndex.BlockPaths | parsers.js:31-36 | a section lists exactly the distinct paths of its block |
| DocIndex.DocListShape | parsers.js:22-36 | every entry ends in `.md`, is a link target of the block of some `###` heading (from that heading up to the next), and carries that heading's title: the nearest heading at or before the link |
| DocIndex.NoHeadingNoDocs | parsers.js:19-27 | null, non-string, empty or heading-free text yields no documents |
| Metrics.NumberOr | parsers.js:57-58 | `parseInt(x, 10) \|\| d`: a parsed 0 keeps the default |
| Metrics.RfTotals | parsers.js:53-59 | the RF counters are positive and are 50/36 when the row does not occur |
| Metrics.RnfTotals | parsers.js:60-64 | the RNF counters are positive and are 25/2 when the row does not occur |
| Metrics.ParsePrdMetrics | parsers.js:44-67 | the four counters are positive; non-text gives the defaults; a missing row keeps its defaults |
| Metrics.ParseEpicsMetrics | parsers.js:69-83 | both counters are positive; non-text gives 14/64; a missing token keeps its default |
| Metrics.RfCountersFromFirstRow | parsers.js:53-58 | for a first `**Total RFs** \| **a** \| **b** \| **c**` row, however it is spaced around the bars (any whitespace runs, including none), the counters are a and b (or their defaults when 0); c is required and unused |
| Metrics.RnfCountersFromFirstRow | parsers.js:60-63 | for a first `**Total RNFs** \| **a** \| **b**` row, however it is spaced around the bars, the counters are a and b (defaults when 0) |
| Metrics.RfRowAbsent | parsers.js:53-59 | when no position of a non-empty text holds the RF row, however spaced, the RF counters keep 50 and 36 |
| Metrics.RnfRowAbsent | parsers.js:60-64 | when no position of a non-empty text holds the RNF row, however spaced, the RNF counters keep 25 and 2 |
| Metrics.CounterAbsent | parsers.js:75-78 | a `head\s*(\d+)` token that occurs nowhere leaves the counter at its default |
| Metrics.EpicsCounterFromToken | parsers.js:75-76 | the epics counter is the number after the first `totalEpics:` and any blanks, including none (14 when 0) |
| Metrics.StoriesCounterFromToken | parsers.js:77-78 | the stories counter is the number after the first `totalStories:` and any blanks, including none (64 when 0) |
| Metrics.EpicsTokensAbsent | parsers.js:75-78 | without a `totalEpics:` token the epics counter is 14, and without a `totalStories:` token the stories counter is 64 |
| Requirements.FoldedIsPlain | parsers.js:92-93 | decomposition followed by removal of U+0300–U+036F leaves no mark and no decomposable letter |
| Requirements.FoldedPersona | parsers.js:95 | each persona name folds to its unaccented form |
| Requirements.PersonaValueIff | parsers.js:87-98 | `isPersonaValue` holds exactly when the trimmed, lower-cased, folded text is one of paciente, medico, secretaria, interno |
| Requirements.DecomposedPersona | parsers.js:87-108 | for every combining mark, a decomposed `Médico` is a persona value for the 6-column rule, but `normalizePersona` gives it no name |
| Requirements.NormalizePersona | parsers.js:100-108 | the result is empty or one of Paciente, Médico, Secretária, Interno; it is non-empty exactly when the trimmed, lower-cased text is one of paciente, médico, medico, secretária, secretaria, interno, and then it is that name's display form |
| Requirements.NormalizedIsPersona | parsers.js:100-108 | a non-empty normalised persona comes from a persona value |
| Requirements.ParsePriority | parsers.js:110-116 | a parsed priority comes only from a trimmed text that is a numeral, or `P`/`p` followed by a numeral, and is that numeral's value |
| Requirements.PriorityOfDigits | parsers.js:113 | a bare numeral parses to its value |
| Requirements.PriorityOfPrefixedDigits | parsers.js:114-115 | `P` or `p` followed by a numeral parses to the numeral's value |
| Requirements.PriorityOfNumeral | parsers.js:113 | the decimal numeral of n parses to n |
| Requirements.SectionTitle | parsers.js:124-129 | a section heading is a `###` line that does not start with `\|`; the title is the trimmed rest |
| Requirements.SectionTitleIff | parsers.js:124-129 | a line is a section heading exactly when it starts with `###` followed by at least one blank and a rest with no line terminator, the blanks possibly given back to `(.+)` (so `###Title` is not a heading and `###` plus two blanks is one) |
| Requirements.SectionTitleOfHeading | parsers.js:124-129 | `### title` gives back its title |
| Requirements.RfIsNotRnf | parsers.js:184-200 | no id matches both `/^RF-\d+$/i` and `/^RNF-\d+$/i` |
| Requirements.LastFilled | parsers.js:142-146 | the status column is the last non-empty part at index 2 or later |
| Requirements.ParseRow | parsers.js:132-139 | an accepted row starts with `\|`, is not a separator, has at least four parts, and its id is the second part, matches the table's pattern and is not the header; its persona is empty or a display name |
| Requirements.ParseRowColumns | parsers.js:140-162 | an accepted row's capability is the third part and its status the last non-empty one; with seven parts or more the persona and priority are read from parts 3 and 4; with exactly six, part 3 is the persona when it reads as one and the priority otherwise; with four or five parts there is no persona and no priority |
| Requirements.ReadRow | parsers.js:132-162 | the method's row checks and column reads accept exactly the rows the row rules accept, with the same fields |
| Requirements.RowColumns | parsers.js:148-162 | the method's choice of persona and priority by the number of parts is the column rule |
| Requirements.RowAccepted | parsers.js:132-164 | a `\|` line that is not a separator and has at least four parts and a matching id is accepted with those parts |
| Requirements.ParseTableRows | parsers.js:118-176 | the method's line loop and sort compute the two lists of the table (characterised by Requirements.TableRowsSpec) |
| Requirements.ScanLine | parsers.js:126-171 | one loop iteration: a heading updates the section, an accepted row is classified, any other line is skipped |
| Requirements.ClassifyRow | parsers.js:163-170 | a row whose status holds the implemented word joins the implemented list; else one holding the planned word joins the planned list with its explicit priority or one more than the planned count; else it is dropped |
| Requirements.RowStatus | parsers.js:141-147 | the inner loop finds the status column, collapsed and upper-cased |
| Requirements.ParsePrdRfLists | parsers.js:178-192 | the RF lists are the table rows for header `RF` and pattern `RF-\d+` |
| Requirements.ParsePrdRnfLists | parsers.js:194-208 | the RNF lists are the table rows for header `RNF` and pattern `RNF-\d+` |
| Requirements.TableRowsOk | parsers.js:163-170 | every item has a matching, non-header id; implemented items carry no priority and planned items always carry one |
| Requirements.RfRnfDisjoint | parsers.js:178-208 | RF lists never contain RNF ids and vice versa |
| Requirements.PlanRanked | parsers.js:172-174 | the plan list is sorted by priority (0 read as 999), is a permutation of the collected items, and keeps the collected order among equal keys |
| Requirements.PositionalPlan | parsers.js:168 | without explicit priorities, the plan list keeps document order and its k-th item has priority k+1 |
| Requirements.NoTextNoRows | parsers.js:121 | null, non-string or empty text gives empty lists for both tables |
| Requirements.LatestHeading | parsers.js:126-131 | the section in force after some lines is the title of the last heading line among them |
| Requirements.ScanSection | parsers.js:123-131 | the loop's `currentSection` after the lines is the title of their last heading, or "" when there is none |
| Requirements.RowsOfOrigin | parsers.js:125-162 | every collected row comes from a non-heading line that the table accepts, and carries the section in force at that line |
| Requirements.RowsOfOrder | parsers.js:125-171 | rows are collected in document order, at most one per line |
| Requirements.RowsOfComplete | parsers.js:125-171 | every non-heading line the table accepts contributes a row |
| Requirements.ScanImpl | parsers.js:163-165 | the implemented list is the accepted rows whose status contains the implemented marker, in document order, without priority |
| Requirements.ScanPlan | parsers.js:166-169 | the collected planned list is the remaining rows whose status contains the planned marker; the k-th carries its explicit priority or else k+1 |
| Requirements.ImplRowsIff | parsers.js:164 | a row is in the implemented list exactly when it is accepted and its status contains the implemented marker |
| Requirements.PlanRowsIff | parsers.js:166 | a row is in the planned list exactly when it is accepted, is not implemented and its status contains the planned marker |
| Requirements.FiltersAppend | parsers.js:163-170 | the classification works line by line: the lists of two runs of rows are the concatenation of each run's lists |
| Requirements.TableRowsSpec | parsers.js:118-176 | for text, the implemented list and the planned list sorted by priority (0 read as 999) are built from the accepted rows of `split('\n')` |
| PlanOrder.SortSorted | parsers.js:172-174 | the sort yields a list ordered by the key |
| PlanOrder.SortPermutation | parsers.js:172-174 | the sorted list is a permutation of its input |
| PlanOrder.SortStable | parsers.js:172-174 | the sort is stable: the items with any one key keep their relative order |
| PlanOrder.SortOfSorted | parsers.js:172-174 | an already ordered list is unchanged |
| Epics.Numbered | parsers.js:216-217 | `X(\d+)sep…`: a match splits the line into the literal head, a numeral, the separator and the rest |
| Epics.Titled | parsers.js:216-223 | `:\s*(.+)$` after the colon: a match exactly when a terminator-free tail follows the blanks; the title is the trimmed tail |
| Epics.EpicLine | parsers.js:216-223 | an epic record comes only from a line starting with `### Épico ` |
| Epics.StoryLine | parsers.js:217-232 | a story record comes only from a `#### História ` line; its id is the literal `N.M` and its epicId is the value of N |
| Epics.EpicLineMatch | parsers.js:216-223 | an epic record is the value of the numeral and the trimmed title of a `### Épico N: title` line |
| Epics.StoryLineMatch | parsers.js:217-232 | a story record is the literal `N.M`, the value of N and the trimmed title of a `#### História N.M: title` line |
| Epics.EpicShapedLine | parsers.js:216-223 | conversely, every `### Épico N: title` line with a one-line tail is read as the epic (value of N, trimmed title) |
| Epics.StoryShapedLine | parsers.js:217-232 | conversely, every `#### História N.M: title` line with a one-line tail is read as the story (`N.M`, value of N, trimmed title) |
| Epics.EpicLineOf | parsers.js:216-223 | `### Épico N: title` gives the epic (N, title) |
| Epics.StoryLineOf | parsers.js:217-232 | `#### História N.M: title` gives the story ("N.M", N, title) |
| Epics.OneRecordPerLine | parsers.js:221-226 | a line is never both an epic and a story |
| Epics.EpicsLists | parsers.js:215 | null, non-string or empty text gives no epics and no stories |
| Epics.ParseEpicsLists | parsers.js:210-239 | the method's line loop collects exactly the epics and stories of the text |
| Epics.ScanLine | parsers.js:220-233 | one iteration: an epic heading adds its epic and nothing else; otherwise a story heading adds its story; any other line changes nothing |
| Epics.RecordsFromLines | parsers.js:219-234 | every record comes from one of the lines, and there are no more records than lines |
| Epics.EpicsOfAppend | parsers.js:219-225 | epics come out in document order: those of a prefix come first |
| Epics.StoriesOfAppend | parsers.js:226-233 | stories come out in document order |
| Epics.CarriageReturnHidesHeading | parsers.js:216-218 | a heading line that still ends in `\r` (CRLF text split on `\n`) yields no record |
| Roadmap.Guarded | parsers.js:249-263 | `v && v.key` is v when v is falsy and its field otherwise |
| Roadmap.Counter | parsers.js:268-280 | `typeof (p && p.key) === 'number' ? p.key : 0`: a truthy p gives its numeric field or 0; p = 0 gives undefined; any other falsy p gives 0 |
| Roadmap.NormalizeCapability | parsers.js:254-281 | falsy id/title/value_proposition become "", status becomes "backlog", non-string description becomes "", non-number priority becomes index+1, non-array lists become []; a links object gives each of frs, rnfs, epics and stories as is when it is an array and [] otherwise, and a non-object links gives four empty lists; a progress object gives each numeric counter as is and 0 otherwise; a progress of 0 gives undefined counters; any other non-object progress gives 0 counters |
| Roadmap.SyncOf | parsers.js:286-295 | the metadata is `{}` exactly when `sync_metadata` is missing or not an object; otherwise it copies `source_prd`, `source_epics`, `source_sprint_status` and `capability_count` as they are and takes `strategy \|\| ''` |
| Roadmap.RoadmapOf | parsers.js:249-295 | a non-array `capabilities` gives no capabilities; a non-object `sync_metadata` gives `{}`, an object one its four copied fields and `strategy \|\| ''` |
| Roadmap.ParseRoadmapYamlFromObject | parsers.js:245-300 | the method's loop over the raw entries computes the normalised roadmap |
| Roadmap.OnePerObjectEntry | parsers.js:251-284 | exactly one capability per object entry: the k-th is built from the k-th object entry with its raw index |
| Roadmap.PositionsOfObjects | parsers.js:253 | only object entries produce capabilities |
| Roadmap.PositionsIncrease | parsers.js:251-283 | the capabilities keep the order of the raw array |
| Roadmap.PositionsComplete | parsers.js:251-283 | no object entry is skipped |
| Roadmap.PriorityAfterSkips | parsers.js:259 | the fallback priority of the k-th capability is its raw index + 1, which is at least k+1: skipped entries still count |
| Roadmap.NoSkipsRanks | parsers.js:259 | with no skipped entries, the fallback priorities are 1, 2, 3, … |
| Themes.StripEmojiCounts | app.js:111 | every theme emoji is removed and every other character is kept with its count |
| Themes.StripEmojiAppend | app.js:111 | removal works character by character, so the order of the kept characters is unchanged |
| Themes.CleanNameShape | app.js:111 | the theme name is trimmed, keeps exactly the non-whitespace, non-emoji characters of the capture in order, and its whitespace is single blanks |
| Themes.TemaLineMatch | app.js:109-111 | a theme comment is blanks, `#`, blanks, `TEMA:` and a one-line tail; the name is the cleaned capture of `\s*(.+)$` on that tail |
| Themes.TemaShapedLine | app.js:109-111 | conversely, every line of that shape is a theme comment naming the cleaned capture |
| Themes.TemaLineOf | app.js:109-111 | `# TEMA: name` gives the cleaned name |
| Themes.IdLine | app.js:113 | an id line starts with exactly `  - id:`, then blanks, then a blank-free id running to the end of the line |
| Themes.IdShapedLine | app.js:113-115 | conversely, `  - id:`, any blanks and a non-empty blank-free id read back as that id |
| Themes.IdLineOf | app.js:113-115 | `  - id: X` gives back X |
| Themes.TemaOrId | app.js:109-113 | a line is never both a theme comment and an id line |
| Themes.Assignments | app.js:113-114 | every assigned id is under a non-empty theme name, and there are no more assignments than lines |
| Themes.NoThemeNoAssignments | app.js:107-114 | ids before any theme comment are ignored |
| Themes.FindName | app.js:116 | `themes.find` returns the first theme with the name, or none if no theme has it |
| Themes.FindTheme | app.js:116 | the search loop returns the first theme with the name |
| Themes.FirstOccurrences | app.js:116-118 | the first-appearance order of the names contains exactly the assigned theme names |
| Themes.AddIdNames | app.js:116-118 | adding an id under a known name keeps the theme names; an unknown name becomes the last theme |
| Themes.GroupNames | app.js:116-118 | the extracted theme names are the assigned names in first-appearance order; a repeated name merges into the earlier entry |
| Themes.GroupDistinct | app.js:116-118 | theme names are unique |
| Themes.GroupIds | app.js:117-118 | each theme lists exactly its assigned ids, in document order |
| Themes.ThemeLine | app.js:108-119 | one line: a theme comment switches the theme; an id line under a theme adds its id |
| Themes.ExtractThemes | app.js:105-122 | the method's line loop computes the grouping of the assignments |
| Themes.ScanStep | app.js:108-119 | one more line: a theme comment becomes the theme in effect; an id line under a non-empty theme adds its id to that theme's entry, any other line leaves the grouping as it was |
| Themes.NumberMap | app.js:262-272 | the map's keys are exactly the visited ids |
| Themes.LastVisitWins | app.js:266-268 | an id gets the number of its last visit, with that visit's theme |
| Themes.NumberIds | app.js:266-269 | the inner loop numbers one theme's ids after the earlier visits |
| Themes.GetCapNumberMap | app.js:262-272 | the nested loops number the ids visited theme by theme and id by id |
| Progress.EpicKeyForm | app.js:75-77 | `isEpicKey` holds exactly for `epic-` followed by one or more digits |
| Progress.EpicNumberOf | app.js:132 | removing `epic-` from `epic-d` gives d |
| Progress.OneEpicPerKey | app.js:135 | a story key is counted for at most one epic number |
| Progress.EpicKeysShareNoStory | app.js:132-135 | two different epic keys never count the same story key |
| Progress.EpicOneSkipsTen | app.js:132-135 | `epic-1` does not count `10-…` keys |
| Progress.StatusToColumn | app.js:610-617 | the column is one of the five and is chosen by the lower-cased status; `review` and `qa-review` share a column; anything else is `backlog` |
| Progress.ColumnIgnoresCase | app.js:611 | the column does not depend on letter case |
| Progress.EntryCounts | app.js:134-140 | an entry counts only when it is a story key of the epic; it adds to done exactly when counted with lower-cased status `done`, and to in-progress exactly when counted, not done and its status contains `in-progress`, `review` or `qa-review` |
| Progress.EpicCounts | app.js:133-141 | done + in progress ≤ total ≤ number of entries |
| Progress.CapCounts | app.js:129-142 | done + in progress ≤ total |
| Progress.StatusOf | app.js:143-147 | `done` exactly when total > 0 and all are done; `in-progress` exactly when total > 0, not all done and something is done or under way; `backlog` otherwise |
| Progress.ProgressMap | app.js:128-148 | the progress map has exactly the capability ids as keys |
| Progress.ComputeProgress | app.js:125-151 | the method's loop builds the progress map |
| Progress.CountCapability | app.js:129-142 | the loop over linked epics sums their counts |
| Progress.CountEpic | app.js:133-141 | the loop over the status keys adds one epic's counts |
| Progress.CountKey | app.js:134-140 | one key's contribution, with its early return for epic and bookkeeping keys |
| Progress.LastCapabilityWins | app.js:148 | a later capability with the same id overwrites the earlier entry |
| Progress.EpicCountsAppend | app.js:133 | an epic's counts over two runs of keys add up |
| Progress.CapCountsAppend | app.js:131 | a capability's counts over two runs of epics add up |
| Progress.RepeatedEpicCountsTwice | app.js:131-142 | repeated epics are not skipped: linking the same epics twice doubles the total and done counts |
| Progress.EpicDoneIff | app.js:136-138 | an epic's done count equals its total exactly when every counted story is done |
| Progress.CapFullyDone | app.js:129-145 | a capability's done count equals its total exactly when every counted story of every linked epic is done |
| Progress.CapDoneIff | app.js:143-145 | a capability is `done` exactly when it has a counted story and all of them are done |
| Progress.EpicSomeIff | app.js:133-140 | an epic's done count is positive exactly when some counted story is done, and its in-progress count exactly when some counted story is under way and not done |
| Progress.CapStartedIff | app.js:129-142 | a capability has a positive done or in-progress count exactly when some linked epic has a done or under-way story |
| Progress.CapInProgressIff | app.js:143-146 | a capability is `in-progress` exactly when it has a counted story, not all of them done, and one of them done or under way |
| Progress.StoriesForEpic | app.js:702-707 | the stories of an epic are entries of the mapping that `computeProgress` counts for it |
| Progress.StoriesAreCounted | app.js:702-707 | there are as many stories as `computeProgress` counts, and every counted entry is among them |
| Progress.StoriesForEpicAppend | app.js:704-706 | the stories come out in key order |
| Progress.TallyOf | app.js:194-202 | done ≤ total for epics and stories, and epics + stories ≤ number of keys |
| Progress.TallyCoversEntries | app.js:194-202 | epic keys, story keys and bookkeeping keys together account for every key exactly once |
| Progress.UpdateMetrics | app.js:194-202 | the header loop computes the tally |
| Progress.DashboardTallies | app.js:300-316 | the dashboard's two loops compute the same tally as the header |

## Left out

- Exceptions: `safeParse` (parsers.js:7-14) catches exceptions and substitutes its fallback. The catch is not modelled. The guarded bodies are total functions and methods here and always return a record, so the fallback case does not arise.
- File reading, console output and process exit in test/run-parsers.mjs are not modelled. Its fixture files are not part of this model.
- Rendering, DOM, events, `fetch`, dates, local storage and theme switching are not modelled: they are presentation and I/O.
- The DOM writes of `updateMetrics`/`renderDashboard` and the percentages (`Math.round(done / total * 100)`) are left out. They are float arithmetic. Only the integer counts are modelled.
- YAML parsing (js-yaml) is not modelled. The roadmap and sprint documents arrive as the parsed value or as key/status pairs.
- Themes.StripEmojiCounts: text is a sequence of code points, where JavaScript strings are UTF-16 code units. The theme emoji class (app.js:111) has no `u` flag, so in the source it is a class over code units: it also holds the lead surrogates D83C, D83D and D83E and the trail surrogates of the listed emoji. The source therefore also removes the lead half of every other emoji from U+1F000 to U+1FBFF, and the trail half of an unlisted emoji that shares it with a listed one, leaving lone surrogates in the theme name. The model removes exactly the 11 listed code points and keeps every other emoji whole.
- Requirements.FoldedIsPlain: NFD normalisation is modelled by a Latin-1 decomposition table (base letter plus removed mark), not the full Unicode decomposition tables.
- Text.Lower, Text.Upper: case mapping covers ASCII and Latin-1 plus the few special mappings of that range (dotted I, dotless i, long s, sharp s, ÿ, µ), not the full Unicode case tables.
- Requirements.NormalizePersona: idempotence on its own output is not proved.
- Numbers are integers. JavaScript numbers that are not integers (fractions, NaN, infinities) are not represented, so `typeof priority === 'number'` is modelled as an integer check.
- `parseInt` of a very long numeral loses precision in JavaScript. The model keeps the exact value.
- Status values in `development_status` are modelled as strings. `String(x)` of non-string values in `computeProgress` is not modelled.
- `Object.keys` lists integer-like keys first, in numeric order. The model takes the mapping's key order as given.
- How `computeProgress`'s callers take `cap.id` and `cap.links.epics` out of the parsed roadmap is not modelled. The input is a sequence of (id, epic keys) records, and the map is keyed by the id as a string.
- Epics.Titled: each line is treated on its own after `split('\n')`. A `\r` left at the end of a CRLF line makes `.+$` fail; Epics.CarriageReturnHidesHeading states this rather than modelling CRLF input as line breaks.
- The kanban render that calls `statusToColumn` and `getStoriesForEpic` is not modelled. Only those two helpers are.

## Notes on the source

- `parseTableRows` starts `currentSection` as `''`. Items before the first `###` heading therefore carry an empty section (Requirements.ScanSection, Requirements.RowsOfOrigin).
- `computeProgress` lower-cases a status before comparing it with `done`. The header and dashboard tallies compare with `=== 'done'` strictly, so `Done` counts as done for a capability's progress but not in the tallies. Progress.IsDone and the tally functions keep the two comparisons apart.
- A persona written with a combining accent (`Médico`) passes `isPersonaValue`. `normalizePersona` gives it an empty name, so a 6-column row reads it as a persona column yet records no persona (Requirements.DecomposedPersona).
- Counters of `parseRoadmapYamlFromObject` (parsers.js:268-280) test `typeof (c.progress && c.progress.stories_total) === 'number'` but then read `c.progress.stories_total`. When `progress` is the number 0 the test passes on the 0 itself, so the three counters come out `undefined` instead of 0 (Roadmap.Counter, Roadmap.NormalizeCapability).
