# NRT ruleset macro engine — a Dafny model

The NRT ruleset tool turns an uploaded Excel workbook into Siebel DVM ruleset
XML documents. This project models the engine behind it and proves
properties of that model. The modelled parts are:

- **Macro definitions** (`parser.ts`). These are VBA-style `.md` files declaring
  `Const gcsXxx As String = "…"` and `Const gcbOutLoop As Boolean = True|False`.
  The names are looked up in a fixed table of 16 keys. The last matching
  declaration of a key wins.
- **Auto-detection** (`auto-detect.ts`). Every listed macro whose `xlSheet` names
  a sheet of the workbook is executed. The others are skipped with a reason.
- **The executor** (`executor.ts`). For every comma-separated filter value of the
  release there is one partition; the wildcard `%` partition takes the rows no
  named value takes (with no named value, every row whose filter cell is not
  blank). Each partition's document is a header, an optional
  `<Loop>`, one `<List>` block per sequence pass, and the close. Each `<List>`
  holds the rows that the row scanner of `helpers.ts` accepts.
- **The helpers** (`helpers.ts`). They cover the XML fragments, the
  default-value specification `BS,Field,x,Value|…`, the column mapping, the row
  scanner with its `=`/`!` filters, the sequence tab and the three accumulator
  lists.
- **The fallback converter** of the process route. When no macro applies, this
  route converts the first sheet 1:1. It finds a header row, cleans the headers
  into tag names, drops empty rows and writes `<excel-data>`. The same route
  supplies the repository URL of the environment, the new-file git diff and
  the `--stat` line.
- **The line-aligned preview diff** of the diff route, and its preview of a file
  that does not exist yet.

Modules, one per file:

| module | file | what it holds |
|---|---|---|
| `Wrappers` | wrappers.dfy | `Option`, `Result` |
| `Seqs` | seqs.dfy | flat-map and first-match folds with their lemmas |
| `Strings` | strings.dfy | `split`/`join`/`trim`/`indexOf`/`replace`, ASCII lower-casing, decimal rendering |
| `Sheets` | sheets.dfy | cells, worksheets with their declared range, workbooks |
| `XmlEscape` | escape.dfy | `escapeXml` and its decoding |
| `Helpers` | helpers.dfy | `helpers.ts` |
| `Executor` | executor.dfy | `executor.ts` |
| `MacroParser` | parser.dfy | `parser.ts` |
| `AutoDetect` | autodetect.dfy | `auto-detect.ts` |
| `FallbackConverter` | fallback.dfy | the pure helpers of the process route |
| `LineDiff` | linediff.dfy | `generateDiff` and the new-file preview of the diff route |

Each loop of the source is a Dafny `method` with a loop. Each method is proved
equal to a specification function, and the lemmas state what the source
promises about those functions. The three accumulator lists are fields of the
class `Helpers.Accumulator`.

## Model

| member | source | states |
|---|---|---|
| Sheets.CellString | src/lib/macros/helpers.ts:159 | `String(v \|\| '')` is empty exactly for the falsy cells: missing, `''`, `0` and `false` |
| Strings.Split | src/lib/macros/helpers.ts:109 | `split` never yields an empty list; the empty string splits to `['']` |
| Strings.SplitPiecesFree | src/lib/macros/helpers.ts:109 | no piece of a split holds the separator |
| Strings.JoinSplit | src/lib/macros/helpers.ts:109 | joining the pieces of a split with its separator gives the string back |
| Strings.SplitJoin | src/lib/macros/executor.ts:62 | splitting a join of separator-free pieces gives the pieces back |
| Strings.Trim | src/lib/macros/helpers.ts:115 | `trim()` is no longer than its input and has no whitespace at either end |
| Strings.TrimSlice | src/lib/macros/helpers.ts:115 | `trim()` is the slice of its input between a run of leading and a run of trailing whitespace, so it removes only whitespace at the ends |
| Strings.TrimAll | src/lib/macros/helpers.ts:149 | `map(f => f.trim())` trims every piece and keeps the count |
| Strings.IndexOf | src/lib/macros/executor.ts:52 | `indexOf` gives the first position holding the name, and -1 exactly when it is absent |
| Strings.ReplaceFirst | src/lib/macros/executor.ts:89 | `replace('%', x)` replaces only the first `%`, by `x` with the patterns `$$`, `$&`, `` $` `` and `$'` expanded; a string without `%` is unchanged |
| Strings.ExpandPlain | src/lib/macros/executor.ts:162 | a replacement without `$` is inserted as written |
| Strings.ReplaceFirstPlain | src/lib/macros/executor.ts:89 | with no `$` in `x`, the first `%` is replaced by exactly `x` |
| Strings.ReplaceFirstPatterns | src/lib/macros/executor.ts:162 | `$$` in the replacement inserts one `$`, and `$&` puts the `%` back |
| Strings.NatToStringRoundTrip | src/app/api/nrt-ruleset/process/route.ts:495 | the decimal rendering of a row or column number reads back as that number |
| Strings.NatToStringInjective | src/app/api/nrt-ruleset/process/route.ts:495 | distinct numbers render differently, so generated `column_N` tags are distinct |
| XmlEscape.EscapeCell | src/app/api/nrt-ruleset/process/route.ts:545 | a falsy cell value is written as the empty string |
| XmlEscape.EscapeXmlNoRawMarkup | src/lib/macros/helpers.ts:127-135 | escaped text holds no raw `<`, `>`, `"` or `'` |
| XmlEscape.EscapeXmlPlain | src/app/api/nrt-ruleset/process/route.ts:577-586 | text without any of the five reserved characters comes back unchanged |
| XmlEscape.EscapeXmlRoundTrip | src/lib/macros/helpers.ts:127-135 | decoding the five entity references gives the original text (`&` is replaced first) |
| XmlEscape.EscapeXmlInjective | src/app/api/nrt-ruleset/process/route.ts:577-586 | distinct texts escape to distinct strings |
| Helpers.XmlCheckAddEmpty | src/lib/macros/helpers.ts:82-91 | the stub contributes nothing, whatever its arguments |
| Helpers.XmlCloseIgnoresFields | src/lib/macros/helpers.ts:96-101 | the close ignores its field list, so a `,Loop` suffix does not close `<Loop>` |
| Helpers.ParseGroup | src/lib/macros/helpers.ts:112-118 | a group with at least three comma pieces yields (trimmed piece 1, trimmed piece 3, else trimmed piece 2, else `-`); a shorter group yields nothing |
| Helpers.ParseDefaultValues | src/lib/macros/helpers.ts:107-122 | the loop returns the defaults of the groups in order, at most one per `\|`-group |
| Helpers.DefaultsWellFormed | src/lib/macros/helpers.ts:113-117 | every parsed default has a non-empty value and a field name free of `,` and `\|` |
| Helpers.DefaultsConcat | src/lib/macros/helpers.ts:109-119 | two specifications joined by `\|` parse to the defaults of the first followed by those of the second |
| Helpers.Rows | src/lib/macros/helpers.ts:60-66 | one rule per text entry; a missing in/out entry is the empty string |
| Helpers.AppendDefaults | src/lib/macros/helpers.ts:48-53 | the defaults loop appends each default's element, skipping the value `-` |
| Helpers.AppendRules | src/lib/macros/helpers.ts:60-67 | the rules loop appends one rule element per text entry, in order |
| Helpers.XmlAddList | src/lib/macros/helpers.ts:30-77 | the list block: head, defaults, `<Rules>` only when there are rows, close |
| Helpers.ReadValue | src/lib/macros/helpers.ts:63 | reading one element value consumes at least the closing tag |
| Helpers.ParseRule | src/lib/macros/helpers.ts:61-66 | reading one rule element consumes input |
| Helpers.EscapedHasNoLt | src/lib/macros/helpers.ts:130-131 | an escaped value holds no `<`, so it cannot run into the closing tag |
| Helpers.ReadValueOf | src/lib/macros/helpers.ts:63-65 | an escaped value followed by its closing tag reads back as the original value |
| Helpers.ParseRuleXml | src/lib/macros/helpers.ts:61-66 | a rule element reads back as the row it was written from |
| Helpers.ParseRulesText | src/lib/macros/helpers.ts:60-70 | the rule elements read back, in order, as the rows written |
| Helpers.ListXmlRules | src/lib/macros/helpers.ts:39-77 | after the head, the defaults and `<Rules>`, the block decodes to exactly the rows written |
| Helpers.ListXmlNoRules | src/lib/macros/helpers.ts:56-74 | with no rows the block holds no `<Rules>` element |
| Helpers.HeaderRowSpec | src/lib/macros/helpers.ts:154-163 | the header row is the first row whose column-0 text is the first Excel field; it is row 0 when no row holds it |
| Helpers.ColumnIndexSpec | src/lib/macros/helpers.ts:168-179 | a field's column is the leftmost header cell holding it, and -1 exactly when none does |
| Helpers.FindHeaderRow | src/lib/macros/helpers.ts:157-163 | the loop with `break` finds the header row |
| Helpers.FindColumn | src/lib/macros/helpers.ts:168-179 | the inner loop finds the column of one field, or -1 |
| Helpers.InitColumnMappings | src/lib/macros/helpers.ts:140-187 | the trimmed field lists and one column per Excel field |
| Helpers.FirstPassingSpec | src/lib/macros/helpers.ts:232-250 | the scan stops at the first row from the start row that the filter admits, or fails when none in range does |
| Helpers.ExtractInList | src/lib/macros/helpers.ts:259-268 | `inList` joins the cells of the resolved input fields and skips unresolved names |
| Helpers.ExtractOutList | src/lib/macros/helpers.ts:271-278 | `outList` joins the cells of the resolved output columns |
| Helpers.ExtractRow | src/lib/macros/helpers.ts:252-278 | the three texts extracted from the matching row |
| Helpers.FilterAdmits | src/lib/macros/helpers.ts:224-250 | `!` excludes the listed trimmed values, `=` admits only the value, any other filter admits everything |
| Helpers.FindPassingRow | src/lib/macros/helpers.ts:232-282 | the row loop with its `continue`s returns the first passing row, or -1 |
| Helpers.GetFilteredFields | src/lib/macros/helpers.ts:192-291 | the scanner's result from the start row |
| Helpers.FilteredFieldsSpec | src/lib/macros/helpers.ts:284-290 | `nextRow` always advances; `hasMore` holds exactly when a passing row lies before the last row; when no row passes, the texts are empty and `nextRow` is start + 1 |
| Helpers.InPartsResolved | src/lib/macros/helpers.ts:261-267 | `inList` has at most one part per name, exactly one when all names resolve, and none when no name does |
| Helpers.ReadSeqFromTab | src/lib/macros/helpers.ts:296-320 | a missing sheet gives `''`; otherwise the non-empty trimmed column-0 values are joined by `;` |
| Helpers.Column0ValuesNonEmpty | src/lib/macros/helpers.ts:313-316 | only non-empty values are collected |
| Helpers.SequencePasses | src/lib/macros/executor.ts:62 | there is always at least one sequence pass |
| Helpers.SequencePassesFromTab | src/lib/macros/executor.ts:61-62 | the passes are the tab's values top to bottom, or one empty pass when it has none |
| Helpers.Accumulator.constructor | src/lib/macros/executor.ts:102-104 | three empty parallel lists |
| Helpers.Accumulator.InitClearList | src/lib/macros/helpers.ts:341-349 | all three lists are emptied |
| Helpers.Accumulator.BuildList | src/lib/macros/helpers.ts:325-336 | one entry is appended to each list, and the lists stay equal in length |
| Executor.OutColumnIndices | src/lib/macros/executor.ts:49-58 | one column per output field |
| Executor.ResolveOutColumns | src/lib/macros/executor.ts:50-58 | each output field gets the column of its position among the logical fields, or -1 |
| Executor.NonWildcard | src/lib/macros/executor.ts:81 | `filter(v => v.trim() !== '%')` keeps at most every piece |
| Executor.NonWildcardMembers | src/lib/macros/executor.ts:81 | the kept pieces are exactly those whose trim is not `%` |
| Executor.NamedValues | src/lib/macros/executor.ts:81 | the trimmed kept pieces are the trimmed values other than `%` |
| Executor.ScanFromPassing | src/lib/macros/executor.ts:109-135 | the scan loop keeps every row from row 1 that passes the filter, in order, except that the sheet's last row is dropped when all three of its texts are empty |
| Executor.SequencePass | src/lib/macros/executor.ts:100-146 | one pass: fresh lists, the scan loop, and the list block numbered `seqIndex + 1` |
| Executor.AddPasses | src/lib/macros/executor.ts:99-147 | the list blocks of all passes, in pass order |
| Executor.Partition | src/lib/macros/executor.ts:75-86 | `%` gives the name `''` and the filter `!` + other values; a value `v` gives `-v` and `=v` |
| Executor.StartDocument | src/lib/macros/executor.ts:89-96 | the header with its name from `outDVM.replace('%', name)`, `$` patterns in the name expanded; then `<Loop>` and the `,Loop` suffix when the loop flag is set |
| Executor.ProcessFilterValue | src/lib/macros/executor.ts:74-168 | one partition's successful result |
| Executor.FilterValueArray | src/lib/macros/executor.ts:65-70 | one trimmed filter value per comma piece of the release's values |
| Executor.ScanContextOf | src/lib/macros/executor.ts:42-58 | the column mapping and the output columns of a present worksheet |
| Executor.ProcessFilterValues | src/lib/macros/executor.ts:74-169 | one result per filter value, in order |
| Executor.ExecuteMacro | src/lib/macros/executor.ts:23-180 | the whole macro run on a workbook |
| Executor.PartitionResults | src/lib/macros/executor.ts:162-168 | every partition result succeeds, with no error, and is named `outFile.replace('%', name)` plus `.xml`, `$` patterns in the name expanded |
| Executor.PlainPartitionNames | src/lib/macros/executor.ts:89-90 | for a value without `$`, the file name and the header's ruleset name have their first `%` replaced by exactly the partition suffix |
| Executor.ExecutionResults | src/lib/macros/executor.ts:36-39 | a missing worksheet gives exactly one failed result; otherwise there is one result per filter value |
| Executor.ReleaseExamples | src/lib/macros/executor.ts:66 | `202109` and `R1.0…` releases take the old values; `R2.1` and `R1` do not |
| Executor.NamedPartition | src/lib/macros/executor.ts:84-85 | a named value `v` admits exactly the cell text `v` |
| Executor.WildcardAdmits | src/lib/macros/executor.ts:78-82 | when there is at least one named value, the `%` filter admits exactly the texts not among the trimmed named values |
| Executor.WildcardOnly | src/lib/macros/executor.ts:78-82 | when every value is `%`, the filter is a bare `!`, which admits every text except the empty one |
| Executor.WildcardComplement | src/lib/macros/executor.ts:74-86 | when there is at least one named value, the `%` partition admits exactly the texts that no named partition admits |
| Executor.DocumentFrame | src/lib/macros/executor.ts:89-159 | every document starts with its header (then `<Loop>` when set) and ends with the close |
| MacroParser.MapConstant | src/lib/macros/parser.ts:76-97 | a name maps to a key exactly when it is in the case-sensitive table |
| MacroParser.MappingFacts | src/lib/macros/parser.ts:77-96 | only `gcbOutLoop` names the loop flag, and lookups are case-sensitive |
| MacroParser.ParseDeclarations | src/lib/macros/parser.ts:47-64 | the two scanning loops: the String pass, then the Boolean pass |
| MacroParser.StringsAppliedSpec | src/lib/macros/parser.ts:47-55 | the String pass sets each key to its last matched literal and never sets the loop flag |
| MacroParser.BooleansAppliedSpec | src/lib/macros/parser.ts:58-64 | the Boolean pass touches only the loop flag, and takes its last matched declaration |
| MacroParser.LastDeclarationWins | src/lib/macros/parser.ts:47-55 | the last matched String declaration of a key wins; a key without one stays absent |
| MacroParser.OutLoopFromBooleans | src/lib/macros/parser.ts:58-64 | the loop flag is set only by a Boolean `gcbOutLoop`, and is true only for the literal `True` |
| MacroParser.ParseMacroFile | src/lib/macros/parser.ts:34-71 | the name is the basename without `.md`; the configuration comes from the declarations; the text is kept unchanged |
| MacroParser.LoadMacro | src/lib/macros/parser.ts:117-125 | an unreadable file gives nothing; otherwise the parsed definition |
| MacroParser.LoadedName | src/lib/macros/parser.ts:119 | a macro loaded by a plain name carries that name |
| MacroParser.LastSegmentAfter | src/lib/macros/parser.ts:36 | the basename of `dir/file` is `file` |
| MacroParser.MacroNames | src/lib/macros/parser.ts:105-107 | at most one name per directory entry |
| MacroParser.MacroNamesMembers | src/lib/macros/parser.ts:105-107 | the names are exactly the `.md` entries other than `all.md`, with the extension removed |
| AutoDetect.OrDefault | src/lib/macros/auto-detect.ts:55-69 | an absent or empty setting takes the fallback; any other is kept |
| AutoDetect.ConfigDefaults | src/lib/macros/auto-detect.ts:54-71 | an empty definition gets empty settings, return code `1000` and no loop |
| AutoDetect.MacroConfigOf | src/lib/macros/auto-detect.ts:54-71 | the defaulted settings of a loaded definition |
| AutoDetect.VisitMacro | src/lib/macros/auto-detect.ts:38-77 | an unloaded macro, or one without a sheet, is skipped "no xlSheet config"; a missing sheet is skipped "not found"; otherwise the macro is executed and its results are appended |
| AutoDetect.AutoDetectAndExecute | src/lib/macros/auto-detect.ts:19-94 | the loop over the listed macros |
| AutoDetect.ExecutedOrSkipped | src/lib/macros/auto-detect.ts:37-51 | every listed name is executed or skipped, never both; the executed names are exactly the applicable ones |
| AutoDetect.ResultsOfExecuted | src/lib/macros/auto-detect.ts:73-77 | the results are those of the executed macros, concatenated in execution order |
| AutoDetect.AllResultsSucceed | src/lib/macros/auto-detect.ts:73-77 | when the sheet names are the workbook's sheets, every result is a success |
| AutoDetect.ExecutedSucceeds | src/lib/macros/auto-detect.ts:48-51 | an executed macro's worksheet is present, so its results succeed |
| FallbackConverter.HeaderRowIndexSpec | src/app/api/nrt-ruleset/process/route.ts:474-486 | the header row is the first row whose lower-cased, trimmed first cell contains a keyword; it is 0 when none does |
| FallbackConverter.IsHeaderRow | src/app/api/nrt-ruleset/process/route.ts:477-481 | the keyword test of one row |
| FallbackConverter.FindHeaderRowIndex | src/app/api/nrt-ruleset/process/route.ts:474-486 | the search loop with `break` |
| FallbackConverter.KeepTagChars | src/app/api/nrt-ruleset/process/route.ts:500 | only ASCII letters, digits, whitespace and `-` survive |
| FallbackConverter.DropSpaces | src/app/api/nrt-ruleset/process/route.ts:501 | dropping a run of whitespace leaves a suffix that does not start with whitespace |
| FallbackConverter.CleanHeaders | src/app/api/nrt-ruleset/process/route.ts:493-504 | one tag per header, each cleaned with its own index |
| FallbackConverter.CollapseSpacesChars | src/app/api/nrt-ruleset/process/route.ts:500-501 | after collapsing, only letters, digits, `-` and `_` remain |
| FallbackConverter.CleanHeaderSafe | src/app/api/nrt-ruleset/process/route.ts:493-504 | every tag is made of lower-case letters, digits, `-` and `_` |
| FallbackConverter.CleanHeaderBlank | src/app/api/nrt-ruleset/process/route.ts:494-495 | a falsy header (missing, `''`, `0`, `false`) at index i becomes `column_` followed by the decimal i+1 |
| FallbackConverter.CleanHeaderBlankDistinct | src/app/api/nrt-ruleset/process/route.ts:494-495 | falsy headers at different indices get different tags |
| FallbackConverter.KeepTagCharsKeeps | src/app/api/nrt-ruleset/process/route.ts:500 | text made only of kept characters is unchanged |
| FallbackConverter.CollapseSpacesNone | src/app/api/nrt-ruleset/process/route.ts:501 | text without whitespace is unchanged |
| FallbackConverter.DropSpacesGap | src/app/api/nrt-ruleset/process/route.ts:501 | a whitespace run in front is removed and nothing else is |
| FallbackConverter.CollapseSpacesLeadingGap | src/app/api/nrt-ruleset/process/route.ts:501 | a leading whitespace run becomes one `_` |
| FallbackConverter.CollapseSpacesGap | src/app/api/nrt-ruleset/process/route.ts:501 | a whitespace run between two words becomes exactly one `_` |
| FallbackConverter.CleanHeaderWord | src/app/api/nrt-ruleset/process/route.ts:498-503 | a header of letters, digits and `-` is lower-cased, with `col_` in front when it starts with a digit |
| FallbackConverter.DataRows | src/app/api/nrt-ruleset/process/route.ts:507-509 | filtering keeps at most every row |
| FallbackConverter.DataRowsMembers | src/app/api/nrt-ruleset/process/route.ts:507-509 | the kept rows are exactly the rows with a cell other than `''` and missing |
| FallbackConverter.TableOfSpec | src/app/api/nrt-ruleset/process/route.ts:474-509 | a table exists exactly when the sheet has a row; there is one tag per header cell, and the data rows are the non-empty rows below the header row |
| FallbackConverter.ReadTable | src/app/api/nrt-ruleset/process/route.ts:474-509 | the header search, header cleaning and row filter |
| FallbackConverter.WriteRow | src/app/api/nrt-ruleset/process/route.ts:529-550 | one `<row>` element with one element per tag |
| FallbackConverter.AppendRows | src/app/api/nrt-ruleset/process/route.ts:528-551 | the row elements appended in order, numbered from 1 |
| FallbackConverter.WriteDocument | src/app/api/nrt-ruleset/process/route.ts:512-556 | the metadata, the rows and the close |
| FallbackConverter.GenerateXmlFromExcel | src/app/api/nrt-ruleset/process/route.ts:512-573 | the document for a readable sheet; the failure document otherwise |
| FallbackConverter.TagsNeedNoEscaping | src/app/api/nrt-ruleset/process/route.ts:544 | escaping a cleaned tag changes nothing |
| FallbackConverter.CellValueRoundTrip | src/app/api/nrt-ruleset/process/route.ts:535-545 | a written cell value holds no raw markup and decodes to the cell's text, or to the date text for a date serial |
| FallbackConverter.GenerateNewFileDiff | src/app/api/nrt-ruleset/process/route.ts:591-603 | the new-file header with the line count, then one `+line` per line |
| FallbackConverter.GenerateGitDiff | src/app/api/nrt-ruleset/process/route.ts:589-622 | empty old content gives the new-file diff; equal contents give "No changes detected."; anything else goes to the patch library |
| FallbackConverter.ReadAddedLine | src/app/api/nrt-ruleset/process/route.ts:601 | reading one added line consumes input |
| FallbackConverter.ReadAddedLineBack | src/app/api/nrt-ruleset/process/route.ts:601 | an added line reads back as its line |
| FallbackConverter.NewFileDiffRoundTrip | src/app/api/nrt-ruleset/process/route.ts:591-603 | the header counts the lines, and the `+` lines joined by newlines give the new content back |
| FallbackConverter.CountChanges | src/app/api/nrt-ruleset/process/route.ts:642-648 | insertions sum the added counts; deletions sum the removed counts that are not also added; a missing count is 0 |
| FallbackConverter.GenerateDiffStat | src/app/api/nrt-ruleset/process/route.ts:625-670 | the `--stat` text of two contents and their changes |
| FallbackConverter.DiffStatNoChanges | src/app/api/nrt-ruleset/process/route.ts:626-654 | the stat is "No changes detected." exactly when the old content is non-empty and either equal to the new one or without counted changes |
| FallbackConverter.CountedAgrees | src/app/api/nrt-ruleset/process/route.ts:660-667 | a count takes the singular word exactly when it is 1 |
| FallbackConverter.NewFileStatPlural | src/app/api/nrt-ruleset/process/route.ts:629 | as written, the new-file stat always says `insertions(+)`, even for one line |
| FallbackConverter.NewFileStatAgreeingSpec | src/app/api/nrt-ruleset/process/route.ts:629 | the corrected stat says `insertion(+)` for one line; it differs from the written one exactly then |
| FallbackConverter.OrElse | src/app/api/nrt-ruleset/process/route.ts:114-120 | an empty setting takes the built-in URL |
| FallbackConverter.ParseGithubUrl | src/app/api/nrt-ruleset/process/route.ts:123-128 | `https://github.com/owner/name.git` parses to (owner, name) |
| FallbackConverter.BuiltInRepos | src/app/api/nrt-ruleset/process/route.ts:111-128 | with no settings every environment's URL parses, with owner `K3NTAW` |
| FallbackConverter.ConfiguredRepo | src/app/api/nrt-ruleset/process/route.ts:112-121 | a configured URL replaces the built-in one of its environment |
| FallbackConverter.RepoUrlCaseInsensitive | src/app/api/nrt-ruleset/process/route.ts:112 | the environment name is matched case-insensitively |
| FallbackConverter.SkipNoMatch | src/app/api/nrt-ruleset/process/route.ts:123 | the leftmost match is found after positions where the pattern fails |
| FallbackConverter.ParseRepoUrlNoHost | src/app/api/nrt-ruleset/process/route.ts:123-126 | a URL without `github.com/` is rejected with "Invalid repository URL format" |
| LineDiff.AppendPosition | src/app/api/nrt-ruleset/diff/route.ts:131-136 | equal lines give one context line; otherwise the non-empty old line is written removed and the non-empty new line added |
| LineDiff.GenerateDiff | src/app/api/nrt-ruleset/diff/route.ts:120-140 | the loop over the longer text's positions, with missing lines read as `''` |
| LineDiff.DiffSame | src/app/api/nrt-ruleset/diff/route.ts:131-132 | a text compared with itself gives every line as context, in order |
| LineDiff.DiffLineCount | src/app/api/nrt-ruleset/diff/route.ts:125-137 | the diff has between one and two lines per position of the longer text |
| LineDiff.DiffBeyondOld | src/app/api/nrt-ruleset/diff/route.ts:128-135 | past the end of the old text each non-empty new line is written as added |
| LineDiff.Plussed | src/app/api/nrt-ruleset/diff/route.ts:76 | one `+`-prefixed line per line |
| LineDiff.NewFilePreviewLines | src/app/api/nrt-ruleset/diff/route.ts:76 | the preview has one line per content line: the first starts `+ +`, each other starts `+` |

## Left out

- Reading the upload and the workbook (`file.arrayBuffer`, `XLSX.read`, `sheet_to_json`) is not modelled. A workbook is a map from sheet name to a grid of cells with its declared last row and column. The fallback converter takes the rows of the first sheet as a parameter, and `None` stands for a workbook that could not be read.
- Cell values are `Blank`, `Text`, integral `Number` and `Boolean`. Fractional numbers are not modelled.
- Sheets.CellString: a number is always written as plain decimal digits. JavaScript writes numbers of magnitude 1e21 and above with an exponent (`1e+21`), and rounds integers above 2^53 to the nearest double; neither is modelled.
- The Excel date serial is not converted to `DD.MM.YYYY`; the text is a parameter `dateText`. The test that picks date cells (the tag contains `date`, the value is a number above 40000) is modelled.
- The regular expressions of `parseMacroFile` are abstracted. The file is given together with its candidate declarations: kind, name and literal, in file order. The model applies the literal and name conditions each pattern imposes.
- File-system access in `listMacros` and `loadMacro` is a parameter. A directory listing or file that cannot be read is `None`; the console logging is not modelled.
- `executeMacro` never throws once its inputs are read. The `catch` of `autoDetectAndExecuteMacros` (auto-detect.ts:78-86) therefore cannot be reached and is not modelled. Only the missing-worksheet error of the executor is modelled.
- The environment and story number passed to `executeMacro` are unused there and are left out.
- In `outColumnIndices`, a position past the column indices reads as `undefined`. It is modelled as -1, since the only test on it (`>= 0`) rejects both.
- `path.basename` is modelled for `/`-separated paths. For a file named exactly `.md`, the extension is kept, as the function does.
- Property lookups in JavaScript objects (`mapping[name]`, `workbook.Sheets[name]`) are modelled as exact string lookups. Inherited prototype keys such as `constructor` are not modelled.
- `toLowerCase` is modelled on ASCII letters only. Other characters are unchanged.
- `diff.createTwoFilesPatch` and `diff.diffLines` are a foreign library. The patch is the opaque outcome `LibraryPatch(old, new)`, and the changes the library would report are a parameter of the stat.
- The error message of a failed Excel read is a parameter of the failure document.
- The metadata values of the fallback document (file name, sheet, release, environment, story number) are written unescaped, as in the source. No escaping property is claimed for them.
- The Octokit calls, environment variables, audit logging, HTTP handlers and the "No file provided" error of the routes are not modelled. The repository settings are parameters of `RepoUrl`.
- The placeholder `generateXMLFromExcel` of the diff route is not part of this model.

## Findings

| source | as written | input that shows it | evidently intended | confidence | as-written member | corrected member |
|---|---|---|---|---|---|---|
| src/app/api/nrt-ruleset/process/route.ts:629 | the new-file stat always writes `insertions(+)` | new content without a newline (one line) gives ` 1 file changed, 1 insertions(+)` | `1 insertion(+)`, as the changed-file branch writes at lines 660-667 | not executed | FallbackConverter.NewFileStatPlural | FallbackConverter.NewFileStatAgreeingSpec |
