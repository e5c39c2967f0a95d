/**
 * `executeMacro`: one ruleset document per filter partition. The release
 * picks the old or the new filter-value list; each value becomes a partition
 * (`=v`, or `!` and the other values for `%`); each partition document holds
 * one list block per sequence pass, and each pass scans the worksheet from
 * row 1 with the first-matching-row scanner.
 */
module Executor {
  import opened Wrappers
  import opened Seqs
  import opened Strings
  import opened Sheets
  import opened Helpers

  /** The settings of one macro, as the definition file and the defaults give them. */
  datatype MacroConfig = MacroConfig(
    xlSheet: string, allXLFields: string, allFields: string, inXLText: string, inXLFilter: string,
    inXLFilterValuesOld: string, inXLFilterValuesNew: string, inFields: string, inFieldsSeqTab: string,
    outDVM: string, outFile: string, outReturnCode: string, outBC: string, outFields: string,
    outDefault: string, outLoop: bool)

  /** One generated document, or the failure that replaced all of them. */
  datatype MacroResult = MacroResult(xmlContent: string, fileName: string, success: bool, error: Option<string>)

  /** The message of the error thrown when the configured worksheet is missing. */
  function MissingSheetMessage(sheet: string): string
  {
    "Worksheet \"" + sheet + "\" not found in Excel file"
  }

  /** The single result the catch block returns. */
  function Failure(message: string): MacroResult
  {
    MacroResult("", "", false, Some(message))
  }

  // ================================================================ output columns

  /**
   * The column of each output field: the column index at its position among
   * the logical fields, or -1 when it is not one of them (a position past the
   * column indices reads as undefined, which no `>= 0` test admits).
   */
  function OutColumnIndices(fields: seq<string>, columnIndices: seq<int>, outFields: seq<string>): (r: seq<int>)
    ensures |r| == |outFields|
  {
    seq(|outFields|, k requires 0 <= k < |outFields| =>
      var i := IndexOf(fields, outFields[k]);
      if i >= 0 then ColAt(columnIndices, i) else -1)
  }

  /** The output-column loop of `executeMacro`. */
  method ResolveOutColumns(fields: seq<string>, columnIndices: seq<int>, outFields: seq<string>)
    returns (outColumnIndices: seq<int>)
    ensures outColumnIndices == OutColumnIndices(fields, columnIndices, outFields)
  {
    outColumnIndices := [];
    for i := 0 to |outFields|
      invariant outColumnIndices == OutColumnIndices(fields, columnIndices, outFields[..i])
    {
      var fieldIndex := IndexOf(fields, outFields[i]);
      if fieldIndex >= 0 {
        outColumnIndices := outColumnIndices + [ColAt(columnIndices, fieldIndex)];
      } else {
        outColumnIndices := outColumnIndices + [-1];
      }
      assert outFields[..i + 1][..i] == outFields[..i];
    }
    assert outFields[..|outFields|] == outFields;
  }

  /** What the scanner reads for a configuration whose worksheet is present. */
  function ContextOf(wb: Workbook, config: MacroConfig): ScanContext
    requires config.xlSheet in wb
  {
    var ws := wb[config.xlSheet];
    var m := ColumnMappingOf(config.allXLFields, config.allFields, ws);
    var outFields := TrimAll(Split(config.outFields, ','));
    ScanContext(ws, config.inXLText, m.xlFields, m.fields, outFields, m.columnIndices,
                OutColumnIndices(m.fields, m.columnIndices, outFields), config.inXLFilter)
  }

  // ================================================================ release and partitions

  /** The old filter values apply to release `202109` and to every release starting with `R1.0`. */
  predicate UseLegacy(release: string)
  {
    release == "202109" || StartsWith(release, "R1.0")
  }

  function FilterValuesFor(config: MacroConfig, release: string): string
  {
    if UseLegacy(release) then config.inXLFilterValuesOld else config.inXLFilterValuesNew
  }

  /** The raw comma pieces whose trim is not `%`, untrimmed and in order. */
  function NonWildcard(pieces: seq<string>): (r: seq<string>)
    ensures |r| <= |pieces|
    decreases |pieces|
  {
    if |pieces| == 0 then []
    else (if Trim(pieces[0]) != "%" then [pieces[0]] else []) + NonWildcard(pieces[1..])
  }

  /** The suffix a partition puts in place of `%` in the ruleset and file names. */
  function FilterName(value: string): string
  {
    if value == "%" then "" else "-" + value
  }

  /** The filter of a partition: `!` and the other values for `%`, else `=` and the value. */
  function FilterFor(filterValues: string, value: string): string
  {
    if value == "%" then "!" + Join(NonWildcard(Split(filterValues, ',')), ',') else "=" + value
  }

  // ================================================================ the scan of one pass

  /**
   * The rows one pass accumulates from `row` on: each scanner answer is kept
   * unless it found nothing more and all three texts are empty, and the scan
   * goes on from `nextRow` while rows remain.
   */
  function ScanFrom(ctx: ScanContext, token: string, filter: string, row: nat): seq<RowTriple>
    decreases ctx.ws.lastRow + 1 - row
  {
    var r := FilteredFields(ctx, token, row, filter);
    if r.hasMore || r.text != "" || r.inList != "" || r.outList != "" then
      FilteredFieldsSpec(ctx, token, row, filter);
      [RowTriple(r.text, r.inList, r.outList)]
        + (if r.hasMore && r.nextRow <= ctx.ws.lastRow then ScanFrom(ctx, token, filter, r.nextRow) else [])
    else []
  }

  /** The rows from `from` up to the last row that pass the filter, in increasing order. */
  function PassingFrom(ctx: ScanContext, filter: string, from: nat): seq<nat>
  {
    AllFrom(PassesAt(ctx, filter), from, ctx.ws.lastRow)
  }

  /** The three texts the scanner extracts from row `q`. */
  function Extract(ctx: ScanContext, token: string, q: nat): RowTriple
  {
    RowTriple(RowText(ctx, q), InList(ctx, token, q), OutList(ctx, q))
  }

  /** The extractions of `rows`, leaving out the last row of the sheet when all three of its texts are empty. */
  function Kept(ctx: ScanContext, token: string, rows: seq<nat>): seq<RowTriple>
    decreases |rows|
  {
    if |rows| == 0 then []
    else
      var t := Extract(ctx, token, rows[0]);
      (if rows[0] == ctx.ws.lastRow && t == RowTriple("", "", "") then [] else [t]) + Kept(ctx, token, rows[1..])
  }

  /**
   * The scan loop keeps, in order, the extraction of every row from `row` on
   * that passes the filter, except that the last row of the sheet is dropped
   * when all three of its texts are empty.
   */
  lemma {:induction false} ScanFromPassing(ctx: ScanContext, token: string, filter: string, row: nat)
    ensures ScanFrom(ctx, token, filter, row) == Kept(ctx, token, PassingFrom(ctx, filter, row))
    decreases ctx.ws.lastRow + 1 - row
  {
    var f := FirstPassing(ctx, filter, row);
    AllFromFirst(PassesAt(ctx, filter), row, ctx.ws.lastRow);
    FilteredFieldsSpec(ctx, token, row, filter);
    if f < 0 {
      assert ScanFrom(ctx, token, filter, row) == [];
    } else {
      var ps := PassingFrom(ctx, filter, row);
      var t := Extract(ctx, token, f);
      var rest := PassingFrom(ctx, filter, f + 1);
      assert ps[0] == f && ps[1..] == rest;
      assert FilteredFields(ctx, token, row, filter) == Fetch(f < ctx.ws.lastRow, f + 1, t.text, t.inList, t.outList);
      assert Kept(ctx, token, ps) == (if f == ctx.ws.lastRow && t == RowTriple("", "", "") then [] else [t]) + Kept(ctx, token, rest);
      if f < ctx.ws.lastRow {
        ScanFromPassing(ctx, token, filter, f + 1);
        assert ScanFrom(ctx, token, filter, row) == [t] + ScanFrom(ctx, token, filter, f + 1);
      } else {
        assert rest == [];
        assert Kept(ctx, token, ps) == (if t == RowTriple("", "", "") then [] else [t]);
      }
    }
  }

  /** The list block of pass `seqIndex`: sequence number `seqIndex + 1` and the rows its scan from row 1 keeps. */
  function PassXml(config: MacroConfig, ctx: ScanContext, token: string, filter: string, seqIndex: nat): string
  {
    ListXml(config.outReturnCode, config.outDefault, seqIndex + 1, ScanFrom(ctx, token, filter, 1))
  }

  /**
   * One sequence pass of `executeMacro`: fresh lists, the scan loop from row
   * 1, and the list block built from what it accumulated.
   */
  method SequencePass(config: MacroConfig, ctx: ScanContext, token: string, filter: string, seqIndex: nat)
    returns (xml: string)
    ensures xml == PassXml(config, ctx, token, filter, seqIndex)
  {
    var acc := new Accumulator();
    acc.InitClearList();
    var row: nat := 1;
    var hasMore := true;
    while hasMore
      invariant acc.Valid()
      invariant hasMore ==> 1 <= row <= ctx.ws.lastRow + 1
      invariant acc.Accumulated() + (if hasMore then ScanFrom(ctx, token, filter, row) else [])
                == ScanFrom(ctx, token, filter, 1)
      decreases if hasMore then ctx.ws.lastRow + 2 - row else 0
    {
      var r := GetFilteredFields(ctx, token, row, filter);
      FilteredFieldsSpec(ctx, token, row, filter);
      if r.hasMore || r.text != "" || r.inList != "" || r.outList != "" {
        ghost var before := acc.Accumulated();
        ghost var rest := if r.hasMore && r.nextRow <= ctx.ws.lastRow then ScanFrom(ctx, token, filter, r.nextRow) else [];
        assert ScanFrom(ctx, token, filter, row) == [RowTriple(r.text, r.inList, r.outList)] + rest;
        acc.BuildList(r.text, r.inList, r.outList);
        ConcatAssoc(before, [RowTriple(r.text, r.inList, r.outList)], rest);
        row := r.nextRow;
        hasMore := r.hasMore && row <= ctx.ws.lastRow;
      } else {
        assert ScanFrom(ctx, token, filter, row) == [];
        hasMore := false;
      }
    }
    assert acc.Accumulated() + [] == acc.Accumulated();
    xml := XmlAddList(config.outBC, config.outReturnCode, config.outDefault, seqIndex + 1,
                      acc.texts, acc.inLists, acc.outLists);
  }

  // ================================================================ one partition document

  /** The list blocks of the first `n` passes, in pass order. */
  function PassesXml(config: MacroConfig, ctx: ScanContext, passes: seq<string>, filter: string, n: nat): string
    requires n <= |passes|
  {
    if n == 0 then "" else PassesXml(config, ctx, passes, filter, n - 1) + PassXml(config, ctx, passes[n - 1], filter, n - 1)
  }

  /** The header, followed directly by `<Loop>` when the loop flag is set. */
  function DocumentHead(config: MacroConfig, value: string): string
  {
    var header := XmlCreate(ReplaceFirst(config.outDVM, '%', FilterName(value)), config.outBC);
    if config.outLoop then header + XmlAddLoop() else header
  }

  /** The field list handed to the close: the input fields, with `,Loop` when the loop flag is set. */
  function CloseFields(config: MacroConfig): string
  {
    config.inFields + (if config.outLoop then ",Loop" else "")
  }

  /** The document of one partition. */
  function DocumentXml(config: MacroConfig, ctx: ScanContext, passes: seq<string>, filterValues: string, value: string): string
  {
    DocumentHead(config, value) + PassesXml(config, ctx, passes, FilterFor(filterValues, value), |passes|)
    + XmlCheckAddEmpty(config.outBC, config.outReturnCode, config.outDefault, |passes| + 1)
    + XmlClose(CloseFields(config))
  }

  /** The result of one partition: its document and its file name. */
  function ResultFor(config: MacroConfig, ctx: ScanContext, passes: seq<string>, filterValues: string, value: string): MacroResult
  {
    MacroResult(DocumentXml(config, ctx, passes, filterValues, value),
                ReplaceFirst(config.outFile, '%', FilterName(value)) + ".xml", true, None)
  }

  function ResultOf(config: MacroConfig, ctx: ScanContext, passes: seq<string>, filterValues: string): string -> MacroResult
  {
    (value: string) => ResultFor(config, ctx, passes, filterValues, value)
  }

  /** The pass loop of one partition. */
  method AddPasses(start: string, config: MacroConfig, ctx: ScanContext, passes: seq<string>, filter: string)
    returns (xml: string)
    ensures xml == start + PassesXml(config, ctx, passes, filter, |passes|)
  {
    xml := start;
    for seqIndex := 0 to |passes|
      invariant xml == start + PassesXml(config, ctx, passes, filter, seqIndex)
    {
      var listXml := SequencePass(config, ctx, passes[seqIndex], filter, seqIndex);
      ConcatAssoc(start, PassesXml(config, ctx, passes, filter, seqIndex), listXml);
      xml := xml + listXml;
    }
  }

  /** The partition of one filter value: its name suffix and its filter. */
  method Partition(filterValues: string, filterValue: string) returns (filterName: string, filter: string)
    ensures filterName == FilterName(filterValue) && filter == FilterFor(filterValues, filterValue)
  {
    filterName := "";
    filter := "";
    if filterValue == "%" {
      var otherValues := Join(NonWildcard(Split(filterValues, ',')), ',');
      filter := "!" + otherValues;
    } else {
      filterName := "-" + filterValue;
      filter := "=" + filterValue;
    }
  }

  /** The header of a partition document, with the loop marker when the loop flag is set. */
  method StartDocument(config: MacroConfig, filterName: string) returns (xml: string, loopSuffix: string)
    ensures xml == (var header := XmlCreate(ReplaceFirst(config.outDVM, '%', filterName), config.outBC);
                    if config.outLoop then header + XmlAddLoop() else header)
    ensures loopSuffix == if config.outLoop then ",Loop" else ""
  {
    var dvmName := ReplaceFirst(config.outDVM, '%', filterName);
    xml := XmlCreate(dvmName, config.outBC);
    loopSuffix := "";
    if config.outLoop {
      xml := xml + XmlAddLoop();
      loopSuffix := ",Loop";
    }
  }

  /** The body of the filter-value loop of `executeMacro`. */
  method ProcessFilterValue(config: MacroConfig, ctx: ScanContext, passes: seq<string>, filterValues: string, filterValue: string)
    returns (result: MacroResult)
    ensures result == ResultFor(config, ctx, passes, filterValues, filterValue)
  {
    var filterName, filter := Partition(filterValues, filterValue);
    var xml, loopSuffix := StartDocument(config, filterName);
    xml := AddPasses(xml, config, ctx, passes, filter);
    xml := xml + XmlCheckAddEmpty(config.outBC, config.outReturnCode, config.outDefault, |passes| + 1);
    var inFieldsWithLoop := config.inFields + loopSuffix;
    xml := xml + XmlClose(inFieldsWithLoop);
    var fileName := ReplaceFirst(config.outFile, '%', filterName) + ".xml";
    result := MacroResult(xml, fileName, true, None);
  }

  // ================================================================ executeMacro

  /** The filter values of a release, trimmed, in order. */
  function FilterValueArray(config: MacroConfig, release: string): (r: seq<string>)
    ensures |r| == |Split(FilterValuesFor(config, release), ',')|
  {
    TrimAll(Split(FilterValuesFor(config, release), ','))
  }

  /** What `executeMacro` returns for a workbook, a configuration and a release. */
  function Execution(wb: Workbook, config: MacroConfig, release: string): seq<MacroResult>
  {
    if config.xlSheet !in wb then [Failure(MissingSheetMessage(config.xlSheet))]
    else
      var passes := SequencePasses(SeqFromTab(wb, config.inFieldsSeqTab));
      var values := FilterValueArray(config, release);
      MapUpTo(ResultOf(config, ContextOf(wb, config), passes, FilterValuesFor(config, release)), values, |values|)
  }

  /** The column mapping and the output columns of `executeMacro`. */
  method ScanContextOf(wb: Workbook, config: MacroConfig) returns (ctx: ScanContext)
    requires config.xlSheet in wb
    ensures ctx == ContextOf(wb, config)
  {
    var worksheet := wb[config.xlSheet];
    var m := InitColumnMappings(config.allXLFields, config.allFields, worksheet);
    var outFields := TrimAll(Split(config.outFields, ','));
    var outColumnIndices := ResolveOutColumns(m.fields, m.columnIndices, outFields);
    ctx := ScanContext(worksheet, config.inXLText, m.xlFields, m.fields, outFields, m.columnIndices,
                       outColumnIndices, config.inXLFilter);
  }

  /** The filter-value loop of `executeMacro`: one result per value, in order. */
  method ProcessFilterValues(config: MacroConfig, ctx: ScanContext, passes: seq<string>, filterValues: string, values: seq<string>)
    returns (results: seq<MacroResult>)
    ensures results == MapUpTo(ResultOf(config, ctx, passes, filterValues), values, |values|)
  {
    results := [];
    for i := 0 to |values|
      invariant results == MapUpTo(ResultOf(config, ctx, passes, filterValues), values, i)
    {
      var result := ProcessFilterValue(config, ctx, passes, filterValues, values[i]);
      results := results + [result];
    }
  }

  /** `executeMacro`; the environment and the story number it is given are not used. */
  method ExecuteMacro(wb: Workbook, config: MacroConfig, release: string) returns (results: seq<MacroResult>)
    ensures results == Execution(wb, config, release)
  {
    if config.xlSheet !in wb {
      return [Failure(MissingSheetMessage(config.xlSheet))];
    }
    var ctx := ScanContextOf(wb, config);
    var inFieldsSeq := ReadSeqFromTab(wb, config.inFieldsSeqTab);
    var inFieldsSeqArray := if inFieldsSeq != "" then Split(inFieldsSeq, ';') else [""];
    var filterValues := config.inXLFilterValuesNew;
    if release == "202109" || StartsWith(release, "R1.0") {
      filterValues := config.inXLFilterValuesOld;
    }
    var filterValueArray := TrimAll(Split(filterValues, ','));
    results := ProcessFilterValues(config, ctx, inFieldsSeqArray, filterValues, filterValueArray);
  }

  // ================================================================ properties

  /** One successful result per value, in order, each named after its partition. */
  lemma {:induction false} PartitionResults(config: MacroConfig, ctx: ScanContext, passes: seq<string>, filterValues: string, values: seq<string>)
    ensures var r := MapUpTo(ResultOf(config, ctx, passes, filterValues), values, |values|);
            |r| == |values|
            && forall k :: 0 <= k < |r| ==>
                 r[k].success && r[k].error == None
                 && r[k].fileName == ReplaceFirst(config.outFile, '%', FilterName(values[k])) + ".xml"
  {
    MapUpToIndex(ResultOf(config, ctx, passes, filterValues), values, |values|);
  }

  /**
   * A missing worksheet gives exactly one failed result; otherwise there is
   * one result per comma-separated filter value of the release.
   */
  lemma {:induction false} ExecutionResults(wb: Workbook, config: MacroConfig, release: string)
    ensures config.xlSheet !in wb ==>
              Execution(wb, config, release) == [MacroResult("", "", false, Some(MissingSheetMessage(config.xlSheet)))]
    ensures config.xlSheet in wb ==>
              |Execution(wb, config, release)| == |Split(FilterValuesFor(config, release), ',')|
  {
    if config.xlSheet in wb {
      var passes := SequencePasses(SeqFromTab(wb, config.inFieldsSeqTab));
      PartitionResults(config, ContextOf(wb, config), passes, FilterValuesFor(config, release), FilterValueArray(config, release));
    }
  }

  /** `R1.0-beta` and `202109` take the old values, `R2.1` the new ones. */
  lemma {:induction false} ReleaseExamples()
    ensures UseLegacy("R1.0-beta") && UseLegacy("202109") && !UseLegacy("R2.1") && !UseLegacy("R1")
  {
    assert "R1.0-beta"[..4] == "R1.0";
    assert "R2.1"[..4] != "R1.0" by { assert "R2.1"[1] != "R1.0"[1]; }
  }

  /** A named value `v` gives the suffix `-v` and a filter that admits exactly the text `v`. */
  lemma {:induction false} NamedPartition(filterValues: string, value: string, x: string)
    requires value != "%"
    ensures FilterName(value) == "-" + value
    ensures Admits(FilterFor(filterValues, value), x) <==> x == value
  {
    var filter := "=" + value;
    assert filter[0] == '=' && filter[1..] == value;
    assert !StartsWith(filter, "!") && StartsWith(filter, "=");
  }

  /** The pieces `NonWildcard` keeps are exactly the pieces whose trim is not `%`. */
  lemma {:induction false} NonWildcardMembers(pieces: seq<string>)
    ensures forall p :: p in NonWildcard(pieces) <==> p in pieces && Trim(p) != "%"
    decreases |pieces|
  {
    if |pieces| > 0 {
      NonWildcardMembers(pieces[1..]);
      assert pieces == [pieces[0]] + pieces[1..];
    }
  }

  lemma {:induction false} TrimAllConcat(a: seq<string>, b: seq<string>)
    ensures TrimAll(a + b) == TrimAll(a) + TrimAll(b)
  {
  }

  /** The trimmed kept pieces are the trimmed values other than `%`. */
  lemma {:induction false} NamedValues(pieces: seq<string>, x: string)
    ensures x in TrimAll(NonWildcard(pieces)) <==> x in TrimAll(pieces) && x != "%"
    decreases |pieces|
  {
    if |pieces| > 0 {
      NamedValues(pieces[1..], x);
      var head := if Trim(pieces[0]) != "%" then [pieces[0]] else [];
      TrimAllConcat(head, NonWildcard(pieces[1..]));
      assert pieces == [pieces[0]] + pieces[1..];
      TrimAllConcat([pieces[0]], pieces[1..]);
    }
  }

  /** With at least one named value, the `%` filter excludes exactly the trimmed named values. */
  lemma {:induction false} WildcardAdmits(filterValues: string, x: string)
    requires NonWildcard(Split(filterValues, ',')) != []
    ensures Admits(FilterFor(filterValues, "%"), x) <==> x !in TrimAll(NonWildcard(Split(filterValues, ',')))
  {
    var pieces := Split(filterValues, ',');
    var named := NonWildcard(pieces);
    SplitPiecesFree(filterValues, ',');
    NonWildcardMembers(pieces);
    assert PiecesFree(named, ',') by {
      forall j | 0 <= j < |named|
        ensures ',' !in named[j]
      {
        assert named[j] in pieces;
      }
    }
    SplitJoin(named, ',');
    var filter := "!" + Join(named, ',');
    assert filter[1..] == Join(named, ',');
    assert StartsWith(filter, "!");
  }

  /**
   * With no named value (every value trims to `%`) the filter is a bare `!`,
   * whose exclusion list is the single empty string: the only partition
   * admits every text except the empty one, so rows with a blank filter
   * cell are in no document.
   */
  lemma {:induction false} WildcardOnly(filterValues: string, x: string)
    requires forall v :: v in TrimAll(Split(filterValues, ',')) ==> v == "%"
    ensures Admits(FilterFor(filterValues, "%"), x) <==> x != ""
  {
    var pieces := Split(filterValues, ',');
    var named := NonWildcard(pieces);
    if named != [] {
      NamedValues(pieces, Trim(named[0]));
      assert false;
    }
    var filter := "!" + Join(named, ',');
    assert filter == "!";
    assert StartsWith(filter, "!") && filter[1..] == "";
    assert TrimAll(Split(filter[1..], ',')) == [""];
  }

  /**
   * The `%` partition admits exactly the texts that no named partition
   * admits, when there is at least one named value: the partitions of a
   * release then split the rows without overlap and without gaps. With no
   * named value, `WildcardOnly` says what the `%` partition leaves out.
   */
  lemma {:induction false} WildcardComplement(filterValues: string, x: string)
    requires exists v :: v in TrimAll(Split(filterValues, ',')) && v != "%"
    ensures var values := TrimAll(Split(filterValues, ','));
            Admits(FilterFor(filterValues, "%"), x)
            <==> forall k :: 0 <= k < |values| && values[k] != "%" ==> !Admits(FilterFor(filterValues, values[k]), x)
  {
    var pieces := Split(filterValues, ',');
    var values := TrimAll(pieces);
    var v :| v in values && v != "%";
    NamedValues(pieces, v);
    assert NonWildcard(pieces) != [];
    WildcardAdmits(filterValues, x);
    NamedValues(pieces, x);
    forall k | 0 <= k < |values| && values[k] != "%"
      ensures !Admits(FilterFor(filterValues, values[k]), x) <==> x != values[k]
    {
      NamedPartition(filterValues, values[k], x);
    }
  }

  /**
   * A partition value without `$` names its documents literally: the ruleset
   * name and the file name have their first `%` replaced by exactly the
   * partition's suffix.
   */
  lemma {:induction false} PlainPartitionNames(config: MacroConfig, ctx: ScanContext, passes: seq<string>, filterValues: string, value: string)
    requires '$' !in value
    ensures var name := ResultFor(config, ctx, passes, filterValues, value).fileName;
            ('%' !in config.outFile ==> name == config.outFile + ".xml")
            && ('%' in config.outFile ==>
                  exists i :: 0 <= i < |config.outFile| && config.outFile[i] == '%' && '%' !in config.outFile[..i]
                    && name == config.outFile[..i] + FilterName(value) + config.outFile[i + 1..] + ".xml")
    ensures '%' in config.outDVM ==>
              exists i :: 0 <= i < |config.outDVM| && config.outDVM[i] == '%' && '%' !in config.outDVM[..i]
                && StartsWith(DocumentXml(config, ctx, passes, filterValues, value),
                              XmlCreate(config.outDVM[..i] + FilterName(value) + config.outDVM[i + 1..], config.outBC))
  {
    assert '$' !in FilterName(value);
    ReplaceFirstPlain(config.outFile, '%', FilterName(value));
    ReplaceFirstPlain(config.outDVM, '%', FilterName(value));
    DocumentFrame(config, ctx, passes, filterValues, value);
  }

  /**
   * A document starts with its header, directly followed by `<Loop>` when
   * the loop flag is set, and ends with the same close whether or not the
   * loop is present.
   */
  lemma {:induction false} DocumentFrame(config: MacroConfig, ctx: ScanContext, passes: seq<string>, filterValues: string, value: string)
    ensures var d := DocumentXml(config, ctx, passes, filterValues, value);
            var header := XmlCreate(ReplaceFirst(config.outDVM, '%', FilterName(value)), config.outBC);
            StartsWith(d, header)
            && (config.outLoop ==> StartsWith(d, header + XmlAddLoop()))
            && EndsWith(d, XmlClose(config.inFields))
  {
    var header := XmlCreate(ReplaceFirst(config.outDVM, '%', FilterName(value)), config.outBC);
    var head := DocumentHead(config, value);
    var body := PassesXml(config, ctx, passes, FilterFor(filterValues, value), |passes|);
    var empty := XmlCheckAddEmpty(config.outBC, config.outReturnCode, config.outDefault, |passes| + 1);
    var close := XmlClose(CloseFields(config));
    var d := DocumentXml(config, ctx, passes, filterValues, value);
    assert d == ((head + body) + empty) + close;
    ConcatAssoc(head + body, empty, close);
    ConcatAssoc(head, body, empty + close);
    var rest := body + (empty + close);
    ConcatSlices(head, rest);
    if config.outLoop {
      ConcatAssoc(header, XmlAddLoop(), rest);
      ConcatSlices(header, XmlAddLoop() + rest);
    }
    ConcatSlices((head + body) + empty, close);
    XmlCloseIgnoresFields(CloseFields(config), config.inFields);
  }
}
