/**
 * The shared helpers of the macro engine: the XML fragment builders, the
 * default-value parser, the column mapper, the first-matching-row scanner,
 * the sequence-tab reader and the three accumulator lists.
 */
module Helpers {
  import opened Wrappers
  import opened Seqs
  import opened Strings
  import opened Sheets
  import opened XmlEscape

  // ================================================================ XML fragments

  /** The fixed text of the document header, around the ruleset name and the business component. */
  const HeaderOpen := "<?xml version=\"1.0\" encoding=\"UTF-8\"?>\n<SiebelMessage MessageId=\"\" MessageType=\"Integration Object\" IntObjectName=\""
  const HeaderMid := "\">\n  <IntObject>\n    <BusinessComponent Name=\""
  const HeaderClose := "\">"

  /** The document header naming the ruleset and the business component (neither is escaped). */
  function XmlCreate(dvmName: string, businessComponent: string): string
  {
    HeaderOpen + dvmName + HeaderMid + businessComponent + HeaderClose
  }

  const LoopOpen := "\n      <Loop>"

  /** The loop marker written right after the header when the loop flag is set. */
  function XmlAddLoop(): string
  {
    LoopOpen
  }

  /** A stub: whatever it is given, it contributes nothing to the document. */
  function XmlCheckAddEmpty(businessComponent: string, returnCode: string, defaultValues: string, sequence: nat): (r: string)
    ensures r == ""
  {
    ""
  }

  const DocumentClose := "\n    </BusinessComponent>\n  </IntObject>\n</SiebelMessage>"

  /** The closing tags; the field list it is given is not used. */
  function XmlClose(fields: string): string
  {
    DocumentClose
  }

  /** The close does not depend on its argument, so a `,Loop` suffix changes nothing and `<Loop>` stays open. */
  lemma {:induction false} XmlCloseIgnoresFields(a: string, b: string)
    ensures XmlClose(a) == XmlClose(b)
  {
  }

  // ================================================================ default values

  /** One default element: a field name and the literal written for it. */
  datatype DefaultField = DefaultField(field: string, value: string)

  /** `a || b` on strings. */
  function OrElse(a: string, b: string): string
  {
    if a != "" then a else b
  }

  /**
   * The entry one `|`-separated group yields: a group needs at least three
   * comma fields; the value is the 4th field, else the 3rd, else `-`.
   */
  function DefaultOf(group: string): Option<DefaultField>
  {
    var fields := Split(group, ',');
    if |fields| >= 3 then
      Some(DefaultField(Trim(fields[1]), OrElse(if |fields| > 3 then Trim(fields[3]) else "", OrElse(Trim(fields[2]), "-"))))
    else None
  }

  /** The entry of one group as a list: one entry, or none. */
  function GroupDefaults(group: string): seq<DefaultField>
  {
    match DefaultOf(group)
    case Some(d) => [d]
    case None => []
  }

  /** The entries a default-value specification yields. */
  function Defaults(defaultStr: string): seq<DefaultField>
  {
    var groups := Split(defaultStr, '|');
    FlatMapUpTo(GroupDefaults, groups, |groups|)
  }

  /** One step of `parseDefaultValues`: the default a `|`-separated group yields, if any. */
  method ParseGroup(group: string) returns (d: Option<DefaultField>)
    ensures d == DefaultOf(group)
  {
    var fields := Split(group, ',');
    d := None;
    if |fields| >= 3 {
      var fourth := if |fields| > 3 then Trim(fields[3]) else "";
      d := Some(DefaultField(Trim(fields[1]), OrElse(fourth, OrElse(Trim(fields[2]), "-"))));
    }
  }

  /** `parseDefaultValues`. */
  method ParseDefaultValues(defaultStr: string) returns (defaults: seq<DefaultField>)
    ensures defaults == Defaults(defaultStr)
    ensures |defaults| <= |Split(defaultStr, '|')|
  {
    defaults := [];
    var parts := Split(defaultStr, '|');
    for i := 0 to |parts|
      invariant defaults == FlatMapUpTo(GroupDefaults, parts, i)
      invariant |defaults| <= i
    {
      var d := ParseGroup(parts[i]);
      ghost var step := GroupDefaults(parts[i]);
      assert FlatMapUpTo(GroupDefaults, parts, i + 1) == defaults + step;
      if d.Some? {
        assert step == [d.value];
        defaults := defaults + [d.value];
      } else {
        assert step == [];
        assert defaults + step == defaults;
      }
    }
  }

  lemma {:induction false} DefaultsUpToWellFormed(groups: seq<string>, n: nat)
    requires n <= |groups|
    requires forall k :: 0 <= k < |groups| ==> '|' !in groups[k]
    ensures forall k :: 0 <= k < |FlatMapUpTo(GroupDefaults, groups, n)| ==>
      var d := FlatMapUpTo(GroupDefaults, groups, n)[k]; d.value != "" && ',' !in d.field && '|' !in d.field
  {
    if n > 0 {
      DefaultsUpToWellFormed(groups, n - 1);
      var g := groups[n - 1];
      var fields := Split(g, ',');
      if |fields| >= 3 {
        SplitPiecesFree(g, ',');
        JoinSplit(g, ',');
        JoinContains(fields, ',', 1);
        TrimChars(fields[1]);
        assert '|' !in Trim(fields[1]);
      }
    }
  }

  /**
   * Every parsed default has a non-empty value (`-` when the group gives
   * none) and a field name free of both separators.
   */
  lemma {:induction false} DefaultsWellFormed(defaultStr: string)
    ensures forall k :: 0 <= k < |Defaults(defaultStr)| ==>
      var d := Defaults(defaultStr)[k]; d.value != "" && ',' !in d.field && '|' !in d.field
  {
    SplitPiecesFree(defaultStr, '|');
    DefaultsUpToWellFormed(Split(defaultStr, '|'), |Split(defaultStr, '|')|);
  }

  /** A piece of a join occurs in the joined string. */
  lemma {:induction false} JoinContains(parts: seq<string>, sep: char, k: nat)
    requires k < |parts|
    ensures forall c :: c in parts[k] ==> c in Join(parts, sep)
    decreases |parts|
  {
    if |parts| > 1 {
      if k > 0 {
        JoinContains(parts[1..], sep, k - 1);
      }
    }
  }

  /**
   * Groups are read independently and in order: the defaults of two
   * specifications joined by `|` are the defaults of the first followed by
   * those of the second.
   */
  lemma {:induction false} DefaultsConcat(a: string, b: string)
    ensures Defaults(a + ['|'] + b) == Defaults(a) + Defaults(b)
  {
    SplitConcat(a, b, '|');
    FlatMapConcat(GroupDefaults, Split(a, '|'), Split(b, '|'));
  }

  // ================================================================ the list block

  /** The three strings extracted from one matching row. */
  datatype RowTriple = RowTriple(text: string, inList: string, outList: string)

  /** `xs[k] || ''`: a missing entry renders as the empty string. */
  function Entry(xs: seq<string>, k: nat): string
  {
    if k < |xs| then xs[k] else ""
  }

  const ListOpen := "\n      <List>\n        <ReturnCode>"
  const ListMid := "</ReturnCode>\n        <Sequence>"
  const ListHeadClose := "</Sequence>"

  function ListHead(returnCode: string, sequence: nat): string
  {
    ListOpen + returnCode + ListMid + NatToString(sequence) + ListHeadClose
  }

  /** The element a default writes: the field name as the tag, the escaped value as its text. */
  function DefaultElement(d: DefaultField): string
  {
    "\n        <" + d.field + ">" + EscapeXml(d.value) + "</" + d.field + ">"
  }

  /** What one default contributes: its element, or nothing when its value is `-`. */
  function DefaultXml(d: DefaultField): string
  {
    if d.value != "-" then DefaultElement(d) else ""
  }

  /** The default elements of a parsed specification, in order. */
  function DefaultsXml(ds: seq<DefaultField>): string
  {
    FlatMapUpTo(DefaultXml, ds, |ds|)
  }

  /** The fixed text around the three escaped values of a rule element. */
  const RuleOpen := "\n          <Rule>\n            <Text>"
  const RuleMid1 := "</Text>\n            <InList>"
  const RuleMid2 := "</InList>\n            <OutList>"
  const RuleClose := "</OutList>\n          </Rule>"

  function RuleXml(t: RowTriple): string
  {
    RuleOpen + (EscapeXml(t.text) + (RuleMid1 + (EscapeXml(t.inList) + (RuleMid2 + (EscapeXml(t.outList) + RuleClose)))))
  }

  /** The row rule `k` carries: missing entries become empty strings. */
  function RuleAt(ts: seq<string>, ins: seq<string>, outs: seq<string>, k: nat): RowTriple
  {
    RowTriple(Entry(ts, k), Entry(ins, k), Entry(outs, k))
  }

  /** The rows a list block carries: one per text entry, missing in/out entries empty. */
  function Rows(ts: seq<string>, ins: seq<string>, outs: seq<string>): (r: seq<RowTriple>)
    ensures |r| == |ts|
  {
    seq(|ts|, k requires 0 <= k < |ts| => RuleAt(ts, ins, outs, k))
  }

  /** The rule elements of `rows`, in order. */
  function RulesText(rows: seq<RowTriple>): string
  {
    FlatMapUpTo(RuleXml, rows, |rows|)
  }

  const RulesOpen := "\n        <Rules>"
  const RulesClose := "\n        </Rules>"
  const ListClose := "\n      </List>"

  /**
   * The list block of one sequence pass: the head, the defaults, a `<Rules>`
   * block only when rows were accumulated, and the closing tag.
   */
  function ListXml(returnCode: string, defaultValues: string, sequence: nat, rows: seq<RowTriple>): string
  {
    var xml := ListHead(returnCode, sequence) + DefaultsXml(Defaults(defaultValues));
    (if |rows| > 0 then xml + RulesOpen + RulesText(rows) + RulesClose else xml) + ListClose
  }

  /** The defaults loop of `XMLAddList`: one element per default whose value is not `-`. */
  method AppendDefaults(start: string, defaults: seq<DefaultField>) returns (xml: string)
    ensures xml == start + DefaultsXml(defaults)
  {
    xml := start;
    for i := 0 to |defaults|
      invariant xml == start + FlatMapUpTo(DefaultXml, defaults, i)
    {
      FlatMapStep(DefaultXml, defaults, i, start, xml);
      if defaults[i].value != "-" {
        xml := xml + DefaultElement(defaults[i]);
      } else {
        assert xml + DefaultXml(defaults[i]) == xml;
      }
    }
  }

  /** The rules loop of `XMLAddList`: one rule element per text entry. */
  method AppendRules(start: string, textArray: seq<string>, inListArray: seq<string>, outListArray: seq<string>)
    returns (xml: string)
    ensures xml == start + RulesText(Rows(textArray, inListArray, outListArray))
  {
    xml := start;
    var rows := Rows(textArray, inListArray, outListArray);
    for i := 0 to |rows|
      invariant xml == start + FlatMapUpTo(RuleXml, rows, i)
    {
      FlatMapStep(RuleXml, rows, i, start, xml);
      xml := xml + RuleXml(rows[i]);
    }
  }

  /** `XMLAddList`. */
  method XmlAddList(businessComponent: string, returnCode: string, defaultValues: string, sequence: nat,
                    textArray: seq<string>, inListArray: seq<string>, outListArray: seq<string>)
    returns (xml: string)
    ensures xml == ListXml(returnCode, defaultValues, sequence, Rows(textArray, inListArray, outListArray))
  {
    var defaults := ParseDefaultValues(defaultValues);
    xml := AppendDefaults(ListHead(returnCode, sequence), defaults);
    if |textArray| > 0 {
      xml := AppendRules(xml + RulesOpen, textArray, inListArray, outListArray);
      xml := xml + RulesClose;
    }
    xml := xml + ListClose;
  }

  // ---------------------------------------------------------------- reading the rules back

  /**
   * Reads an escaped value off the front of `s`: the text up to the first `<`,
   * unescaped, provided the closing `tag` starts there; and what follows the tag.
   */
  function ReadValue(s: string, tag: string): (r: Option<(string, string)>)
    ensures r.Some? ==> |r.value.1| < |s| + 1 - |tag|
  {
    var i := FindChar(s, '<');
    if i < 0 || !StartsWith(s[i..], tag) then None
    else Some((Unescape(s[..i]), s[i + |tag|..]))
  }

  /** Reads one rule element off the front of `s`: the three unescaped values and the rest. */
  function ParseRule(s: string): (r: Option<(RowTriple, string)>)
    ensures r.Some? ==> |r.value.1| < |s|
  {
    if !StartsWith(s, RuleOpen) then None
    else match ReadValue(s[|RuleOpen|..], RuleMid1)
      case None => None
      case Some((text, a)) =>
        match ReadValue(a, RuleMid2)
        case None => None
        case Some((inList, b)) =>
          match ReadValue(b, RuleClose)
          case None => None
          case Some((outList, rest)) => Some((RowTriple(text, inList, outList), rest))
  }

  /** Reads rule elements off the front of `s` for as long as one starts there. */
  function ParseRules(s: string): seq<RowTriple>
    decreases |s|
  {
    match ParseRule(s)
    case None => []
    case Some((t, rest)) => [t] + ParseRules(rest)
  }


  /** The first `c` of `e + r` is the first character of `r` when `e` holds none. */
  lemma {:induction false} FindCharAt(e: string, r: string, c: char)
    requires c !in e && |r| > 0 && r[0] == c
    ensures FindChar(e + r, c) == |e|
    decreases |e|
  {
    if |e| > 0 {
      assert (e + r)[1..] == e[1..] + r;
      FindCharAt(e[1..], r, c);
    }
  }

  lemma {:induction false} EscapedHasNoLt(s: string)
    ensures '<' !in EscapeXml(s)
  {
    EscapeXmlNoRawMarkup(s);
    assert '<' in "<>\"'";
  }

  /** A value without `<` followed by its closing tag is read back, up to the tag, decoded. */
  lemma {:induction false} ReadValueAt(e: string, tag: string, rest: string)
    requires '<' !in e && |tag| > 0 && tag[0] == '<'
    ensures ReadValue(e + (tag + rest), tag) == Some((Unescape(e), rest))
  {
    FindCharAt(e, tag + rest, '<');
    ConcatSlices(e, tag + rest);
    ConcatSlices(tag, rest);
    DropTwo(e, tag, rest);
  }

  /** An escaped value followed by its closing tag is read back unescaped. */
  lemma {:induction false} ReadValueOf(v: string, tag: string, rest: string)
    requires |tag| > 0 && tag[0] == '<'
    ensures ReadValue(EscapeXml(v) + (tag + rest), tag) == Some((v, rest))
  {
    EscapedHasNoLt(v);
    EscapeXmlRoundTrip(v);
    ReadValueAt(EscapeXml(v), tag, rest);
  }

  /** A rule element is read back as the row it was written from. */
  lemma {:induction false} ParseRuleXml(t: RowTriple, rest: string)
    ensures ParseRule(RuleXml(t) + rest) == Some((t, rest))
  {
    var e1, e2, e3 := EscapeXml(t.text), EscapeXml(t.inList), EscapeXml(t.outList);
    var c := e3 + (RuleClose + rest);
    var b := e2 + (RuleMid2 + c);
    var a := e1 + (RuleMid1 + b);
    var s := RuleXml(t) + rest;
    assert s == RuleOpen + a by {
      ConcatAssoc(e3, RuleClose, rest);
      ConcatAssoc(RuleMid2, e3 + RuleClose, rest);
      ConcatAssoc(e2, RuleMid2 + (e3 + RuleClose), rest);
      ConcatAssoc(RuleMid1, e2 + (RuleMid2 + (e3 + RuleClose)), rest);
      ConcatAssoc(e1, RuleMid1 + (e2 + (RuleMid2 + (e3 + RuleClose))), rest);
      ConcatAssoc(RuleOpen, e1 + (RuleMid1 + (e2 + (RuleMid2 + (e3 + RuleClose)))), rest);
    }
    assert StartsWith(s, RuleOpen) && s[|RuleOpen|..] == a;
    ReadValueOf(t.text, RuleMid1, b);
    ReadValueOf(t.inList, RuleMid2, c);
    ReadValueOf(t.outList, RuleClose, rest);
  }

  /** What follows the last rule: the closing tags, which do not start a rule element. */
  lemma {:induction false} ClosingIsNotRule(rest: string)
    ensures !StartsWith(RulesClose + rest, RuleOpen)
  {
    var s := RulesClose + rest;
    assert s[9] == '<';
    assert RuleOpen[9] == ' ';
  }

  /** The rule elements are read back, in order, as the rows written. */
  lemma {:induction false} ParseRulesStep(s: string, t: RowTriple, rest: string)
    requires ParseRule(s) == Some((t, rest))
    ensures ParseRules(s) == [t] + ParseRules(rest)
  {
  }

  lemma {:induction false} ParseRulesStop(s: string)
    requires !StartsWith(s, RuleOpen)
    ensures ParseRules(s) == []
  {
  }

  lemma {:induction false} ParseRulesText(rows: seq<RowTriple>, rest: string)
    ensures ParseRules(RulesText(rows) + (RulesClose + rest)) == rows
  {
    forall t: RowTriple, r: string
      ensures ReadsOne(RuleXml, ParseRules, t, r)
    {
      ParseRuleXml(t, r);
      ParseRulesStep(RuleXml(t) + r, t, r);
    }
    ClosingIsNotRule(rest);
    ParseRulesStop(RulesClose + rest);
    ReadBackWritten(RuleXml, ParseRules, rows, RulesClose + rest);
  }

  /**
   * The rows of a list block can be read back from its text: after the
   * defaults and `<Rules>` come the rule elements, which decode, in order, to
   * the rows written, with every value unescaped.
   */
  lemma {:induction false} ListXmlRules(returnCode: string, defaultValues: string, sequence: nat, rows: seq<RowTriple>)
    requires |rows| > 0
    ensures var prefix := ListHead(returnCode, sequence) + DefaultsXml(Defaults(defaultValues)) + RulesOpen;
            var x := ListXml(returnCode, defaultValues, sequence, rows);
            StartsWith(x, prefix) && ParseRules(x[|prefix|..]) == rows
  {
    var prefix := ListHead(returnCode, sequence) + DefaultsXml(Defaults(defaultValues)) + RulesOpen;
    var text := RulesText(rows);
    var body := text + (RulesClose + ListClose);
    var x := ListXml(returnCode, defaultValues, sequence, rows);
    assert x == ((prefix + text) + RulesClose) + ListClose;
    ConcatAssoc(prefix + text, RulesClose, ListClose);
    ConcatAssoc(prefix, text, RulesClose + ListClose);
    ConcatSlices(prefix, body);
    ParseRulesText(rows, ListClose);
  }

  /** With no rows the block holds no `<Rules>` element at all. */
  lemma {:induction false} ListXmlNoRules(returnCode: string, defaultValues: string, sequence: nat)
    ensures ListXml(returnCode, defaultValues, sequence, [])
              == ListHead(returnCode, sequence) + DefaultsXml(Defaults(defaultValues)) + ListClose
  {
  }

  // ================================================================ column mapping

  /** The cell at (row, col) exists and its trimmed text is `name`. */
  predicate CellIs(ws: Worksheet, row: nat, col: nat, name: string)
  {
    !CellAt(ws, row, col).Blank? && TextAt(ws, row, col) == name
  }

  /** Whether row `q` holds `first` in column 0. */
  function HoldsInColumn0(ws: Worksheet, first: string): nat -> bool
  {
    (q: nat) => CellIs(ws, q, 0, first)
  }

  /** Whether column `q` of `row` holds `name`. */
  function HoldsInRow(ws: Worksheet, row: nat, name: string): nat -> bool
  {
    (q: nat) => CellIs(ws, row, q, name)
  }

  /** The header row: the first row whose column-0 text is the first Excel field name, else row 0. */
  function HeaderRow(ws: Worksheet, first: string): nat
  {
    var r := FirstFrom(HoldsInColumn0(ws, first), 0, ws.lastRow);
    if r < 0 then 0 else r
  }

  /**
   * The header row lies within the sheet's range, no earlier row holds the
   * first field in column 0, and a row other than 0 is chosen only because it
   * holds it; row 0 without the name means no row holds it.
   */
  lemma {:induction false} HeaderRowSpec(ws: Worksheet, first: string)
    ensures var r := HeaderRow(ws, first);
            r <= ws.lastRow
            && (forall q :: 0 <= q < r ==> !CellIs(ws, q, 0, first))
            && (r > 0 ==> CellIs(ws, r, 0, first))
            && (r == 0 && !CellIs(ws, 0, 0, first) ==> forall q :: 0 <= q <= ws.lastRow ==> !CellIs(ws, q, 0, first))
  {
    var p := HoldsInColumn0(ws, first);
    FirstFromSpec(p, 0, ws.lastRow);
    assert forall q: nat :: p(q) == CellIs(ws, q, 0, first);
  }

  /** The leftmost header-row column holding `name`, or -1. */
  function ColumnIndex(ws: Worksheet, headerRow: nat, name: string): int
  {
    FirstFrom(HoldsInRow(ws, headerRow, name), 0, ws.lastCol)
  }

  /**
   * The column of a name is the leftmost cell of the header row that holds
   * it, within the sheet's range, and -1 exactly when no such cell exists.
   */
  lemma {:induction false} ColumnIndexSpec(ws: Worksheet, headerRow: nat, name: string)
    ensures var c := ColumnIndex(ws, headerRow, name);
            -1 <= c <= ws.lastCol
            && (c >= 0 ==> CellIs(ws, headerRow, c, name) && forall q :: 0 <= q < c ==> !CellIs(ws, headerRow, q, name))
            && (c == -1 <==> forall q :: 0 <= q <= ws.lastCol ==> !CellIs(ws, headerRow, q, name))
  {
    var p := HoldsInRow(ws, headerRow, name);
    FirstFromSpec(p, 0, ws.lastCol);
    assert forall q: nat :: p(q) == CellIs(ws, headerRow, q, name);
  }

  /** The trimmed field lists and the column of each Excel field. */
  datatype ColumnMapping = ColumnMapping(fields: seq<string>, xlFields: seq<string>, columnIndices: seq<int>)

  function ColumnMappingOf(allXLFields: string, allFields: string, ws: Worksheet): ColumnMapping
  {
    var xl := TrimAll(Split(allXLFields, ','));
    var hr := HeaderRow(ws, xl[0]);
    ColumnMapping(TrimAll(Split(allFields, ',')), xl, seq(|xl|, k requires 0 <= k < |xl| => ColumnIndex(ws, hr, xl[k])))
  }

  /** The header-row search of `initColumnMappings`: the first row, from the top, with `first` in column 0. */
  method FindHeaderRow(ws: Worksheet, first: string) returns (headerRow: nat)
    ensures headerRow == HeaderRow(ws, first)
  {
    headerRow := 0;
    var row := 0;
    ghost var holds := HoldsInColumn0(ws, first);
    while row <= ws.lastRow
      invariant FirstFrom(holds, row, ws.lastRow) == FirstFrom(holds, 0, ws.lastRow)
      invariant headerRow == 0
      decreases ws.lastRow + 1 - row
    {
      var cell := CellAt(ws, row, 0);
      if !cell.Blank? && CellText(cell) == first {
        assert holds(row);
        headerRow := row;
        break;
      }
      assert !holds(row);
      row := row + 1;
    }
  }

  /** The column search of `initColumnMappings` for one field: the leftmost header cell holding it, or -1. */
  method FindColumn(ws: Worksheet, headerRow: nat, xlField: string) returns (index: int)
    ensures index == ColumnIndex(ws, headerRow, xlField)
  {
    var found := false;
    index := -1;
    var col := 0;
    ghost var holds := HoldsInRow(ws, headerRow, xlField);
    while col <= ws.lastCol
      invariant FirstFrom(holds, col, ws.lastCol) == FirstFrom(holds, 0, ws.lastCol)
      invariant !found && index == -1
      decreases ws.lastCol + 1 - col
    {
      var cell := CellAt(ws, headerRow, col);
      if !cell.Blank? && CellText(cell) == xlField {
        assert holds(col);
        index := col;
        found := true;
        break;
      }
      assert !holds(col);
      col := col + 1;
    }
  }

  /** `initColumnMappings`. */
  method InitColumnMappings(allXLFields: string, allFields: string, ws: Worksheet) returns (m: ColumnMapping)
    ensures m == ColumnMappingOf(allXLFields, allFields, ws)
  {
    var xl := TrimAll(Split(allXLFields, ','));
    var fs := TrimAll(Split(allFields, ','));
    var headerRow := FindHeaderRow(ws, xl[0]);
    var columnIndices: seq<int> := [];
    for k := 0 to |xl|
      invariant |columnIndices| == k
      invariant forall j :: 0 <= j < k ==> columnIndices[j] == ColumnIndex(ws, headerRow, xl[j])
    {
      var index := FindColumn(ws, headerRow, xl[k]);
      columnIndices := columnIndices + [index];
    }
    m := ColumnMapping(fs, xl, columnIndices);
  }

  // ================================================================ the row scanner

  /** What the scanner reads: the worksheet and the resolved field tables. */
  datatype ScanContext = ScanContext(
    ws: Worksheet, inXLText: string, xlFields: seq<string>, fields: seq<string>,
    outFields: seq<string>, columnIndices: seq<int>, outColumnIndices: seq<int>, filterField: string)

  /** `indices[k]`, where a missing entry (undefined) is never `>= 0`. */
  function ColAt(indices: seq<int>, k: int): int
  {
    if 0 <= k < |indices| then indices[k] else -1
  }

  /** The text column: the column of `inXLText` among the Excel fields (looked up untrimmed). */
  function TextColumn(ctx: ScanContext): int
  {
    var i := IndexOf(ctx.xlFields, ctx.inXLText);
    if i >= 0 then ColAt(ctx.columnIndices, i) else -1
  }

  /** The filter column: the column of the filter field among the Excel fields (looked up untrimmed). */
  function FilterColumn(ctx: ScanContext): int
  {
    var i := IndexOf(ctx.xlFields, ctx.filterField);
    if i >= 0 then ColAt(ctx.columnIndices, i) else -1
  }

  /**
   * A filter admits a trimmed cell text: `!v1,v2` excludes the listed
   * (trimmed) values, `=v` demands `v`, anything else admits every text.
   */
  predicate Admits(filter: string, value: string)
  {
    if StartsWith(filter, "!") then value !in TrimAll(Split(filter[1..], ','))
    else if StartsWith(filter, "=") then value == filter[1..]
    else true
  }

  /** A row passes when the filter column is unresolved or its cell is admitted. */
  predicate Passes(ctx: ScanContext, filter: string, row: nat)
  {
    FilterColumn(ctx) < 0 || Admits(filter, TextAt(ctx.ws, row, FilterColumn(ctx)))
  }

  /** Whether row `q` passes the filter. */
  function PassesAt(ctx: ScanContext, filter: string): nat -> bool
  {
    (q: nat) => Passes(ctx, filter, q)
  }

  /** The first row from `row` up to the last row that passes the filter, or -1. */
  function FirstPassing(ctx: ScanContext, filter: string, row: nat): int
  {
    FirstFrom(PassesAt(ctx, filter), row, ctx.ws.lastRow)
  }

  /** The scan finds the first passing row at or after the start row, and fails only when no row in range passes. */
  lemma {:induction false} FirstPassingSpec(ctx: ScanContext, filter: string, row: nat)
    ensures var f := FirstPassing(ctx, filter, row);
            (f == -1 && forall q :: row <= q <= ctx.ws.lastRow ==> !Passes(ctx, filter, q))
            || (row <= f <= ctx.ws.lastRow && Passes(ctx, filter, f) && forall q :: row <= q < f ==> !Passes(ctx, filter, q))
  {
    var p := PassesAt(ctx, filter);
    FirstFromSpec(p, row, ctx.ws.lastRow);
    assert forall q: nat :: p(q) == Passes(ctx, filter, q);
  }

  function RowText(ctx: ScanContext, row: nat): string
  {
    var c := TextColumn(ctx);
    if c >= 0 then TextAt(ctx.ws, row, c) else ""
  }

  /** The column of an input field name: trimmed, looked up among the logical fields. */
  function InFieldColumn(ctx: ScanContext, name: string): int
  {
    var i := IndexOf(ctx.fields, Trim(name));
    if i >= 0 then ColAt(ctx.columnIndices, i) else -1
  }

  /** The cells of the resolved fields among the first `n` names; unresolved names are skipped. */
  function InPartsUpTo(ctx: ScanContext, names: seq<string>, row: nat, n: nat): seq<string>
    requires n <= |names|
  {
    if n == 0 then []
    else
      var c := InFieldColumn(ctx, names[n - 1]);
      InPartsUpTo(ctx, names, row, n - 1) + (if c >= 0 then [TextAt(ctx.ws, row, c)] else [])
  }

  /** `inList`: the comma-join of the cells of the token's resolved input fields. */
  function InList(ctx: ScanContext, token: string, row: nat): string
  {
    var names := Split(token, ',');
    Join(InPartsUpTo(ctx, names, row, |names|), ',')
  }

  /** The cells of the resolved output fields among the first `n`. */
  function OutPartsUpTo(ctx: ScanContext, row: nat, n: nat): seq<string>
    requires n <= |ctx.outFields|
  {
    if n == 0 then []
    else
      var c := ColAt(ctx.outColumnIndices, n - 1);
      OutPartsUpTo(ctx, row, n - 1) + (if c >= 0 then [TextAt(ctx.ws, row, c)] else [])
  }

  /** `outList`: the comma-join of the cells of the resolved output fields. */
  function OutList(ctx: ScanContext, row: nat): string
  {
    Join(OutPartsUpTo(ctx, row, |ctx.outFields|), ',')
  }

  /** What one scanner call returns. */
  datatype Fetch = Fetch(hasMore: bool, nextRow: nat, text: string, inList: string, outList: string)

  /** The scanner's answer from `startRow`: the first passing row's extraction, or nothing. */
  function FilteredFields(ctx: ScanContext, token: string, startRow: nat, filter: string): Fetch
  {
    var f := FirstPassing(ctx, filter, startRow);
    if f < 0 then Fetch(false, startRow + 1, "", "", "")
    else Fetch(f < ctx.ws.lastRow, f + 1, RowText(ctx, f), InList(ctx, token, f), OutList(ctx, f))
  }

  method ExtractInList(ctx: ScanContext, inFieldsSeq: string, row: nat) returns (inList: string)
    ensures inList == InList(ctx, inFieldsSeq, row)
  {
    var parts := Split(inFieldsSeq, ',');
    var inListParts: seq<string> := [];
    for i := 0 to |parts|
      invariant inListParts == InPartsUpTo(ctx, parts, row, i)
    {
      var fieldIndex := IndexOf(ctx.fields, Trim(parts[i]));
      if fieldIndex >= 0 && ColAt(ctx.columnIndices, fieldIndex) >= 0 {
        inListParts := inListParts + [TextAt(ctx.ws, row, ColAt(ctx.columnIndices, fieldIndex))];
      }
    }
    inList := Join(inListParts, ',');
  }

  method ExtractOutList(ctx: ScanContext, row: nat) returns (outList: string)
    ensures outList == OutList(ctx, row)
  {
    var outListParts: seq<string> := [];
    for i := 0 to |ctx.outFields|
      invariant outListParts == OutPartsUpTo(ctx, row, i)
    {
      if ColAt(ctx.outColumnIndices, i) >= 0 {
        outListParts := outListParts + [TextAt(ctx.ws, row, ColAt(ctx.outColumnIndices, i))];
      }
    }
    outList := Join(outListParts, ',');
  }

  /** The three extractions of `getFilteredFields` from a matching row. */
  method ExtractRow(ctx: ScanContext, inFieldsSeq: string, row: nat) returns (text: string, inList: string, outList: string)
    ensures text == RowText(ctx, row) && inList == InList(ctx, inFieldsSeq, row) && outList == OutList(ctx, row)
  {
    var textCol := TextColumn(ctx);
    text := "";
    if textCol >= 0 {
      text := TextAt(ctx.ws, row, textCol);
    }
    inList := ExtractInList(ctx, inFieldsSeq, row);
    outList := ExtractOutList(ctx, row);
  }

  /** The filter test of `getFilteredFields` on one trimmed cell text. */
  method FilterAdmits(filter: string, filterValue: string, filterCellValue: string) returns (admitted: bool)
    requires filterValue == if StartsWith(filter, "=") || StartsWith(filter, "!") then filter[1..] else filter
    ensures admitted == Admits(filter, filterCellValue)
  {
    admitted := true;
    if StartsWith(filter, "!") {
      var excludeValues := TrimAll(Split(filterValue, ','));
      if filterCellValue in excludeValues {
        admitted := false;
      }
    } else if StartsWith(filter, "=") {
      if filterCellValue != filterValue {
        admitted := false;
      }
    }
  }

  /** The row loop of `getFilteredFields`: the first row from `startRow` that passes the filter, or -1. */
  method FindPassingRow(ctx: ScanContext, startRow: nat, filter: string) returns (found: int)
    ensures found == FirstPassing(ctx, filter, startRow)
  {
    var ws := ctx.ws;
    var filterCol := FilterColumn(ctx);
    var filterValue := if StartsWith(filter, "=") || StartsWith(filter, "!") then filter[1..] else filter;
    found := -1;
    var row: nat := startRow;
    while row <= ws.lastRow
      invariant startRow <= row
      invariant FirstPassing(ctx, filter, row) == FirstPassing(ctx, filter, startRow)
      decreases ws.lastRow + 1 - row
    {
      if filterCol >= 0 {
        var admitted := FilterAdmits(filter, filterValue, TextAt(ws, row, filterCol));
        if !admitted {
          assert !PassesAt(ctx, filter)(row);
          row := row + 1;
          continue;
        }
      }
      assert PassesAt(ctx, filter)(row);
      found := row;
      break;
    }
  }

  /**
   * `getFilteredFields`: the first row at or after `startRow` that passes the
   * filter, its three extractions, the next start row and whether rows remain.
   */
  method GetFilteredFields(ctx: ScanContext, inFieldsSeq: string, startRow: nat, filter: string) returns (r: Fetch)
    ensures r == FilteredFields(ctx, inFieldsSeq, startRow, filter)
  {
    var found := FindPassingRow(ctx, startRow, filter);
    var text, inList, outList := "", "", "";
    if found >= 0 {
      text, inList, outList := ExtractRow(ctx, inFieldsSeq, found);
    }
    r := Fetch(found >= 0 && found < ctx.ws.lastRow, if found >= 0 then found + 1 else startRow + 1, text, inList, outList);
  }

  /**
   * The scanner returns the first row from the start row that passes the
   * filter: `nextRow` is one past it and `hasMore` says it lies before the
   * last row; with no such row all three texts are empty and `nextRow` is one
   * past the start.
   */
  lemma {:induction false} FilteredFieldsSpec(ctx: ScanContext, token: string, startRow: nat, filter: string)
    ensures FilteredFields(ctx, token, startRow, filter).nextRow > startRow
    ensures FilteredFields(ctx, token, startRow, filter).hasMore <==>
              exists f :: startRow <= f < ctx.ws.lastRow && Passes(ctx, filter, f)
    ensures var r := FilteredFields(ctx, token, startRow, filter);
            r.nextRow > startRow + 1 || r.hasMore ==>
              Passes(ctx, filter, r.nextRow - 1) && forall q :: startRow <= q < r.nextRow - 1 ==> !Passes(ctx, filter, q)
    ensures (forall q :: startRow <= q <= ctx.ws.lastRow ==> !Passes(ctx, filter, q)) ==>
              FilteredFields(ctx, token, startRow, filter) == Fetch(false, startRow + 1, "", "", "")
  {
    var f := FirstPassing(ctx, filter, startRow);
    var r := FilteredFields(ctx, token, startRow, filter);
    FirstPassingSpec(ctx, filter, startRow);
    if f < 0 {
      assert r == Fetch(false, startRow + 1, "", "", "");
    } else {
      assert r.nextRow == f + 1 && r.hasMore == (f < ctx.ws.lastRow);
      assert Passes(ctx, filter, f);
    }
  }

  /**
   * Each input field name contributes at most one cell: every name resolves
   * means one cell per name, none resolves means no cells at all.
   */
  lemma {:induction false} InPartsResolved(ctx: ScanContext, names: seq<string>, row: nat, n: nat)
    requires n <= |names|
    ensures |InPartsUpTo(ctx, names, row, n)| <= n
    ensures (forall k :: 0 <= k < n ==> InFieldColumn(ctx, names[k]) >= 0) ==> |InPartsUpTo(ctx, names, row, n)| == n
    ensures (forall k :: 0 <= k < n ==> InFieldColumn(ctx, names[k]) < 0) ==> InPartsUpTo(ctx, names, row, n) == []
  {
    if n > 0 {
      InPartsResolved(ctx, names, row, n - 1);
    }
  }

  // ================================================================ the sequence tab

  /** The non-empty trimmed column-0 values of the first `n` rows, top to bottom. */
  function Column0Values(ws: Worksheet, n: nat): seq<string>
  {
    if n == 0 then []
    else Column0Values(ws, n - 1) + (if TextAt(ws, n - 1, 0) != "" then [TextAt(ws, n - 1, 0)] else [])
  }

  /** What `readSeqFromTab` returns: the values joined by `;`, or `''` for a missing sheet. */
  function SeqFromTab(wb: Workbook, tabName: string): string
  {
    if tabName in wb then Join(Column0Values(wb[tabName], wb[tabName].lastRow + 1), ';') else ""
  }

  /** `readSeqFromTab`. */
  method ReadSeqFromTab(wb: Workbook, tabName: string) returns (s: string)
    ensures s == SeqFromTab(wb, tabName)
  {
    if tabName !in wb {
      return "";
    }
    var sheet := wb[tabName];
    var sequences: seq<string> := [];
    for row := 0 to sheet.lastRow + 1
      invariant sequences == Column0Values(sheet, row)
    {
      var value := TextAt(sheet, row, 0);
      if value != "" {
        sequences := sequences + [value];
      }
    }
    s := Join(sequences, ';');
  }

  lemma {:induction false} Column0ValuesNonEmpty(ws: Worksheet, n: nat)
    ensures forall k :: 0 <= k < |Column0Values(ws, n)| ==> Column0Values(ws, n)[k] != ""
  {
    if n > 0 {
      Column0ValuesNonEmpty(ws, n - 1);
    }
  }

  lemma {:induction false} JoinEmpty(parts: seq<string>, sep: char)
    requires forall k :: 0 <= k < |parts| ==> parts[k] != ""
    ensures Join(parts, sep) == "" <==> parts == []
  {
    if |parts| > 1 {
      assert |Join(parts, sep)| >= |parts[0]| + 1;
    }
  }

  /**
   * The sequence passes the executor runs: the `;`-pieces of the tab's text,
   * or one empty pass when the tab yields nothing.
   */
  function SequencePasses(seqText: string): (r: seq<string>)
    ensures |r| >= 1
  {
    if seqText != "" then Split(seqText, ';') else [""]
  }

  /**
   * When no sequence value holds a `;`, the passes are exactly the tab's
   * non-empty column-0 values, top to bottom; with no values there is one empty pass.
   */
  lemma {:induction false} SequencePassesFromTab(wb: Workbook, tabName: string)
    requires tabName in wb
    requires PiecesFree(Column0Values(wb[tabName], wb[tabName].lastRow + 1), ';')
    ensures var vs := Column0Values(wb[tabName], wb[tabName].lastRow + 1);
            SequencePasses(SeqFromTab(wb, tabName)) == if vs == [] then [""] else vs
  {
    var vs := Column0Values(wb[tabName], wb[tabName].lastRow + 1);
    Column0ValuesNonEmpty(wb[tabName], wb[tabName].lastRow + 1);
    JoinEmpty(vs, ';');
    if vs != [] {
      SplitJoin(vs, ';');
    }
  }

  // ================================================================ the accumulator lists

  /** The three parallel lists a sequence pass accumulates. */
  class Accumulator {
    var texts: seq<string>
    var inLists: seq<string>
    var outLists: seq<string>

    /** The three lists stay equal in length. */
    ghost predicate Valid()
      reads this
    {
      |texts| == |inLists| == |outLists|
    }

    /** The rows accumulated so far, as triples. */
    ghost function Accumulated(): seq<RowTriple>
      reads this
    {
      Rows(texts, inLists, outLists)
    }

    constructor ()
      ensures Valid() && Accumulated() == []
      ensures texts == [] && inLists == [] && outLists == []
    {
      texts, inLists, outLists := [], [], [];
    }

    /** `initClearList`: empties all three lists. */
    method InitClearList()
      modifies this
      ensures Valid() && Accumulated() == []
      ensures texts == [] && inLists == [] && outLists == []
    {
      texts, inLists, outLists := [], [], [];
    }

    /** `buildList`: appends one row to each list. */
    method BuildList(text: string, inList: string, outList: string)
      requires Valid()
      modifies this
      ensures Valid()
      ensures texts == old(texts) + [text] && inLists == old(inLists) + [inList] && outLists == old(outLists) + [outList]
      ensures Accumulated() == old(Accumulated()) + [RowTriple(text, inList, outList)]
    {
      texts, inLists, outLists := texts + [text], inLists + [inList], outLists + [outList];
    }
  }
}
