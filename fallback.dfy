/**
 * The fallback path of the ruleset processing route, used when no macro
 * produced a result: the first worksheet, read as rows of raw cell values,
 * becomes a table (the header row found by a keyword heuristic, its cells
 * cleaned into XML tag names, the empty data rows dropped); and the helpers
 * that describe a change to the repository copy (the new-file diff, the diff
 * statistics line) and pick the repository.
 */
module FallbackConverter {
  import opened Wrappers
  import opened Seqs
  import opened Strings
  import opened Sheets
  import opened XmlEscape

  // ================================================================ the header row

  const HeaderKeywords: seq<string> := ["order", "id", "name", "date", "price", "quantity"]

  /** The first cell of a row, as the heuristic reads it: lower-cased, then trimmed. */
  function FirstCellText(row: seq<Cell>): string
    requires |row| > 0
  {
    Trim(ToLowerAscii(CellString(row[0])))
  }

  /** A row whose first cell mentions one of the header keywords. */
  predicate LooksLikeHeader(row: seq<Cell>)
  {
    |row| > 0 && exists k :: 0 <= k < |HeaderKeywords| && Contains(FirstCellText(row), HeaderKeywords[k])
  }

  /** Whether row `q` exists and looks like a header. */
  function RowLooksLikeHeader(rows: seq<seq<Cell>>): nat -> bool
  {
    (q: nat) => q < |rows| && LooksLikeHeader(rows[q])
  }

  /** The first row that looks like a header, or row 0 when none does. */
  function HeaderRowIndex(rows: seq<seq<Cell>>): nat
  {
    if |rows| == 0 then 0
    else
      var r := FirstFrom(RowLooksLikeHeader(rows), 0, |rows| - 1);
      if r < 0 then 0 else r
  }

  /**
   * The header row is the first row that looks like a header; when no row
   * does, it is row 0. It lies within the rows whenever there are any.
   */
  lemma {:induction false} HeaderRowIndexSpec(rows: seq<seq<Cell>>)
    ensures var r := HeaderRowIndex(rows);
            (|rows| > 0 ==> r < |rows|)
            && (forall q :: 0 <= q < r ==> !LooksLikeHeader(rows[q]))
            && ((r < |rows| && LooksLikeHeader(rows[r]))
                || (r == 0 && forall q :: 0 <= q < |rows| ==> !LooksLikeHeader(rows[q])))
  {
    if |rows| > 0 {
      var p := RowLooksLikeHeader(rows);
      FirstFromSpec(p, 0, |rows| - 1);
      assert forall q: nat :: q < |rows| ==> p(q) == LooksLikeHeader(rows[q]);
    }
  }

  /** The keyword test on one row. */
  method IsHeaderRow(row: seq<Cell>) returns (looks: bool)
    ensures looks == LooksLikeHeader(row)
  {
    if |row| == 0 {
      return false;
    }
    var firstCell := FirstCellText(row);
    var k := 0;
    while k < |HeaderKeywords| && !Contains(firstCell, HeaderKeywords[k])
      invariant k <= |HeaderKeywords|
      invariant forall j :: 0 <= j < k ==> !Contains(firstCell, HeaderKeywords[j])
    {
      k := k + 1;
    }
    looks := k < |HeaderKeywords|;
  }

  /** The header-row loop of `generateXMLFromExcel`. */
  method FindHeaderRowIndex(rows: seq<seq<Cell>>) returns (headerRowIndex: nat)
    ensures headerRowIndex == HeaderRowIndex(rows)
  {
    headerRowIndex := 0;
    if |rows| == 0 {
      return;
    }
    var i := 0;
    ghost var holds := RowLooksLikeHeader(rows);
    while i < |rows|
      invariant i <= |rows|
      invariant FirstFrom(holds, i, |rows| - 1) == FirstFrom(holds, 0, |rows| - 1)
      invariant headerRowIndex == 0
      decreases |rows| - i
    {
      var looks := IsHeaderRow(rows[i]);
      if looks {
        assert holds(i);
        headerRowIndex := i;
        break;
      }
      assert !holds(i);
      i := i + 1;
    }
  }

  // ================================================================ tag names

  /** The characters the tag cleaner keeps: ASCII letters and digits, white space and `-`. */
  predicate TagChar(c: char)
  {
    'a' <= c <= 'z' || 'A' <= c <= 'Z' || '0' <= c <= '9' || IsSpace(c) || c == '-'
  }

  /** `replace(/[^a-zA-Z0-9\s-]/g, '')`. */
  function KeepTagChars(s: string): (r: string)
    ensures forall k :: 0 <= k < |r| ==> TagChar(r[k])
    decreases |s|
  {
    if |s| == 0 then "" else (if TagChar(s[0]) then [s[0]] else "") + KeepTagChars(s[1..])
  }

  /** The string without its leading white space. */
  function DropSpaces(s: string): (r: string)
    ensures |r| <= |s|
    ensures |r| > 0 ==> !IsSpace(r[0])
    ensures r == s[|s| - |r|..]
    decreases |s|
  {
    if |s| > 0 && IsSpace(s[0]) then
      var r := DropSpaces(s[1..]);
      assert s[1..][|s| - 1 - |r|..] == s[|s| - |r|..];
      r
    else s
  }

  /** `replace(/\s+/g, '_')`: every maximal run of white space becomes one `_`. */
  function CollapseSpaces(s: string): string
    decreases |s|
  {
    if |s| == 0 then ""
    else if IsSpace(s[0]) then "_" + CollapseSpaces(DropSpaces(s[1..]))
    else [s[0]] + CollapseSpaces(s[1..])
  }

  /** `replace(/^[0-9]/, 'col_$&')`. */
  function PrefixDigit(s: string): string
  {
    if |s| > 0 && IsDigit(s[0]) then "col_" + s else s
  }

  /** The tag of header cell `index`: `column_<index+1>` for a falsy cell, the cleaned text otherwise. */
  function CleanHeader(header: Cell, index: nat): string
  {
    if Falsy(header) then "column_" + NatToString(index + 1)
    else ToLowerAscii(PrefixDigit(CollapseSpaces(KeepTagChars(Trim(CellString(header))))))
  }

  /** `headers.map(...)`: one tag per header cell. */
  function CleanHeaders(headers: seq<Cell>): (tags: seq<string>)
    ensures |tags| == |headers|
    ensures forall i :: 0 <= i < |headers| ==> tags[i] == CleanHeader(headers[i], i)
  {
    seq(|headers|, i requires 0 <= i < |headers| => CleanHeader(headers[i], i))
  }

  /** The characters a cleaned tag is made of: lower-case ASCII letters, digits, `_` and `-`. */
  predicate SafeTagChar(c: char)
  {
    'a' <= c <= 'z' || '0' <= c <= '9' || c == '_' || c == '-'
  }

  /** ASCII letters, digits and `-`: the characters a tag keeps as they are, up to case. */
  predicate WordChar(c: char)
  {
    'a' <= c <= 'z' || 'A' <= c <= 'Z' || '0' <= c <= '9' || c == '-'
  }

  /** The characters collapsing leaves: `_` for a run of white space, and the non-space kept characters. */
  predicate CollapsedChar(c: char)
  {
    c == '_' || WordChar(c)
  }

  lemma {:induction false} CollapseSpacesChars(s: string)
    requires forall k :: 0 <= k < |s| ==> TagChar(s[k])
    ensures forall k :: 0 <= k < |CollapseSpaces(s)| ==> CollapsedChar(CollapseSpaces(s)[k])
    decreases |s|
  {
    if |s| > 0 {
      if IsSpace(s[0]) {
        var d := DropSpaces(s[1..]);
        assert forall k :: 0 <= k < |d| ==> TagChar(d[k]) by {
          forall k | 0 <= k < |d|
            ensures TagChar(d[k])
          {
            assert d[k] == s[1..][|s[1..]| - |d| + k];
          }
        }
        CollapseSpacesChars(d);
      } else {
        assert WordChar(s[0]);
        assert forall k :: 0 <= k < |s[1..]| ==> s[1..][k] == s[k + 1];
        CollapseSpacesChars(s[1..]);
      }
    }
  }

  /** Every tag is made of lower-case ASCII letters, digits, `_` and `-` only. */
  lemma {:induction false} CleanHeaderSafe(header: Cell, index: nat)
    ensures forall k :: 0 <= k < |CleanHeader(header, index)| ==> SafeTagChar(CleanHeader(header, index)[k])
  {
    if !Falsy(header) {
      var kept := KeepTagChars(Trim(CellString(header)));
      CollapseSpacesChars(kept);
      var p := PrefixDigit(CollapseSpaces(kept));
      assert forall k :: 0 <= k < |p| ==> CollapsedChar(p[k]);
    }
  }

  /** A falsy header cell is named after its position, counted from 1. */
  lemma {:induction false} CleanHeaderBlank(header: Cell, index: nat)
    requires Falsy(header)
    ensures CleanHeader(header, index) == "column_" + NatToString(index + 1)
  {
  }

  /** Falsy header cells at different positions get different tags. */
  lemma {:induction false} CleanHeaderBlankDistinct(a: Cell, i: nat, b: Cell, j: nat)
    requires Falsy(a) && Falsy(b) && i != j
    ensures CleanHeader(a, i) != CleanHeader(b, j)
  {
    var prefix := "column_";
    if CleanHeader(a, i) == CleanHeader(b, j) {
      assert (prefix + NatToString(i + 1))[|prefix|..] == NatToString(i + 1);
      assert (prefix + NatToString(j + 1))[|prefix|..] == NatToString(j + 1);
      NatToStringInjective(i + 1, j + 1);
    }
  }

  /** A string of kept characters is kept whole. */
  lemma {:induction false} KeepTagCharsKeeps(s: string)
    requires forall k :: 0 <= k < |s| ==> TagChar(s[k])
    ensures KeepTagChars(s) == s
    decreases |s|
  {
    if |s| > 0 {
      KeepTagCharsKeeps(s[1..]);
    }
  }

  predicate NoSpace(s: string)
  {
    forall k :: 0 <= k < |s| ==> !IsSpace(s[k])
  }

  predicate AllSpace(s: string)
  {
    forall k :: 0 <= k < |s| ==> IsSpace(s[k])
  }

  /** A string without white space is not changed by the collapsing. */
  lemma {:induction false} CollapseSpacesNone(s: string)
    requires NoSpace(s)
    ensures CollapseSpaces(s) == s
    decreases |s|
  {
    if |s| > 0 {
      assert NoSpace(s[1..]) by {
        assert forall k :: 0 <= k < |s[1..]| ==> s[1..][k] == s[k + 1];
      }
      CollapseSpacesNone(s[1..]);
    }
  }

  lemma {:induction false} DropSpacesGap(gap: string, b: string)
    requires AllSpace(gap)
    requires |b| > 0 ==> !IsSpace(b[0])
    ensures DropSpaces(gap + b) == b
    decreases |gap|
  {
    if |gap| > 0 {
      assert (gap + b)[0] == gap[0];
      assert (gap + b)[1..] == gap[1..] + b;
      assert AllSpace(gap[1..]) by {
        assert forall k :: 0 <= k < |gap[1..]| ==> gap[1..][k] == gap[k + 1];
      }
      DropSpacesGap(gap[1..], b);
    } else {
      assert gap + b == b;
    }
  }

  /** A run of white space before a word becomes one `_`. */
  lemma {:induction false} CollapseSpacesLeadingGap(gap: string, b: string)
    requires |gap| > 0 && AllSpace(gap)
    requires NoSpace(b)
    ensures CollapseSpaces(gap + b) == "_" + b
  {
    var s := gap + b;
    assert s[0] == gap[0] && IsSpace(s[0]);
    assert s[1..] == gap[1..] + b;
    assert AllSpace(gap[1..]) by {
      assert forall k :: 0 <= k < |gap[1..]| ==> gap[1..][k] == gap[k + 1];
    }
    DropSpacesGap(gap[1..], b);
    CollapseSpacesNone(b);
  }

  /** Two words separated by a run of white space become the words joined by one `_`. */
  lemma {:induction false} CollapseSpacesGap(a: string, gap: string, b: string)
    requires NoSpace(a)
    requires |gap| > 0 && AllSpace(gap)
    requires NoSpace(b)
    ensures CollapseSpaces(a + gap + b) == a + "_" + b
    decreases |a|
  {
    if |a| == 0 {
      assert a + gap + b == gap + b;
      CollapseSpacesLeadingGap(gap, b);
    } else {
      var s := a + gap + b;
      assert s[0] == a[0] && !IsSpace(s[0]);
      assert s[1..] == a[1..] + gap + b;
      assert NoSpace(a[1..]) by {
        assert forall k :: 0 <= k < |a[1..]| ==> a[1..][k] == a[k + 1];
      }
      CollapseSpacesGap(a[1..], gap, b);
      assert a + "_" + b == [a[0]] + (a[1..] + "_" + b);
    }
  }

  /**
   * A header whose trimmed text has only letters, digits and `-` becomes
   * that text lower-cased, with `col_` in front when it starts with a digit.
   */
  lemma {:induction false} CleanHeaderWord(header: Cell, index: nat)
    requires !Falsy(header)
    requires forall k :: 0 <= k < |Trim(CellString(header))| ==> WordChar(Trim(CellString(header))[k])
    ensures var t := Trim(CellString(header));
            CleanHeader(header, index) == ToLowerAscii(if |t| > 0 && IsDigit(t[0]) then "col_" + t else t)
  {
    var t := Trim(CellString(header));
    assert forall k :: 0 <= k < |t| ==> TagChar(t[k]) && !IsSpace(t[k]) by {
      forall k | 0 <= k < |t|
        ensures TagChar(t[k]) && !IsSpace(t[k])
      {
        assert WordChar(t[k]);
      }
    }
    KeepTagCharsKeeps(t);
    CollapseSpacesNone(t);
    assert CleanHeader(header, index) == ToLowerAscii(PrefixDigit(t));
  }

  // ================================================================ data rows

  /** A row with at least one cell that is neither empty text nor missing. */
  predicate HasContent(row: seq<Cell>)
  {
    exists k :: 0 <= k < |row| && row[k] != Blank && row[k] != Text("")
  }

  /** The data-row filter of `generateXMLFromExcel`, in row order. */
  function DataRows(rows: seq<seq<Cell>>): (r: seq<seq<Cell>>)
    ensures |r| <= |rows|
    decreases |rows|
  {
    if |rows| == 0 then [] else (if HasContent(rows[0]) then [rows[0]] else []) + DataRows(rows[1..])
  }

  /** The filter keeps exactly the rows with content. */
  lemma {:induction false} DataRowsMembers(rows: seq<seq<Cell>>)
    ensures forall row :: row in DataRows(rows) <==> row in rows && HasContent(row)
    decreases |rows|
  {
    if |rows| > 0 {
      DataRowsMembers(rows[1..]);
      assert forall row :: row in rows <==> row == rows[0] || row in rows[1..];
    }
  }

  /** The table the fallback document is written from. */
  datatype Table = Table(headerRowIndex: nat, tags: seq<string>, rows: seq<seq<Cell>>)

  /**
   * The table of a sheet's rows: the tags of the header row and the rows with
   * content below it. A sheet with no rows has no header row to map, and the
   * conversion fails.
   */
  function TableOf(rows: seq<seq<Cell>>): Option<Table>
  {
    if |rows| == 0 then None
    else
      var h := HeaderRowIndex(rows);
      if h < |rows| then Some(Table(h, CleanHeaders(rows[h]), DataRows(rows[h + 1..])))
      else None
  }

  /** The table is there exactly when the sheet has rows; its tags are one per header cell, its rows those with content. */
  lemma {:induction false} TableOfSpec(rows: seq<seq<Cell>>)
    ensures TableOf(rows).Some? <==> |rows| > 0
    ensures TableOf(rows).Some? ==>
              var t := TableOf(rows).value;
              t.headerRowIndex == HeaderRowIndex(rows) && t.headerRowIndex < |rows|
              && |t.tags| == |rows[t.headerRowIndex]|
              && forall row :: row in t.rows <==> row in rows[t.headerRowIndex + 1..] && HasContent(row)
  {
    HeaderRowIndexSpec(rows);
    if |rows| > 0 {
      DataRowsMembers(rows[HeaderRowIndex(rows) + 1..]);
    }
  }

  /** The reading of the sheet in `generateXMLFromExcel`, up to the filtered data rows. */
  method ReadTable(rows: seq<seq<Cell>>) returns (t: Option<Table>)
    ensures t == TableOf(rows)
  {
    var headerRowIndex := FindHeaderRowIndex(rows);
    if headerRowIndex >= |rows| {
      return None;
    }
    var headers := rows[headerRowIndex];
    var dataRows := rows[headerRowIndex + 1..];
    var cleanHeaders := CleanHeaders(headers);
    var filteredDataRows := DataRows(dataRows);
    t := Some(Table(headerRowIndex, cleanHeaders, filteredDataRows));
  }

  // ================================================================ the document

  /** What the upload supplies besides the workbook; an absent story number is the empty string. */
  datatype Upload = Upload(fileName: string, release: string, environment: string, storyNumber: string)

  const DocumentOpen := "<?xml version=\"1.0\" encoding=\"UTF-8\"?>\n<excel-data>\n  <metadata>\n"
  const DataOpen := "  </metadata>\n  <data>\n"
  const DocumentClose := "  </data>\n</excel-data>"
  const FailedData := "  </metadata>\n  <data>\n    <error>Processing failed</error>\n  </data>\n</excel-data>"
  const FailedPrefix := "Failed to process Excel file: "
  const MetaIndent := "    "
  const CellIndent := "      "
  const RowClose := "    </row>\n"

  /** One element on a line of its own. */
  function Element(indent: string, tag: string, text: string): string
  {
    indent + "<" + tag + ">" + text + "</" + tag + ">\n"
  }

  /** `storyNumber || 'N/A'`. */
  function StoryText(u: Upload): string
  {
    OrElse(u.storyNumber, "N/A")
  }

  /** The metadata of a converted sheet: the upload, the sheet and the shape of its table. */
  function MetadataXml(u: Upload, sheetName: string, t: Table): string
  {
    Element(MetaIndent, "source-file", u.fileName) + Element(MetaIndent, "sheet-name", sheetName)
    + Element(MetaIndent, "release", u.release) + Element(MetaIndent, "environment", u.environment)
    + Element(MetaIndent, "story-number", StoryText(u)) + Element(MetaIndent, "total-rows", NatToString(|t.rows|))
    + Element(MetaIndent, "total-columns", NatToString(|t.tags|)) + Element(MetaIndent, "header-row", NatToString(t.headerRowIndex + 1))
  }

  /** The cell under column `k`; a row shorter than the header has nothing there. */
  function CellOf(row: seq<Cell>, k: nat): Cell
  {
    if k < |row| then row[k] else Blank
  }

  /** A number above 40000 in a column whose tag mentions `date` is read as a date serial. */
  predicate IsDateSerial(tag: string, c: Cell)
  {
    Contains(tag, "date") && c.Number? && c.n > 40000
  }

  /**
   * The escaped text of a cell; a date serial is first rendered as a date by
   * `dateText`, which stands for the local-time `DD.MM.YYYY` formatting.
   */
  function CellValue(tag: string, c: Cell, dateText: int -> string): string
  {
    if IsDateSerial(tag, c) then EscapeXml(dateText(c.n)) else EscapeCell(c)
  }

  function CellXml(tag: string, c: Cell, dateText: int -> string): string
  {
    Element(CellIndent, EscapeXml(tag), CellValue(tag, c, dateText))
  }

  /** The elements of the first `n` columns of a row. */
  function CellsXml(tags: seq<string>, row: seq<Cell>, n: nat, dateText: int -> string): string
    requires n <= |tags|
  {
    if n == 0 then "" else CellsXml(tags, row, n - 1, dateText) + CellXml(tags[n - 1], CellOf(row, n - 1), dateText)
  }

  function RowOpen(rowIndex: nat): string
  {
    "    <row index=\"" + NatToString(rowIndex + 1) + "\">\n"
  }

  /** The element of data row `rowIndex`, numbered from 1, with one child per column. */
  function RowXml(tags: seq<string>, row: seq<Cell>, rowIndex: nat, dateText: int -> string): string
  {
    RowOpen(rowIndex) + CellsXml(tags, row, |tags|, dateText) + RowClose
  }

  /** The elements of the first `n` data rows. */
  function RowsXml(tags: seq<string>, rows: seq<seq<Cell>>, n: nat, dateText: int -> string): string
    requires n <= |rows|
  {
    if n == 0 then "" else RowsXml(tags, rows, n - 1, dateText) + RowXml(tags, rows[n - 1], n - 1, dateText)
  }

  /** The document of a converted sheet. */
  function DocumentXml(u: Upload, sheetName: string, t: Table, dateText: int -> string): string
  {
    DocumentOpen + MetadataXml(u, sheetName, t) + DataOpen + RowsXml(t.tags, t.rows, |t.rows|, dateText) + DocumentClose
  }

  /** The document written when the conversion throws `message`. */
  function FailureXml(u: Upload, message: string): string
  {
    DocumentOpen + Element(MetaIndent, "source-file", u.fileName) + Element(MetaIndent, "release", u.release)
    + Element(MetaIndent, "environment", u.environment) + Element(MetaIndent, "story-number", StoryText(u))
    + Element(MetaIndent, "error", FailedPrefix + message) + FailedData
  }

  /**
   * `generateXMLFromExcel` on the first sheet of the workbook (its name and
   * rows, or `None` when the workbook cannot be read); `message` is what the
   * runtime throws when the conversion fails.
   */
  function ExcelXml(u: Upload, sheet: Option<(string, seq<seq<Cell>>)>, dateText: int -> string, message: string): string
  {
    if sheet.None? then FailureXml(u, message)
    else
      var t := TableOf(sheet.value.1);
      if t.None? then FailureXml(u, message) else DocumentXml(u, sheet.value.0, t.value, dateText)
  }

  /** The column loop of one data row. */
  method WriteRow(tags: seq<string>, row: seq<Cell>, rowIndex: nat, dateText: int -> string) returns (xml: string)
    ensures xml == RowXml(tags, row, rowIndex, dateText)
  {
    var open := RowOpen(rowIndex);
    xml := open;
    for colIndex := 0 to |tags|
      invariant xml == open + CellsXml(tags, row, colIndex, dateText)
    {
      var header := tags[colIndex];
      var cellValue := CellOf(row, colIndex);
      var safeValue := if IsDateSerial(header, cellValue) then EscapeXml(dateText(cellValue.n)) else EscapeCell(cellValue);
      var cellXml := Element(CellIndent, EscapeXml(header), safeValue);
      assert cellXml == CellXml(header, cellValue, dateText);
      ConcatAssoc(open, CellsXml(tags, row, colIndex, dateText), cellXml);
      xml := xml + cellXml;
    }
    xml := xml + RowClose;
  }

  /** The row loop: the data rows appended one by one after `head`. */
  method AppendRows(head: string, tags: seq<string>, rows: seq<seq<Cell>>, dateText: int -> string) returns (xmlContent: string)
    ensures xmlContent == head + RowsXml(tags, rows, |rows|, dateText)
  {
    xmlContent := head;
    for rowIndex := 0 to |rows|
      invariant xmlContent == head + RowsXml(tags, rows, rowIndex, dateText)
    {
      var rowXml := WriteRow(tags, rows[rowIndex], rowIndex, dateText);
      ConcatAssoc(head, RowsXml(tags, rows, rowIndex, dateText), rowXml);
      xmlContent := xmlContent + rowXml;
    }
  }

  /** The document of a table: the metadata, then the data rows one by one. */
  method WriteDocument(u: Upload, sheetName: string, t: Table, dateText: int -> string) returns (xmlContent: string)
    ensures xmlContent == DocumentXml(u, sheetName, t, dateText)
  {
    var head := DocumentOpen + MetadataXml(u, sheetName, t) + DataOpen;
    xmlContent := AppendRows(head, t.tags, t.rows, dateText);
    xmlContent := xmlContent + DocumentClose;
  }

  /** `generateXMLFromExcel`: the table, then its document; a failure gives the error document. */
  method GenerateXmlFromExcel(u: Upload, sheet: Option<(string, seq<seq<Cell>>)>, dateText: int -> string, message: string)
    returns (xmlContent: string)
    ensures xmlContent == ExcelXml(u, sheet, dateText, message)
  {
    if sheet.None? {
      return FailureXml(u, message);
    }
    var table := ReadTable(sheet.value.1);
    if table.None? {
      return FailureXml(u, message);
    }
    xmlContent := WriteDocument(u, sheet.value.0, table.value, dateText);
  }

  /** The tags of a header row need no escaping: escaping leaves each of them as it is. */
  lemma {:induction false} TagsNeedNoEscaping(headers: seq<Cell>)
    ensures forall i :: 0 <= i < |headers| ==> EscapeXml(CleanHeaders(headers)[i]) == CleanHeaders(headers)[i]
  {
    forall i | 0 <= i < |headers|
      ensures EscapeXml(CleanHeaders(headers)[i]) == CleanHeaders(headers)[i]
    {
      var tag := CleanHeader(headers[i], i);
      CleanHeaderSafe(headers[i], i);
      assert forall k :: 0 <= k < |tag| ==> !IsMarkup(tag[k]) by {
        forall k | 0 <= k < |tag|
          ensures !IsMarkup(tag[k])
        {
          assert SafeTagChar(tag[k]);
        }
      }
      EscapeXmlPlain(tag);
    }
  }

  /**
   * A cell's text holds no raw `<`, `>`, `"` or `'`, and unescaping it gives
   * back the cell's string, or the rendered date of a date serial.
   */
  lemma {:induction false} CellValueRoundTrip(tag: string, c: Cell, dateText: int -> string)
    ensures forall k :: 0 <= k < |CellValue(tag, c, dateText)| ==> CellValue(tag, c, dateText)[k] !in "<>\"'"
    ensures Unescape(CellValue(tag, c, dateText)) == if IsDateSerial(tag, c) then dateText(c.n) else CellString(c)
  {
    var s := if IsDateSerial(tag, c) then dateText(c.n) else CellString(c);
    assert CellValue(tag, c, dateText) == EscapeXml(s);
    EscapeXmlNoRawMarkup(s);
    EscapeXmlRoundTrip(s);
  }

  // ================================================================ the new-file diff

  const NewFileHeader := "diff --git a/nrt-ruleset.xml b/nrt-ruleset.xml\nnew file mode 100644\nindex 0000000..1234567\n--- /dev/null\n+++ b/nrt-ruleset.xml\n@@ -0,0 +1,"

  const NoChanges := "No changes detected."

  /** One added line of the diff. */
  function AddedLine(line: string): string
  {
    "+" + line + "\n"
  }

  /** The diff of a new file: the header with the line count, then every line added. */
  function NewFileDiff(newContent: string): string
  {
    var newLines := Split(newContent, '\n');
    NewFileHeader + NatToString(|newLines|) + " @@\n" + FlatMapUpTo(AddedLine, newLines, |newLines|)
  }

  /** What `generateGitDiff` returns; a change to an existing file is written by the diff library. */
  datatype GitDiffOutcome = DiffText(text: string) | LibraryPatch(oldContent: string, newContent: string)

  function GitDiff(oldContent: string, newContent: string): GitDiffOutcome
  {
    if oldContent == "" then DiffText(NewFileDiff(newContent))
    else if oldContent == newContent then DiffText(NoChanges)
    else LibraryPatch(oldContent, newContent)
  }

  /** The new-file branch of `generateGitDiff`. */
  method GenerateNewFileDiff(newContent: string) returns (diffOutput: string)
    ensures diffOutput == NewFileDiff(newContent)
  {
    var newLines := Split(newContent, '\n');
    var head := NewFileHeader + NatToString(|newLines|) + " @@\n";
    diffOutput := head;
    for i := 0 to |newLines|
      invariant diffOutput == head + FlatMapUpTo(AddedLine, newLines, i)
    {
      FlatMapStep(AddedLine, newLines, i, head, diffOutput);
      diffOutput := diffOutput + AddedLine(newLines[i]);
    }
  }

  /** `generateGitDiff`. */
  method GenerateGitDiff(oldContent: string, newContent: string) returns (d: GitDiffOutcome)
    ensures d == GitDiff(oldContent, newContent)
  {
    if oldContent == "" {
      var text := GenerateNewFileDiff(newContent);
      return DiffText(text);
    }
    if oldContent == newContent {
      return DiffText(NoChanges);
    }
    d := LibraryPatch(oldContent, newContent);
  }

  /** Reads one added line off the front: a `+`, the line, a newline, and what follows. */
  function ReadAddedLine(s: string): (r: Option<(string, string)>)
    ensures r.Some? ==> |r.value.1| < |s|
  {
    if |s| == 0 || s[0] != '+' then None
    else
      var k := FindChar(s[1..], '\n');
      if k < 0 then None else Some((s[1..k + 1], s[k + 2..]))
  }

  /** Reads the added lines back, as long as they last. */
  function AddedLines(s: string): seq<string>
    decreases |s|
  {
    var r := ReadAddedLine(s);
    if r.None? then [] else [r.value.0] + AddedLines(r.value.1)
  }

  lemma {:induction false} LineThenRest(line: string, rest: string)
    requires '\n' !in line
    ensures var t := line + ("\n" + rest);
            FindChar(t, '\n') == |line| && t[..|line|] == line && t[|line| + 1..] == rest
  {
    var t := line + ("\n" + rest);
    assert t[|line|] == '\n' && t[..|line|] == line;
  }

  lemma {:induction false} ReadAddedLineOf(t: string)
    requires FindChar(t, '\n') >= 0
    ensures var k := FindChar(t, '\n');
            ReadAddedLine("+" + t) == Some((t[..k], t[k + 1..]))
  {
    var k := FindChar(t, '\n');
    var s := "+" + t;
    assert s[0] == '+' && s[1..] == t;
    assert s[1..k + 1] == t[..k] && s[k + 2..] == t[k + 1..];
  }

  lemma {:induction false} ReadAddedLineBack(line: string, rest: string)
    requires '\n' !in line
    ensures ReadAddedLine(AddedLine(line) + rest) == Some((line, rest))
  {
    var t := line + ("\n" + rest);
    assert AddedLine(line) + rest == "+" + t;
    LineThenRest(line, rest);
    ReadAddedLineOf(t);
  }

  lemma {:induction false} AddedLinesStep(line: string, rest: string)
    requires '\n' !in line
    ensures ReadsOne(AddedLine, AddedLines, line, rest)
  {
    ReadAddedLineBack(line, rest);
  }

  /**
   * The new-file diff holds the header with the number of lines of the new
   * content, and reading its added lines back and joining them with
   * newlines gives the new content.
   */
  lemma {:induction false} NewFileDiffRoundTrip(newContent: string)
    ensures var lines := Split(newContent, '\n');
            var body := FlatMapUpTo(AddedLine, lines, |lines|);
            NewFileDiff(newContent) == NewFileHeader + NatToString(|lines|) + " @@\n" + body
            && Join(AddedLines(body), '\n') == newContent
  {
    var lines := Split(newContent, '\n');
    forall line, rest | '\n' !in line
      ensures ReadsOne(AddedLine, AddedLines, line, rest)
    {
      AddedLinesStep(line, rest);
    }
    SplitPiecesFree(newContent, '\n');
    ReadBackWrittenWhere(AddedLine, AddedLines, (line: string) => '\n' !in line, lines, "");
    assert FlatMapUpTo(AddedLine, lines, |lines|) + "" == FlatMapUpTo(AddedLine, lines, |lines|);
    JoinSplit(newContent, '\n');
  }

  // ================================================================ the diff statistics

  /** One change the line-diff library reports; a missing count counts as 0. */
  datatype Change = Change(added: bool, removed: bool, count: Option<nat>)

  function CountOf(c: Change): nat
  {
    if c.count.Some? then c.count.value else 0
  }

  /** The lines added by the first `n` changes. */
  function Insertions(changes: seq<Change>, n: nat): nat
    requires n <= |changes|
  {
    if n == 0 then 0 else Insertions(changes, n - 1) + (if changes[n - 1].added then CountOf(changes[n - 1]) else 0)
  }

  /** The lines removed by the first `n` changes; a change marked both added and removed counts as added. */
  function Deletions(changes: seq<Change>, n: nat): nat
    requires n <= |changes|
  {
    if n == 0 then 0
    else Deletions(changes, n - 1) + (if !changes[n - 1].added && changes[n - 1].removed then CountOf(changes[n - 1]) else 0)
  }

  /** The counting loop of `generateDiffStat`. */
  method CountChanges(changes: seq<Change>) returns (insertions: nat, deletions: nat)
    ensures insertions == Insertions(changes, |changes|) && deletions == Deletions(changes, |changes|)
  {
    insertions, deletions := 0, 0;
    for i := 0 to |changes|
      invariant insertions == Insertions(changes, i) && deletions == Deletions(changes, i)
    {
      var change := changes[i];
      if change.added {
        insertions := insertions + CountOf(change);
      } else if change.removed {
        deletions := deletions + CountOf(change);
      }
    }
  }

  /** `<n> <word>`, with `s` after the word unless the count is 1. */
  function Counted(n: nat, word: string): string
  {
    NatToString(n) + " " + word + (if n == 1 then "" else "s")
  }

  function InsertionCount(n: nat): string
  {
    Counted(n, "insertion") + "(+)"
  }

  function DeletionCount(n: nat): string
  {
    Counted(n, "deletion") + "(-)"
  }

  const StatPrefix := " nrt-ruleset.xml | "
  const FileChanged := "\n 1 file changed, "
  const PluralInsertions := " insertions(+)"

  /** The statistics of a new file of `lines` lines, as written: the count is always followed by `insertions`. */
  function NewFileStat(lines: nat): string
  {
    StatPrefix + NatToString(lines) + " +" + FileChanged + NatToString(lines) + PluralInsertions
  }

  /** The parenthesised detail after the total: the non-zero counts. */
  function StatDetail(insertions: nat, deletions: nat): string
  {
    if insertions > 0 && deletions > 0 then " (" + InsertionCount(insertions) + ", " + DeletionCount(deletions) + ")"
    else if insertions > 0 then " (" + InsertionCount(insertions) + ")"
    else if deletions > 0 then " (" + DeletionCount(deletions) + ")"
    else ""
  }

  /** The statistics of a change with at least one changed line. */
  function ChangeStat(insertions: nat, deletions: nat): string
  {
    StatPrefix + Counted(insertions + deletions, "change") + StatDetail(insertions, deletions)
    + FileChanged + InsertionCount(insertions) + ", " + DeletionCount(deletions)
  }

  /** `generateDiffStat`, given the changes the line-diff library reports. */
  function DiffStat(oldContent: string, newContent: string, changes: seq<Change>): string
  {
    if oldContent == "" then NewFileStat(|Split(newContent, '\n')|)
    else if oldContent == newContent then NoChanges
    else
      var insertions, deletions := Insertions(changes, |changes|), Deletions(changes, |changes|);
      if insertions + deletions == 0 then NoChanges else ChangeStat(insertions, deletions)
  }

  /** `generateDiffStat`. */
  method GenerateDiffStat(oldContent: string, newContent: string, changes: seq<Change>) returns (stat: string)
    ensures stat == DiffStat(oldContent, newContent, changes)
  {
    if oldContent == "" {
      var newLines := |Split(newContent, '\n')|;
      return NewFileStat(newLines);
    }
    if oldContent == newContent {
      return NoChanges;
    }
    var insertions, deletions := CountChanges(changes);
    var totalChanges := insertions + deletions;
    if totalChanges == 0 {
      return NoChanges;
    }
    stat := StatPrefix + Counted(totalChanges, "change");
    stat := stat + StatDetail(insertions, deletions);
    stat := stat + FileChanged + InsertionCount(insertions) + ", " + DeletionCount(deletions);
  }

  /**
   * The statistics say `No changes detected.` exactly when the file exists
   * and either its content is unchanged or the library reports no changed line.
   */
  lemma {:induction false} DiffStatNoChanges(oldContent: string, newContent: string, changes: seq<Change>)
    ensures DiffStat(oldContent, newContent, changes) == NoChanges <==>
            oldContent != "" && (oldContent == newContent || Insertions(changes, |changes|) + Deletions(changes, |changes|) == 0)
  {
    var s := DiffStat(oldContent, newContent, changes);
    if oldContent == "" || (oldContent != newContent && Insertions(changes, |changes|) + Deletions(changes, |changes|) != 0) {
      assert s[0] == StatPrefix[0] == ' ';
      assert NoChanges[0] == 'N';
    }
  }

  /** The word after a count is singular exactly when the count is 1. */
  lemma {:induction false} CountedAgrees(n: nat, word: string)
    ensures Counted(n, word) == NatToString(n) + " " + word <==> n == 1
  {
    var base := NatToString(n) + " " + word;
    assert |base + "s"| != |base|;
  }

  /** The new-file statistics up to the word after the second count. */
  function NewFileStatHead(lines: nat): string
  {
    StatPrefix + NatToString(lines) + " +" + FileChanged + NatToString(lines) + " insertion"
  }

  /** As written, the word after the count is plural whatever the count: a one-line file gets `1 insertions(+)`. */
  lemma {:induction false} NewFileStatPlural(lines: nat)
    ensures NewFileStat(lines) == NewFileStatHead(lines) + "s(+)"
  {
    var a := StatPrefix + NatToString(lines) + " +" + FileChanged + NatToString(lines);
    assert PluralInsertions == " insertion" + "s(+)";
    ConcatAssoc(a, " insertion", "s(+)");
  }

  /** The new-file statistics with the count and its word agreeing, as in the other branch. */
  function NewFileStatAgreeing(lines: nat): string
  {
    StatPrefix + NatToString(lines) + " +" + FileChanged + InsertionCount(lines)
  }

  /**
   * In the agreeing form the word after the count is singular exactly when
   * the count is 1; it differs from the written form only for a one-line file.
   */
  lemma {:induction false} NewFileStatAgreeingSpec(lines: nat)
    ensures NewFileStatAgreeing(lines) == NewFileStatHead(lines) + (if lines == 1 then "(+)" else "s(+)")
    ensures NewFileStatAgreeing(lines) == NewFileStat(lines) <==> lines != 1
  {
    var a := StatPrefix + NatToString(lines) + " +" + FileChanged;
    var n := NatToString(lines);
    var suffix := if lines == 1 then "(+)" else "s(+)";
    assert InsertionCount(lines) == n + " insertion" + suffix by {
      assert " " + "insertion" == " insertion";
      assert InsertionCount(lines) == n + " " + "insertion" + (if lines == 1 then "" else "s") + "(+)";
    }
    assert NewFileStatAgreeing(lines) == NewFileStatHead(lines) + suffix by {
      assert NewFileStatAgreeing(lines) == a + (n + " insertion" + suffix);
      assert NewFileStatHead(lines) == a + n + " insertion";
    }
    NewFileStatPlural(lines);
    if lines == 1 {
      assert |NewFileStatHead(lines) + "(+)"| != |NewFileStatHead(lines) + "s(+)"|;
    }
  }

  // ================================================================ the repository

  const Https := "https://"
  const GithubHost := "github.com/"
  const GitSuffix := ".git"

  /** `https://github.com/<owner>/<name>.git`. */
  function GithubUrl(owner: string, name: string): string
  {
    Https + GithubHost + owner + "/" + name + GitSuffix
  }

  const BuiltInOwner := "K3NTAW"
  const ProdRepoUrl := GithubUrl(BuiltInOwner, "xml-prod")
  const DevRepoUrl := GithubUrl(BuiltInOwner, "xml-dev")
  const DefaultRepoUrl := GithubUrl(BuiltInOwner, "xml-test-repo")

  /** `value || fallback` on strings. */
  function OrElse(value: string, fallback: string): (r: string)
    ensures r == (if value == "" then fallback else value)
  {
    if value != "" then value else fallback
  }

  /**
   * The repository for an environment, compared case-insensitively; each
   * configured URL (empty when unset) overrides the built-in one.
   */
  function RepoUrl(environment: string, prodSetting: string, devSetting: string, defaultSetting: string): string
  {
    var env := ToLowerAscii(environment);
    if env == "production" then OrElse(prodSetting, ProdRepoUrl)
    else if env == "development" then OrElse(devSetting, DevRepoUrl)
    else OrElse(defaultSetting, DefaultRepoUrl)
  }

  /**
   * The owner and name the URL pattern captures when its match starts at
   * `p`: `github.com/`, an owner without `/`, `/`, and a name without `/`
   * running to the end, less a trailing `.git` when the name is longer.
   */
  function MatchAt(url: string, p: nat): Option<(string, string)>
    requires p <= |url|
  {
    if !StartsWith(url[p..], GithubHost) then None
    else
      var tail := url[p + |GithubHost|..];
      var slash := FindChar(tail, '/');
      if slash <= 0 then None
      else
        var rest := tail[slash + 1..];
        if |rest| == 0 || '/' in rest then None
        else if |rest| > |GitSuffix| && EndsWith(rest, GitSuffix) then Some((tail[..slash], rest[..|rest| - |GitSuffix|]))
        else Some((tail[..slash], rest))
  }

  /** The leftmost match from `p` on. */
  function MatchFrom(url: string, p: nat): Option<(string, string)>
    requires p <= |url|
    decreases |url| - p
  {
    if MatchAt(url, p).Some? then MatchAt(url, p)
    else if p == |url| then None
    else MatchFrom(url, p + 1)
  }

  const InvalidRepoUrl := "Invalid repository URL format"

  /** The owner and name of a repository URL; a URL the pattern does not match is an error. */
  function ParseRepoUrl(url: string): Result<(string, string)>
  {
    var m := MatchFrom(url, 0);
    if m.Some? then Ok(m.value) else Err(InvalidRepoUrl)
  }

  lemma {:induction false} GithubUrlHost(owner: string, name: string)
    ensures var url := GithubUrl(owner, name);
            StartsWith(url[|Https|..], GithubHost)
            && url[|Https| + |GithubHost|..] == owner + "/" + name + GitSuffix
  {
    var url := GithubUrl(owner, name);
    var tail := owner + "/" + name + GitSuffix;
    assert url == Https + GithubHost + tail;
    assert url[|Https|..] == GithubHost + tail;
    assert (GithubHost + tail)[..|GithubHost|] == GithubHost;
  }

  lemma {:induction false} GithubUrlTail(owner: string, name: string)
    requires '/' !in owner
    ensures var tail := owner + "/" + name + GitSuffix;
            FindChar(tail, '/') == |owner| && tail[..|owner|] == owner && tail[|owner| + 1..] == name + GitSuffix
  {
    var tail := owner + "/" + name + GitSuffix;
    assert tail[|owner|] == '/' && tail[..|owner|] == owner;
  }

  lemma {:induction false} GithubUrlRest(name: string)
    requires |name| > 0 && '/' !in name
    ensures var rest := name + GitSuffix;
            '/' !in rest && |rest| > |GitSuffix| && EndsWith(rest, GitSuffix) && rest[..|rest| - |GitSuffix|] == name
  {
    var rest := name + GitSuffix;
    assert forall k :: 0 <= k < |rest| ==> rest[k] == (if k < |name| then name[k] else GitSuffix[k - |name|]);
    assert rest[|rest| - |GitSuffix|..] == GitSuffix && rest[..|rest| - |GitSuffix|] == name;
  }

  lemma {:induction false} MatchAtGithubUrl(owner: string, name: string)
    requires |owner| > 0 && '/' !in owner
    requires |name| > 0 && '/' !in name
    ensures MatchAt(GithubUrl(owner, name), |Https|) == Some((owner, name))
  {
    GithubUrlHost(owner, name);
    GithubUrlTail(owner, name);
    GithubUrlRest(name);
  }

  /** Positions without a match are skipped over. */
  lemma {:induction false} SkipNoMatch(url: string, p: nat, q: nat)
    requires p <= q <= |url|
    requires forall r :: p <= r < q ==> MatchAt(url, r).None?
    ensures MatchFrom(url, p) == MatchFrom(url, q)
    decreases q - p
  {
    if p < q {
      SkipNoMatch(url, p + 1, q);
    }
  }

  /** No match starts inside the `https://` scheme. */
  lemma {:induction false} SkipScheme(url: string)
    requires |Https| <= |url| && url[..|Https|] == Https
    ensures MatchFrom(url, 0) == MatchFrom(url, |Https|)
  {
    assert GithubHost[0] == 'g' && 'g' !in Https;
    forall p | 0 <= p < |Https|
      ensures MatchAt(url, p).None?
    {
      assert url[p] == Https[p] && Https[p] in Https;
      assert url[p..][0] != GithubHost[0];
    }
    SkipNoMatch(url, 0, |Https|);
  }

  /** A URL of the form `https://github.com/<owner>/<name>.git` gives back its owner and name. */
  lemma {:induction false} ParseGithubUrl(owner: string, name: string)
    requires |owner| > 0 && '/' !in owner
    requires |name| > 0 && '/' !in name
    ensures ParseRepoUrl(GithubUrl(owner, name)) == Ok((owner, name))
  {
    var url := GithubUrl(owner, name);
    MatchAtGithubUrl(owner, name);
    assert url[..|Https|] == Https;
    SkipScheme(url);
  }

  /** With no URL configured, every environment's repository parses, and belongs to the built-in owner. */
  lemma {:induction false} BuiltInRepos(environment: string)
    ensures var parsed := ParseRepoUrl(RepoUrl(environment, "", "", ""));
            parsed.Ok? && parsed.value.0 == BuiltInOwner
  {
    assert '/' !in BuiltInOwner;
    ParseGithubUrl(BuiltInOwner, "xml-prod");
    ParseGithubUrl(BuiltInOwner, "xml-dev");
    ParseGithubUrl(BuiltInOwner, "xml-test-repo");
  }

  /** A configured URL replaces the built-in one of its environment. */
  lemma {:induction false} ConfiguredRepo(environment: string, prodSetting: string, devSetting: string, defaultSetting: string)
    ensures var env := ToLowerAscii(environment);
            var r := RepoUrl(environment, prodSetting, devSetting, defaultSetting);
            (env == "production" && prodSetting != "" ==> r == prodSetting)
            && (env == "development" && devSetting != "" ==> r == devSetting)
            && (env != "production" && env != "development" && defaultSetting != "" ==> r == defaultSetting)
  {
  }

  lemma {:induction false} LowerIdempotent(s: string)
    ensures ToLowerAscii(ToLowerAscii(s)) == ToLowerAscii(s)
  {
    assert forall k :: 0 <= k < |s| ==> LowerChar(LowerChar(s[k])) == LowerChar(s[k]);
  }

  /** The environment is compared without regard to the case of its ASCII letters. */
  lemma {:induction false} RepoUrlCaseInsensitive(environment: string, prodSetting: string, devSetting: string, defaultSetting: string)
    ensures RepoUrl(ToLowerAscii(environment), prodSetting, devSetting, defaultSetting)
         == RepoUrl(environment, prodSetting, devSetting, defaultSetting)
  {
    LowerIdempotent(environment);
  }

  /** A URL with no `github.com/` from `p` on has no match from `p` on. */
  lemma {:induction false} NoHostNoMatch(url: string, p: nat)
    requires p <= |url|
    requires forall q :: p <= q <= |url| ==> !StartsWith(url[q..], GithubHost)
    ensures MatchFrom(url, p) == None
    decreases |url| - p
  {
    if p < |url| {
      NoHostNoMatch(url, p + 1);
    }
  }

  /** A URL with no `github.com/` in it is rejected. */
  lemma {:induction false} ParseRepoUrlNoHost(url: string)
    requires forall q :: 0 <= q <= |url| ==> !StartsWith(url[q..], GithubHost)
    ensures ParseRepoUrl(url) == Err(InvalidRepoUrl)
  {
    NoHostNoMatch(url, 0);
  }
}
