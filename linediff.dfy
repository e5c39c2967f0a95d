/**
 * The line-aligned preview diff of the diff route: line `i` of the old text
 * is set against line `i` of the new one, for as many positions as the longer
 * text has lines; and the preview of a file that does not exist yet.
 */
module LineDiff {
  import opened Seqs
  import opened Strings

  /** `lines[i] || ''`: positions past the end read as the empty line. */
  function LineAt(lines: seq<string>, i: nat): string
  {
    if i < |lines| then lines[i] else ""
  }

  /** The lines both sides agree on, indented by two blanks. */
  function ContextLine(line: string): string
  {
    "  " + line + "\n"
  }

  function RemovedLine(line: string): string
  {
    "- " + line + "\n"
  }

  function AddedLine(line: string): string
  {
    "+ " + line + "\n"
  }

  /** The output for one position: the common line, or the old line removed and the new one added, each only when not empty. */
  function DiffLine(oldLine: string, newLine: string): string
  {
    if oldLine == newLine then ContextLine(oldLine)
    else (if oldLine != "" then RemovedLine(oldLine) else "") + (if newLine != "" then AddedLine(newLine) else "")
  }

  /** The output for the first `n` positions. */
  function DiffUpTo(oldLines: seq<string>, newLines: seq<string>, n: nat): string
  {
    if n == 0 then "" else DiffUpTo(oldLines, newLines, n - 1) + DiffLine(LineAt(oldLines, n - 1), LineAt(newLines, n - 1))
  }

  function MaxLines(oldLines: seq<string>, newLines: seq<string>): nat
  {
    if |oldLines| >= |newLines| then |oldLines| else |newLines|
  }

  /** `generateDiff`, as a function of the two texts. */
  function Diff(oldContent: string, newContent: string): string
  {
    var oldLines, newLines := Split(oldContent, '\n'), Split(newContent, '\n');
    DiffUpTo(oldLines, newLines, MaxLines(oldLines, newLines))
  }

  /** The body of the loop of `generateDiff`: the output for one position appended to `diff`. */
  method AppendPosition(diff: string, oldLine: string, newLine: string) returns (out: string)
    ensures out == diff + DiffLine(oldLine, newLine)
  {
    if oldLine == newLine {
      return diff + ContextLine(oldLine);
    }
    out := diff;
    var removed, added := "", "";
    if oldLine != "" {
      removed := RemovedLine(oldLine);
      out := out + removed;
    }
    if newLine != "" {
      added := AddedLine(newLine);
      assert out + added == diff + removed + added;
      out := out + added;
    }
    assert DiffLine(oldLine, newLine) == removed + added;
    ConcatAssoc(diff, removed, added);
  }

  /** `generateDiff`. */
  method GenerateDiff(oldContent: string, newContent: string) returns (diff: string)
    ensures diff == Diff(oldContent, newContent)
  {
    var oldLines := Split(oldContent, '\n');
    var newLines := Split(newContent, '\n');
    diff := "";
    var maxLines := if |oldLines| >= |newLines| then |oldLines| else |newLines|;
    for i := 0 to maxLines
      invariant diff == DiffUpTo(oldLines, newLines, i)
    {
      var oldLine := if i < |oldLines| then oldLines[i] else "";
      var newLine := if i < |newLines| then newLines[i] else "";
      diff := AppendPosition(diff, oldLine, newLine);
    }
  }

  // ---------------------------------------------------------------- properties

  /** A diff of two equal line lists has only context lines, one per line. */
  lemma {:induction false} DiffUpToSame(lines: seq<string>, n: nat)
    requires n <= |lines|
    ensures DiffUpTo(lines, lines, n) == FlatMapUpTo(ContextLine, lines, n)
  {
    if n > 0 {
      DiffUpToSame(lines, n - 1);
      var line := lines[n - 1];
      assert LineAt(lines, n - 1) == line;
      assert DiffLine(line, line) == ContextLine(line);
      assert DiffUpTo(lines, lines, n) == DiffUpTo(lines, lines, n - 1) + ContextLine(line);
      assert FlatMapUpTo(ContextLine, lines, n) == FlatMapUpTo(ContextLine, lines, n - 1) + ContextLine(line);
    }
  }

  /** Comparing a text with itself gives every line of it as context, in order. */
  lemma {:induction false} DiffSame(content: string)
    ensures var lines := Split(content, '\n');
            Diff(content, content) == FlatMapUpTo(ContextLine, lines, |lines|)
  {
    DiffUpToSame(Split(content, '\n'), |Split(content, '\n')|);
  }

  /** The number of newline characters of a string. */
  function Newlines(s: string): nat
    decreases |s|
  {
    if |s| == 0 then 0 else (if s[0] == '\n' then 1 else 0) + Newlines(s[1..])
  }

  lemma {:induction false} NewlinesConcat(a: string, b: string)
    ensures Newlines(a + b) == Newlines(a) + Newlines(b)
    decreases |a|
  {
    if |a| == 0 {
      assert a + b == b;
    } else {
      assert (a + b)[1..] == a[1..] + b;
      NewlinesConcat(a[1..], b);
    }
  }

  lemma {:induction false} NewlinesFree(s: string)
    requires '\n' !in s
    ensures Newlines(s) == 0
    decreases |s|
  {
    if |s| > 0 {
      NewlinesFree(s[1..]);
    }
  }

  /** A marked line holds exactly one newline, its last character. */
  lemma {:induction false} NewlinesMarked(mark: string, line: string)
    requires '\n' !in mark && '\n' !in line
    ensures Newlines(mark + line + "\n") == 1
  {
    NewlinesConcat(mark + line, "\n");
    NewlinesConcat(mark, line);
    NewlinesFree(mark);
    NewlinesFree(line);
  }

  /** Each position writes one line when both sides agree and one or two when they differ. */
  lemma {:induction false} DiffLineNewlines(oldLine: string, newLine: string)
    requires '\n' !in oldLine && '\n' !in newLine
    ensures 1 <= Newlines(DiffLine(oldLine, newLine)) <= 2
    ensures oldLine == newLine ==> Newlines(DiffLine(oldLine, newLine)) == 1
  {
    if oldLine == newLine {
      NewlinesMarked("  ", oldLine);
    } else {
      var removed := if oldLine != "" then RemovedLine(oldLine) else "";
      var added := if newLine != "" then AddedLine(newLine) else "";
      NewlinesConcat(removed, added);
      NewlinesMarked("- ", oldLine);
      NewlinesMarked("+ ", newLine);
    }
  }

  lemma {:induction false} DiffUpToNewlines(oldLines: seq<string>, newLines: seq<string>, n: nat)
    requires PiecesFree(oldLines, '\n') && PiecesFree(newLines, '\n')
    ensures n <= Newlines(DiffUpTo(oldLines, newLines, n)) <= 2 * n
  {
    if n > 0 {
      DiffUpToNewlines(oldLines, newLines, n - 1);
      var o, p := LineAt(oldLines, n - 1), LineAt(newLines, n - 1);
      DiffLineNewlines(o, p);
      NewlinesConcat(DiffUpTo(oldLines, newLines, n - 1), DiffLine(o, p));
    }
  }

  /**
   * The diff writes output for every position up to the longer text's line
   * count, and no more: at least one and at most two lines per position.
   */
  lemma {:induction false} DiffLineCount(oldContent: string, newContent: string)
    ensures var m := MaxLines(Split(oldContent, '\n'), Split(newContent, '\n'));
            m <= Newlines(Diff(oldContent, newContent)) <= 2 * m
  {
    SplitPiecesFree(oldContent, '\n');
    SplitPiecesFree(newContent, '\n');
    var oldLines, newLines := Split(oldContent, '\n'), Split(newContent, '\n');
    DiffUpToNewlines(oldLines, newLines, MaxLines(oldLines, newLines));
  }

  /** Past the end of the old text, each non-empty new line is written as added. */
  lemma {:induction false} DiffBeyondOld(oldLines: seq<string>, newLines: seq<string>, i: nat)
    requires |oldLines| <= i < |newLines| && newLines[i] != ""
    ensures DiffLine(LineAt(oldLines, i), LineAt(newLines, i)) == AddedLine(newLines[i])
  {
  }

  // ---------------------------------------------------------------- the new-file preview

  /** Each line with a `+` in front. */
  function Plussed(lines: seq<string>): (r: seq<string>)
    ensures |r| == |lines|
    ensures forall k :: 0 <= k < |lines| ==> r[k] == "+" + lines[k]
  {
    seq(|lines|, k requires 0 <= k < |lines| => "+" + lines[k])
  }

  /** The preview of a file that does not exist yet: `+ `, then every line with a `+` in front, joined by newlines. */
  function NewFilePreview(xmlContent: string): string
  {
    "+ " + Join(Plussed(Split(xmlContent, '\n')), '\n')
  }

  lemma {:induction false} JoinPrefix(x: string, parts: seq<string>, sep: char)
    requires |parts| >= 1
    ensures x + Join(parts, sep) == Join([x + parts[0]] + parts[1..], sep)
  {
    var q := [x + parts[0]] + parts[1..];
    assert q[0] == x + parts[0] && q[1..] == parts[1..];
    if |parts| > 1 {
      ConcatAssoc(x, parts[0] + [sep], Join(parts[1..], sep));
      ConcatAssoc(x, parts[0], [sep]);
    }
  }

  /**
   * The preview has one line per line of the content: the first is
   * `+ +` and the first content line, every other is `+` and its line.
   */
  lemma {:induction false} NewFilePreviewLines(xmlContent: string)
    ensures var lines := Split(xmlContent, '\n');
            var shown := Split(NewFilePreview(xmlContent), '\n');
            |shown| == |lines| && shown[0] == "+ +" + lines[0]
            && forall k :: 1 <= k < |lines| ==> shown[k] == "+" + lines[k]
  {
    var lines := Split(xmlContent, '\n');
    var plussed := Plussed(lines);
    SplitPiecesFree(xmlContent, '\n');
    JoinPrefix("+ ", plussed, '\n');
    var parts := ["+ " + plussed[0]] + plussed[1..];
    assert PiecesFree(parts, '\n') by {
      forall k | 0 <= k < |parts|
        ensures '\n' !in parts[k]
      {
        assert '\n' !in lines[k];
        if k == 0 {
          assert parts[0] == "+ " + ("+" + lines[0]);
        } else {
          assert parts[k] == "+" + lines[k];
        }
      }
    }
    SplitJoin(parts, '\n');
    assert "+ " + ("+" + lines[0]) == "+ +" + lines[0];
  }
}
