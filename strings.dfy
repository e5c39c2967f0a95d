/**
 * String primitives with the JavaScript semantics the engine relies on:
 * `split` on a one-character separator, `join`, `trim`, `startsWith`,
 * `replace` of the first occurrence, `includes` on strings, `indexOf` on
 * arrays, ASCII lower-casing and the decimal rendering of numbers.
 */
module Strings {
  import opened Seqs

  /** The characters JavaScript's `trim` removes and its regex class `\s` matches. */
  predicate IsSpace(c: char)
  {
    c == ' ' || c == '\t' || c == '\n' || c == '\r' || c == '\U{000B}' || c == '\U{000C}'
    || c == '\U{00A0}' || c == '\U{1680}' || ('\U{2000}' <= c <= '\U{200A}')
    || c == '\U{2028}' || c == '\U{2029}' || c == '\U{202F}' || c == '\U{205F}'
    || c == '\U{3000}' || c == '\U{FEFF}'
  }

  // ---------------------------------------------------------------- split / join

  /** `s.split(sep)`: never empty; `"".split(sep) == [""]`. */
  function Split(s: string, sep: char): (r: seq<string>)
    ensures |r| >= 1
    decreases |s|
  {
    if |s| == 0 then [""]
    else
      var rest := Split(s[1..], sep);
      if s[0] == sep then [""] + rest
      else [[s[0]] + rest[0]] + rest[1..]
  }

  /** `parts.join(sep)`. */
  function Join(parts: seq<string>, sep: char): string
    decreases |parts|
  {
    if |parts| == 0 then ""
    else if |parts| == 1 then parts[0]
    else parts[0] + [sep] + Join(parts[1..], sep)
  }

  /** No piece produced by `Split` contains the separator. */
  lemma {:induction false} SplitPiecesFree(s: string, sep: char)
    ensures forall k :: 0 <= k < |Split(s, sep)| ==> sep !in Split(s, sep)[k]
    decreases |s|
  {
    if |s| > 0 {
      SplitPiecesFree(s[1..], sep);
    }
  }

  /** Joining the pieces of a split gives the string back. */
  lemma {:induction false} JoinSplit(s: string, sep: char)
    ensures Join(Split(s, sep), sep) == s
    decreases |s|
  {
    if |s| > 0 {
      var rest := Split(s[1..], sep);
      JoinSplit(s[1..], sep);
      if s[0] == sep {
        assert Split(s, sep) == [""] + rest;
        assert Join([""] + rest, sep) == "" + [sep] + Join(rest, sep) by {
          assert ([""] + rest)[1..] == rest;
        }
        assert s == [s[0]] + s[1..];
      } else {
        var first := [s[0]] + rest[0];
        assert Split(s, sep) == [first] + rest[1..];
        if |rest| == 1 {
          assert Join(rest, sep) == rest[0];
          assert s == [s[0]] + s[1..];
        } else {
          assert Join(rest, sep) == rest[0] + [sep] + Join(rest[1..], sep);
          assert ([first] + rest[1..])[1..] == rest[1..];
          assert s == [s[0]] + s[1..];
        }
      }
    }
  }

  /** Splitting at a separator placed between `a` and `b` splits each side on its own. */
  lemma {:induction false} SplitConcat(a: string, b: string, sep: char)
    ensures Split(a + [sep] + b, sep) == Split(a, sep) + Split(b, sep)
    decreases |a|
  {
    var s := a + [sep] + b;
    if |a| == 0 {
      assert s == [sep] + b;
      assert s[1..] == b;
    } else {
      assert s[1..] == a[1..] + [sep] + b;
      SplitConcat(a[1..], b, sep);
      var left, right := Split(a[1..], sep), Split(b, sep);
      var rest := Split(s[1..], sep);
      assert rest == left + right;
      if a[0] == sep {
        assert Split(s, sep) == [""] + rest;
        assert Split(a, sep) == [""] + left;
        ConcatAssoc([""], left, right);
      } else {
        var head := [a[0]] + left[0];
        assert rest[0] == left[0] && rest[1..] == left[1..] + right;
        assert Split(s, sep) == [head] + rest[1..];
        assert Split(a, sep) == [head] + left[1..];
        ConcatAssoc([head], left[1..], right);
      }
    }
  }

  /** No piece holds the separator. */
  predicate PiecesFree(parts: seq<string>, sep: char)
  {
    forall k :: 0 <= k < |parts| ==> sep !in parts[k]
  }

  /** Splitting a join of separator-free pieces gives the pieces back. */
  lemma {:induction false} SplitJoin(parts: seq<string>, sep: char)
    requires |parts| >= 1
    requires PiecesFree(parts, sep)
    ensures Split(Join(parts, sep), sep) == parts
    decreases |parts|
  {
    if |parts| == 1 {
      SplitFree(parts[0], sep);
    } else {
      SplitJoin(parts[1..], sep);
      SplitPrefix(parts[0], Join(parts[1..], sep), sep);
    }
  }

  /** A separator-free string splits into itself alone. */
  lemma {:induction false} SplitFree(s: string, sep: char)
    requires sep !in s
    ensures Split(s, sep) == [s]
    decreases |s|
  {
    if |s| > 0 {
      SplitFree(s[1..], sep);
      assert s == [s[0]] + s[1..];
    }
  }

  /** Splitting `a + sep + b`, where `a` holds no separator, puts `a` in front of the pieces of `b`. */
  lemma {:induction false} SplitPrefix(a: string, b: string, sep: char)
    requires sep !in a
    ensures Split(a + [sep] + b, sep) == [a] + Split(b, sep)
    decreases |a|
  {
    if |a| == 0 {
      assert a + [sep] + b == [sep] + b;
      assert ([sep] + b)[1..] == b;
    } else {
      SplitPrefix(a[1..], b, sep);
      assert (a + [sep] + b)[1..] == a[1..] + [sep] + b;
      assert a == [a[0]] + a[1..];
    }
  }

  // ---------------------------------------------------------------- trim

  /** `s.trim()`: white space removed from both ends. */
  function Trim(s: string): (r: string)
    ensures |r| <= |s|
    ensures |r| > 0 ==> !IsSpace(r[0]) && !IsSpace(r[|r| - 1])
    decreases |s|
  {
    if |s| > 0 && IsSpace(s[0]) then Trim(s[1..])
    else if |s| > 0 && IsSpace(s[|s| - 1]) then Trim(s[..|s| - 1])
    else s
  }

  /** Trimming only removes characters: every character of the trim occurs in the string. */
  lemma {:induction false} TrimChars(s: string)
    ensures forall c :: c in Trim(s) ==> c in s
    decreases |s|
  {
    if |s| > 0 && IsSpace(s[0]) {
      TrimChars(s[1..]);
      assert forall c :: c in s[1..] ==> c in s;
    } else if |s| > 0 && IsSpace(s[|s| - 1]) {
      TrimChars(s[..|s| - 1]);
      assert forall c :: c in s[..|s| - 1] ==> c in s;
    }
  }

  /** The characters of `s` from `lo` up to `hi` are white space. */
  predicate SpaceBetween(s: string, lo: nat, hi: nat)
  {
    forall k :: lo <= k < hi && k < |s| ==> IsSpace(s[k])
  }

  /** The bounds of the trim when `s` starts with white space: those of `s[1..]`, moved by one. */
  lemma {:induction false} TrimBoundsFront(s: string, i: nat, j: nat)
    requires |s| > 0 && IsSpace(s[0]) && i <= j <= |s| - 1
    requires Trim(s[1..]) == s[1..][i..j] && SpaceBetween(s[1..], 0, i) && SpaceBetween(s[1..], j, |s| - 1)
    ensures Trim(s) == s[i + 1..j + 1] && SpaceBetween(s, 0, i + 1) && SpaceBetween(s, j + 1, |s|)
  {
    assert s[1..][i..j] == s[i + 1..j + 1];
    forall k | 0 < k < i + 1
      ensures IsSpace(s[k])
    {
      assert s[k] == s[1..][k - 1];
    }
    forall k | j + 1 <= k < |s|
      ensures IsSpace(s[k])
    {
      assert s[k] == s[1..][k - 1];
    }
  }

  /** The bounds of the trim when `s` ends with white space: those of `s` without its last character. */
  lemma {:induction false} TrimBoundsBack(s: string, i: nat, j: nat)
    requires |s| > 0 && !IsSpace(s[0]) && IsSpace(s[|s| - 1]) && i <= j <= |s| - 1
    requires Trim(s[..|s| - 1]) == s[..|s| - 1][i..j] && SpaceBetween(s[..|s| - 1], 0, i) && SpaceBetween(s[..|s| - 1], j, |s| - 1)
    ensures Trim(s) == s[i..j] && SpaceBetween(s, 0, i) && SpaceBetween(s, j, |s|)
  {
    var t := s[..|s| - 1];
    assert t[i..j] == s[i..j];
    forall k | j <= k < |s| - 1
      ensures IsSpace(s[k])
    {
      assert s[k] == t[k];
    }
  }

  /** The bounds of the trim: white space before `i`, white space from `j` on. */
  lemma {:induction false} TrimBounds(s: string) returns (i: nat, j: nat)
    ensures i <= j <= |s| && Trim(s) == s[i..j] && SpaceBetween(s, 0, i) && SpaceBetween(s, j, |s|)
    decreases |s|
  {
    if |s| > 0 && IsSpace(s[0]) {
      var i', j' := TrimBounds(s[1..]);
      TrimBoundsFront(s, i', j');
      i, j := i' + 1, j' + 1;
    } else if |s| > 0 && IsSpace(s[|s| - 1]) {
      i, j := TrimBounds(s[..|s| - 1]);
      TrimBoundsBack(s, i, j);
    } else {
      i, j := 0, |s|;
      assert s[0..|s|] == s;
    }
  }

  /**
   * The trim is the slice of `s` left after removing its leading and its
   * trailing white space, and nothing else: every character before the
   * slice and every character after it is white space.
   */
  lemma {:induction false} TrimSlice(s: string)
    ensures exists i, j :: 0 <= i <= j <= |s| && Trim(s) == s[i..j]
              && (forall k :: 0 <= k < i ==> IsSpace(s[k]))
              && (forall k :: j <= k < |s| ==> IsSpace(s[k]))
  {
    var i, j := TrimBounds(s);
  }

  /** A string with no white space at either end is its own trim. */
  lemma {:induction false} TrimNoSpace(s: string)
    requires |s| > 0 ==> !IsSpace(s[0]) && !IsSpace(s[|s| - 1])
    ensures Trim(s) == s
  {
  }

  // ---------------------------------------------------------------- other string operations

  predicate StartsWith(s: string, prefix: string)
  {
    |prefix| <= |s| && s[..|prefix|] == prefix
  }

  predicate EndsWith(s: string, suffix: string)
  {
    |suffix| <= |s| && s[|s| - |suffix|..] == suffix
  }

  /** `s.includes(part)`. */
  predicate Contains(s: string, part: string)
    decreases |s|
  {
    StartsWith(s, part) || (|s| > 0 && Contains(s[1..], part))
  }

  /** The first position of `c` in `s`, or -1. */
  function FindChar(s: string, c: char): (r: int)
    ensures -1 <= r < |s|
    ensures r >= 0 ==> s[r] == c && c !in s[..r]
    ensures r == -1 <==> c !in s
    decreases |s|
  {
    if |s| == 0 then -1
    else if s[0] == c then 0
    else
      var k := FindChar(s[1..], c);
      if k == -1 then -1
      else
        assert s[..k + 1] == [s[0]] + s[1..][..k];
        k + 1
  }

  /**
   * The text a string replacement inserts: `$$` is a `$`, `$&` the matched
   * text, `` $` `` the text before the match and `$'` the text after it. A
   * string pattern has no groups, so every other `$` stays as written.
   */
  function ExpandReplacement(repl: string, matched: string, before: string, after: string): string
    decreases |repl|
  {
    if |repl| == 0 then ""
    else if repl[0] == '$' && |repl| >= 2 && repl[1] == '$' then "$" + ExpandReplacement(repl[2..], matched, before, after)
    else if repl[0] == '$' && |repl| >= 2 && repl[1] == '&' then matched + ExpandReplacement(repl[2..], matched, before, after)
    else if repl[0] == '$' && |repl| >= 2 && repl[1] == '`' then before + ExpandReplacement(repl[2..], matched, before, after)
    else if repl[0] == '$' && |repl| >= 2 && repl[1] == '\'' then after + ExpandReplacement(repl[2..], matched, before, after)
    else [repl[0]] + ExpandReplacement(repl[1..], matched, before, after)
  }

  /** A replacement without `$` is inserted as written. */
  lemma {:induction false} ExpandPlain(repl: string, matched: string, before: string, after: string)
    requires '$' !in repl
    ensures ExpandReplacement(repl, matched, before, after) == repl
    decreases |repl|
  {
    if |repl| > 0 {
      ExpandPlain(repl[1..], matched, before, after);
      assert repl == [repl[0]] + repl[1..];
    }
  }

  /**
   * `s.replace(c, repl)` with a one-character string pattern: only the first
   * `c` is replaced, by `repl` with its `$` patterns expanded.
   */
  function ReplaceFirst(s: string, c: char, repl: string): (r: string)
    ensures c !in s ==> r == s
    ensures c in s ==> exists i :: 0 <= i < |s| && s[i] == c && c !in s[..i]
                         && r == s[..i] + ExpandReplacement(repl, [c], s[..i], s[i + 1..]) + s[i + 1..]
  {
    var i := FindChar(s, c);
    if i < 0 then s else s[..i] + ExpandReplacement(repl, [c], s[..i], s[i + 1..]) + s[i + 1..]
  }

  /** With no `$` in the replacement, the first `c` is replaced by exactly `repl`. */
  lemma {:induction false} ReplaceFirstPlain(s: string, c: char, repl: string)
    requires '$' !in repl
    ensures c !in s ==> ReplaceFirst(s, c, repl) == s
    ensures c in s ==> exists i :: 0 <= i < |s| && s[i] == c && c !in s[..i]
                         && ReplaceFirst(s, c, repl) == s[..i] + repl + s[i + 1..]
  {
    var i := FindChar(s, c);
    if i >= 0 {
      ExpandPlain(repl, [c], s[..i], s[i + 1..]);
    }
  }

  /** `$$` in a replacement inserts one `$`, and `$&` puts the matched character back. */
  lemma {:induction false} ReplaceFirstPatterns()
    ensures ReplaceFirst("R%", '%', "-A$$B") == "R-A$B"
    ensures ReplaceFirst("R%", '%', "-$&") == "R-%"
  {
    assert FindChar("R%", '%') == 1;
    assert "-A$$B"[1..] == "A$$B" && "A$$B"[1..] == "$$B" && "$$B"[2..] == "B" && "B"[1..] == "";
    assert ExpandReplacement("-A$$B", "%", "R", "") == "-A$B";
    assert "-$&"[1..] == "$&" && "$&"[2..] == "";
    assert ExpandReplacement("-$&", "%", "R", "") == "-%";
  }

  /** `array.indexOf(x)`: the first position holding `x`, or -1. */
  function IndexOf(xs: seq<string>, x: string): (r: int)
    ensures -1 <= r < |xs|
    ensures r >= 0 ==> xs[r] == x && x !in xs[..r]
    ensures r == -1 <==> x !in xs
    decreases |xs|
  {
    if |xs| == 0 then -1
    else if xs[0] == x then 0
    else
      var k := IndexOf(xs[1..], x);
      if k == -1 then -1
      else
        assert xs[..k + 1] == [xs[0]] + xs[1..][..k];
        k + 1
  }

  /** `s.map(f => f.trim())`. */
  function TrimAll(xs: seq<string>): (r: seq<string>)
    ensures |r| == |xs|
    ensures forall k :: 0 <= k < |xs| ==> r[k] == Trim(xs[k])
  {
    seq(|xs|, k requires 0 <= k < |xs| => Trim(xs[k]))
  }

  function LowerChar(c: char): char
  {
    if 'A' <= c <= 'Z' then (c as int + 32) as char else c
  }

  /** `toLowerCase`, on the ASCII letters only. */
  function ToLowerAscii(s: string): (r: string)
    ensures |r| == |s|
    ensures forall k :: 0 <= k < |s| ==> r[k] == LowerChar(s[k])
  {
    seq(|s|, k requires 0 <= k < |s| => LowerChar(s[k]))
  }

  // ---------------------------------------------------------------- numbers

  function DigitChar(d: nat): char
    requires d < 10
  {
    ('0' as int + d) as char
  }

  predicate IsDigit(c: char)
  {
    '0' <= c <= '9'
  }

  /** Decimal rendering of a natural number, as `${n}` prints it. */
  function NatToString(n: nat): (r: string)
    ensures |r| >= 1
    ensures forall k :: 0 <= k < |r| ==> IsDigit(r[k])
    ensures |r| > 1 ==> r[0] != '0'
    decreases n
  {
    if n < 10 then [DigitChar(n)] else NatToString(n / 10) + [DigitChar(n % 10)]
  }

  /** The value of a string of decimal digits. */
  function DigitsValue(s: string): nat
    requires forall k :: 0 <= k < |s| ==> IsDigit(s[k])
    decreases |s|
  {
    if |s| == 0 then 0
    else
      assert IsDigit(s[|s| - 1]);
      10 * DigitsValue(s[..|s| - 1]) + (s[|s| - 1] as int - '0' as int)
  }

  /** Reading the rendering back gives the number: the rendering loses nothing. */
  lemma {:induction false} NatToStringRoundTrip(n: nat)
    ensures DigitsValue(NatToString(n)) == n
    decreases n
  {
    if n >= 10 {
      NatToStringRoundTrip(n / 10);
      var s := NatToString(n);
      assert s[..|s| - 1] == NatToString(n / 10);
    }
  }

  /** Distinct numbers render differently. */
  lemma {:induction false} NatToStringInjective(m: nat, n: nat)
    requires NatToString(m) == NatToString(n)
    ensures m == n
  {
    NatToStringRoundTrip(m);
    NatToStringRoundTrip(n);
  }

  /** `String(i)` for an integer. */
  function IntToString(i: int): (r: string)
    ensures |r| >= 1
    ensures i >= 0 ==> r == NatToString(i)
    ensures i < 0 ==> r == "-" + NatToString(-i)
  {
    if i < 0 then "-" + NatToString(-i) else NatToString(i)
  }
}
