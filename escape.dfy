/**
 * The XML escaper shared by the macro helpers and the fallback converter:
 * five global replacements, `&` first, then `<`, `>`, `"` and `'`.
 */
module XmlEscape {
  import opened Strings
  import opened Sheets

  /** `s.replace(/c/g, repl)`. */
  function ReplaceAll(s: string, c: char, repl: string): string
    decreases |s|
  {
    if |s| == 0 then "" else (if s[0] == c then repl else [s[0]]) + ReplaceAll(s[1..], c, repl)
  }

  /** `escapeXml` on a string: the replacement chain in the order the source applies it. */
  function EscapeXml(s: string): string
  {
    ReplaceAll(ReplaceAll(ReplaceAll(ReplaceAll(ReplaceAll(s, '&', "&amp;"), '<', "&lt;"), '>', "&gt;"), '"', "&quot;"), '\'', "&#39;")
  }

  /** `escapeXml(v)` on a cell value of the fallback converter: falsy values give the empty string. */
  function EscapeCell(c: Cell): (r: string)
    ensures Falsy(c) ==> r == ""
  {
    EscapeXml(CellString(c))
  }

  predicate IsMarkup(c: char)
  {
    c == '&' || c == '<' || c == '>' || c == '"' || c == '\''
  }

  /** The entity reference a character is written as. */
  function EscapeChar(c: char): string
  {
    if c == '&' then "&amp;"
    else if c == '<' then "&lt;"
    else if c == '>' then "&gt;"
    else if c == '"' then "&quot;"
    else if c == '\'' then "&#39;"
    else [c]
  }

  /** Character-by-character escaping: the reference definition the chain is compared with. */
  function EscapeEach(s: string): string
    decreases |s|
  {
    if |s| == 0 then "" else EscapeChar(s[0]) + EscapeEach(s[1..])
  }

  lemma {:induction false} ReplaceAllConcat(a: string, b: string, c: char, repl: string)
    ensures ReplaceAll(a + b, c, repl) == ReplaceAll(a, c, repl) + ReplaceAll(b, c, repl)
    decreases |a|
  {
    if |a| > 0 {
      ReplaceAllConcat(a[1..], b, c, repl);
      assert (a + b)[1..] == a[1..] + b;
    } else {
      assert a + b == b;
    }
  }

  lemma {:induction false} ReplaceAllAbsent(s: string, c: char, repl: string)
    requires c !in s
    ensures ReplaceAll(s, c, repl) == s
    decreases |s|
  {
    if |s| > 0 {
      ReplaceAllAbsent(s[1..], c, repl);
      assert s == [s[0]] + s[1..];
    }
  }

  lemma {:induction false} ReplaceAllOne(c: char, d: char, repl: string)
    ensures ReplaceAll([c], d, repl) == if c == d then repl else [c]
  {
    assert [c][1..] == "";
  }

  /** The last four steps of the chain leave an entity reference of the first steps alone. */
  lemma {:induction false} ChainTail(e: string, from: nat)
    requires from <= 4
    requires forall k :: 0 <= k < |e| ==> e[k] != '\''
    requires from <= 3 ==> '"' !in e
    requires from <= 2 ==> '>' !in e
    requires from <= 1 ==> '<' !in e
    ensures from <= 1 ==> ReplaceAll(e, '<', "&lt;") == e
    ensures from <= 2 ==> ReplaceAll(e, '>', "&gt;") == e
    ensures from <= 3 ==> ReplaceAll(e, '"', "&quot;") == e
    ensures ReplaceAll(e, '\'', "&#39;") == e
  {
    if from <= 1 { ReplaceAllAbsent(e, '<', "&lt;"); }
    if from <= 2 { ReplaceAllAbsent(e, '>', "&gt;"); }
    if from <= 3 { ReplaceAllAbsent(e, '"', "&quot;"); }
    ReplaceAllAbsent(e, '\'', "&#39;");
  }

  /** Escaping one character through the chain gives its entity reference. */
  lemma {:induction false} EscapeXmlChar(c: char)
    ensures EscapeXml([c]) == EscapeChar(c)
  {
    var s1 := ReplaceAll([c], '&', "&amp;");
    ReplaceAllOne(c, '&', "&amp;");
    if c == '&' {
      ChainTail("&amp;", 1);
      return;
    }
    assert s1 == [c];
    var s2 := ReplaceAll(s1, '<', "&lt;");
    ReplaceAllOne(c, '<', "&lt;");
    if c == '<' {
      ChainTail("&lt;", 2);
      return;
    }
    var s3 := ReplaceAll(s2, '>', "&gt;");
    ReplaceAllOne(c, '>', "&gt;");
    if c == '>' {
      ChainTail("&gt;", 3);
      return;
    }
    var s4 := ReplaceAll(s3, '"', "&quot;");
    ReplaceAllOne(c, '"', "&quot;");
    if c == '"' {
      ChainTail("&quot;", 4);
      return;
    }
    ReplaceAllOne(c, '\'', "&#39;");
  }

  lemma {:induction false} EscapeXmlConcat(a: string, b: string)
    ensures EscapeXml(a + b) == EscapeXml(a) + EscapeXml(b)
  {
    ReplaceAllConcat(a, b, '&', "&amp;");
    var a1, b1 := ReplaceAll(a, '&', "&amp;"), ReplaceAll(b, '&', "&amp;");
    ReplaceAllConcat(a1, b1, '<', "&lt;");
    var a2, b2 := ReplaceAll(a1, '<', "&lt;"), ReplaceAll(b1, '<', "&lt;");
    ReplaceAllConcat(a2, b2, '>', "&gt;");
    var a3, b3 := ReplaceAll(a2, '>', "&gt;"), ReplaceAll(b2, '>', "&gt;");
    ReplaceAllConcat(a3, b3, '"', "&quot;");
    var a4, b4 := ReplaceAll(a3, '"', "&quot;"), ReplaceAll(b3, '"', "&quot;");
    ReplaceAllConcat(a4, b4, '\'', "&#39;");
  }

  /**
   * The replacement chain escapes each character on its own: replacing `&`
   * first means no entity reference is escaped a second time.
   */
  lemma {:induction false} EscapeXmlPerChar(s: string)
    ensures EscapeXml(s) == EscapeEach(s)
    decreases |s|
  {
    if |s| == 0 {
    } else {
      assert s == [s[0]] + s[1..];
      EscapeXmlConcat([s[0]], s[1..]);
      EscapeXmlChar(s[0]);
      EscapeXmlPerChar(s[1..]);
    }
  }

  lemma {:induction false} EscapeEachNoRawMarkup(s: string)
    ensures forall k :: 0 <= k < |EscapeEach(s)| ==> EscapeEach(s)[k] !in "<>\"'"
    decreases |s|
  {
    if |s| > 0 {
      EscapeEachNoRawMarkup(s[1..]);
      var head := EscapeChar(s[0]);
      assert forall k :: 0 <= k < |head| ==> head[k] !in "<>\"'";
    }
  }

  /** The escaped text holds no raw `<`, `>`, `"` or `'`. */
  lemma {:induction false} EscapeXmlNoRawMarkup(s: string)
    ensures forall k :: 0 <= k < |EscapeXml(s)| ==> EscapeXml(s)[k] !in "<>\"'"
  {
    EscapeXmlPerChar(s);
    EscapeEachNoRawMarkup(s);
  }

  lemma {:induction false} EscapeEachPlain(s: string)
    requires forall k :: 0 <= k < |s| ==> !IsMarkup(s[k])
    ensures EscapeEach(s) == s
    decreases |s|
  {
    if |s| > 0 {
      EscapeEachPlain(s[1..]);
      assert s == [s[0]] + s[1..];
    }
  }

  /** Text without any of the five reserved characters comes back unchanged. */
  lemma {:induction false} EscapeXmlPlain(s: string)
    requires forall k :: 0 <= k < |s| ==> !IsMarkup(s[k])
    ensures EscapeXml(s) == s
  {
    EscapeXmlPerChar(s);
    EscapeEachPlain(s);
  }

  /** Decoding of the five entity references the escaper writes; any other text is copied. */
  function Unescape(s: string): string
    decreases |s|
  {
    if |s| == 0 then ""
    else if s[0] != '&' then [s[0]] + Unescape(s[1..])
    else if |s| >= 5 && s[1] == 'a' && s[2] == 'm' && s[3] == 'p' && s[4] == ';' then "&" + Unescape(s[5..])
    else if |s| >= 4 && s[1] == 'l' && s[2] == 't' && s[3] == ';' then "<" + Unescape(s[4..])
    else if |s| >= 4 && s[1] == 'g' && s[2] == 't' && s[3] == ';' then ">" + Unescape(s[4..])
    else if |s| >= 6 && s[1] == 'q' && s[2] == 'u' && s[3] == 'o' && s[4] == 't' && s[5] == ';' then "\"" + Unescape(s[6..])
    else if |s| >= 5 && s[1] == '#' && s[2] == '3' && s[3] == '9' && s[4] == ';' then "'" + Unescape(s[5..])
    else "&" + Unescape(s[1..])
  }

  lemma {:induction false} UnescapeStep(c: char, rest: string)
    ensures Unescape(EscapeChar(c) + rest) == [c] + Unescape(rest)
  {
    var e := EscapeChar(c);
    var t := e + rest;
    assert t[|e|..] == rest;
    if c == '&' {
      assert t[..5] == "&amp;";
    } else if c == '<' {
      assert t[..4] == "&lt;";
    } else if c == '>' {
      assert t[..4] == "&gt;";
    } else if c == '"' {
      assert t[..6] == "&quot;";
    } else if c == '\'' {
      assert t[..5] == "&#39;";
    } else {
      assert t[0] == c;
    }
  }

  lemma {:induction false} UnescapeEscapeEach(s: string)
    ensures Unescape(EscapeEach(s)) == s
    decreases |s|
  {
    if |s| > 0 {
      UnescapeStep(s[0], EscapeEach(s[1..]));
      UnescapeEscapeEach(s[1..]);
      assert s == [s[0]] + s[1..];
    }
  }

  /** Escaping loses nothing: decoding the entity references gives the text back. */
  lemma {:induction false} EscapeXmlRoundTrip(s: string)
    ensures Unescape(EscapeXml(s)) == s
  {
    EscapeXmlPerChar(s);
    UnescapeEscapeEach(s);
  }

  /** Distinct texts are escaped to distinct strings. */
  lemma {:induction false} EscapeXmlInjective(a: string, b: string)
    requires EscapeXml(a) == EscapeXml(b)
    ensures a == b
  {
    EscapeXmlRoundTrip(a);
    EscapeXmlRoundTrip(b);
  }
}
