/**
 * `escapeHtml`: the five characters that are markup in HTML text and attribute values are replaced by
 * entities, `&` first so that the entities introduced later are not escaped again.
 */
module HtmlEscape {
  import opened Wrappers
  import opened Text

  /** `s.replace(/c/g, entity)` for a single character `c`. */
  function ReplaceChar(s: string, c: char, entity: string): (r: string)
    ensures c !in entity ==> c !in r
  {
    if s == [] then []
    else (if s[0] == c then entity else [s[0]]) + ReplaceChar(s[1..], c, entity)
  }

  /** `escapeHtml(str)`: `''` for an absent or empty input, otherwise the five replacements in order. */
  function EscapeHtml(str: Option<string>): (r: string)
    ensures str.None? || str.value == [] ==> r == []
  {
    if str.None? || str.value == [] then ""
    else
      var s := str.value;
      ReplaceChar(ReplaceChar(ReplaceChar(ReplaceChar(ReplaceChar(s, '&', "&amp;"), '<', "&lt;"), '>', "&gt;"), '"', "&quot;"), '\'', "&#039;")
  }

  /** The reference: each character on its own, escaped or kept. */
  function EscapeChar(c: char): string {
    match c
    case '&' => "&amp;"
    case '<' => "&lt;"
    case '>' => "&gt;"
    case '"' => "&quot;"
    case '\'' => "&#039;"
    case _ => [c]
  }

  function EscapeChars(s: string): string {
    if s == [] then [] else EscapeChar(s[0]) + EscapeChars(s[1..])
  }

  /** The characters that cannot survive escaping. */
  predicate IsMarkup(c: char) {
    c == '<' || c == '>' || c == '"' || c == '\''
  }

  lemma {:induction false} ReplaceCharAppend(a: string, b: string, c: char, entity: string)
    ensures ReplaceChar(a + b, c, entity) == ReplaceChar(a, c, entity) + ReplaceChar(b, c, entity)
  {
    if a == [] {
      assert a + b == b;
    } else {
      assert (a + b)[0] == a[0] && (a + b)[1..] == a[1..] + b;
      ReplaceCharAppend(a[1..], b, c, entity);
    }
  }

  function Chain(s: string): string {
    ReplaceChar(ReplaceChar(ReplaceChar(ReplaceChar(ReplaceChar(s, '&', "&amp;"), '<', "&lt;"), '>', "&gt;"), '"', "&quot;"), '\'', "&#039;")
  }

  lemma ChainAppend(a: string, b: string)
    ensures Chain(a + b) == Chain(a) + Chain(b)
  {
    var s1a, s1b := ReplaceChar(a, '&', "&amp;"), ReplaceChar(b, '&', "&amp;");
    ReplaceCharAppend(a, b, '&', "&amp;");
    var s2a, s2b := ReplaceChar(s1a, '<', "&lt;"), ReplaceChar(s1b, '<', "&lt;");
    ReplaceCharAppend(s1a, s1b, '<', "&lt;");
    var s3a, s3b := ReplaceChar(s2a, '>', "&gt;"), ReplaceChar(s2b, '>', "&gt;");
    ReplaceCharAppend(s2a, s2b, '>', "&gt;");
    var s4a, s4b := ReplaceChar(s3a, '"', "&quot;"), ReplaceChar(s3b, '"', "&quot;");
    ReplaceCharAppend(s3a, s3b, '"', "&quot;");
    ReplaceCharAppend(s4a, s4b, '\'', "&#039;");
  }

  lemma ReplaceOne(d: char, c: char, entity: string)
    ensures ReplaceChar([d], c, entity) == if d == c then entity else [d]
  {
    assert [d][1..] == [];
  }

  lemma {:induction false} ReplaceAbsent(s: string, c: char, entity: string)
    requires c !in s
    ensures ReplaceChar(s, c, entity) == s
  {
    if s != [] {
      ReplaceAbsent(s[1..], c, entity);
    }
  }

  /** The replacement steps after the one that produced `e` leave it alone. */
  lemma Untouched(e: string, from: nat)
    requires from <= 4
    requires forall i :: 0 <= i < |e| ==> !IsMarkup(e[i])
    ensures from <= 1 ==> ReplaceChar(e, '<', "&lt;") == e
    ensures from <= 2 ==> ReplaceChar(e, '>', "&gt;") == e
    ensures from <= 3 ==> ReplaceChar(e, '"', "&quot;") == e
    ensures ReplaceChar(e, '\'', "&#039;") == e
  {
    ReplaceAbsent(e, '<', "&lt;");
    ReplaceAbsent(e, '>', "&gt;");
    ReplaceAbsent(e, '"', "&quot;");
    ReplaceAbsent(e, '\'', "&#039;");
  }

  lemma ChainOfChar(c: char)
    ensures Chain([c]) == EscapeChar(c)
  {
    ReplaceOne(c, '&', "&amp;");
    ReplaceOne(c, '<', "&lt;");
    ReplaceOne(c, '>', "&gt;");
    ReplaceOne(c, '"', "&quot;");
    ReplaceOne(c, '\'', "&#039;");
    var e := EscapeChar(c);
    if c == '&' {
      Untouched(e, 1);
    } else if c == '<' {
      Untouched(e, 2);
    } else if c == '>' {
      Untouched(e, 3);
    } else if c == '"' {
      Untouched(e, 4);
    }
  }

  /** The chain of replacements escapes each character independently. */
  lemma {:induction false} ChainIsPerCharacter(s: string)
    ensures Chain(s) == EscapeChars(s)
  {
    if s != [] {
      assert s == [s[0]] + s[1..];
      ChainAppend([s[0]], s[1..]);
      ChainOfChar(s[0]);
      ChainIsPerCharacter(s[1..]);
    }
  }

  lemma {:induction false} EscapeCharsHasNoMarkup(s: string)
    ensures forall i :: 0 <= i < |EscapeChars(s)| ==> !IsMarkup(EscapeChars(s)[i])
  {
    if s != [] {
      EscapeCharsHasNoMarkup(s[1..]);
      var e := EscapeChar(s[0]);
      assert forall i :: 0 <= i < |e| ==> !IsMarkup(e[i]);
    }
  }

  /** Escaped text has no `<`, `>`, `"` or `'` left. */
  lemma EscapedHasNoMarkup(str: Option<string>)
    ensures forall i :: 0 <= i < |EscapeHtml(str)| ==> !IsMarkup(EscapeHtml(str)[i])
  {
    if str.Some? && str.value != [] {
      ChainIsPerCharacter(str.value);
      EscapeCharsHasNoMarkup(str.value);
    }
  }

  /** Decoding the five entities, left to right; any other text is kept. */
  function Unescape(s: string): string {
    if s == [] then []
    else if s[0] != '&' then [s[0]] + Unescape(s[1..])
    else if StartsWith(s, "&amp;") then "&" + Unescape(s[5..])
    else if StartsWith(s, "&lt;") then "<" + Unescape(s[4..])
    else if StartsWith(s, "&gt;") then ">" + Unescape(s[4..])
    else if StartsWith(s, "&quot;") then "\"" + Unescape(s[6..])
    else if StartsWith(s, "&#039;") then "'" + Unescape(s[6..])
    else [s[0]] + Unescape(s[1..])
  }

  lemma Leading(e: string, rest: string)
    ensures StartsWith(e + rest, e) && (e + rest)[|e|..] == rest
  {
    assert (e + rest)[..|e|] == e;
  }

  /** `e + rest` does not start with `other` when the two differ at position `i`. */
  lemma Differs(e: string, rest: string, other: string, i: nat)
    requires i < |e| && i < |other| && e[i] != other[i]
    ensures !StartsWith(e + rest, other)
  {
    assert (e + rest)[i] == e[i];
  }

  lemma UnescapeChar(c: char, rest: string)
    ensures Unescape(EscapeChar(c) + rest) == [c] + Unescape(rest)
  {
    var e := EscapeChar(c);
    Leading(e, rest);
    if c == '&' {
    } else if c == '<' {
      Differs(e, rest, "&amp;", 1);
    } else if c == '>' {
      Differs(e, rest, "&amp;", 1);
      Differs(e, rest, "&lt;", 1);
    } else if c == '"' {
      Differs(e, rest, "&amp;", 1);
      Differs(e, rest, "&lt;", 1);
      Differs(e, rest, "&gt;", 1);
    } else if c == '\'' {
      Differs(e, rest, "&amp;", 1);
      Differs(e, rest, "&lt;", 1);
      Differs(e, rest, "&gt;", 1);
      Differs(e, rest, "&quot;", 1);
    } else {
      assert (e + rest)[0] == c && (e + rest)[1..] == rest;
    }
  }

  lemma {:induction false} UnescapeEscapeChars(s: string)
    ensures Unescape(EscapeChars(s)) == s
  {
    if s != [] {
      UnescapeChar(s[0], EscapeChars(s[1..]));
      UnescapeEscapeChars(s[1..]);
      assert s == [s[0]] + s[1..];
    }
  }

  /** Escaping loses nothing: decoding the entities gives back the input. */
  lemma EscapeRoundTrip(s: string)
    ensures Unescape(EscapeHtml(Some(s))) == s
  {
    if s != [] {
      ChainIsPerCharacter(s);
      UnescapeEscapeChars(s);
    }
  }
}
