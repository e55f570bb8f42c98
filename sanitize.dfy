/**
 * `sanitizeErrorMessage` of the JSON reporter: one left-to-right pass of the global regular expression
 * `[\u001b\u009b]\[\d{1,2}(;\d{1,2})?(m|K)` (SGR colour and erase-in-line sequences) replaced by nothing,
 * then `trim`, then, unless the full text is asked for, the part before the first line feed.
 */
module Sanitize {
  import opened Wrappers
  import opened Text

  const Esc: char := '\U{1B}'
  const Csi: char := '\U{9B}'

  predicate IsIntroducer(c: char) {
    c == Esc || c == Csi
  }

  predicate IsFinal(c: char) {
    c == 'm' || c == 'K'
  }

  /** The characters a colour sequence is made of. */
  predicate IsSequenceChar(c: char) {
    IsIntroducer(c) || c == '[' || IsDigit(c) || c == ';' || IsFinal(c)
  }

  /** `\d{1,2}` */
  predicate IsNumber(p: string) {
    1 <= |p| <= 2 && forall i :: 0 <= i < |p| ==> IsDigit(p[i])
  }

  /** `\d{1,2}(;\d{1,2})?` */
  predicate IsParameters(p: string) {
    || IsNumber(p)
    || (|p| >= 2 && p[1] == ';' && IsNumber(p[..1]) && IsNumber(p[2..]))
    || (|p| >= 3 && p[2] == ';' && IsNumber(p[..2]) && IsNumber(p[3..]))
  }

  /** The language of the regular expression: the strings it matches as a whole. */
  predicate IsColourSequence(t: string) {
    && |t| >= 4 && IsIntroducer(t[0]) && t[1] == '[' && IsFinal(t[|t| - 1])
    && IsParameters(t[2..|t| - 1])
  }

  /** How many digits, at most two, start at `s[i..]`. */
  function DigitRun(s: string, i: nat): (n: nat)
    requires i <= |s|
    ensures n <= 2 && i + n <= |s|
    ensures forall k :: i <= k < i + n ==> IsDigit(s[k])
    ensures n < 2 ==> i + n == |s| || !IsDigit(s[i + n])
  {
    if i < |s| && IsDigit(s[i]) then (if i + 1 < |s| && IsDigit(s[i + 1]) then 2 else 1) else 0
  }

  /**
   * The length of the match of the regular expression at the start of `s`, 0 when it does not match there.
   * Backtracking cannot shorten a match: a shorter digit run is followed by a digit, which neither `;` nor
   * the final letter accepts, so the greedy reading is the only one.
   */
  function MatchLength(s: string): (n: nat)
    ensures n == 0 || 4 <= n <= |s|
  {
    if |s| < 2 || !IsIntroducer(s[0]) || s[1] != '[' then 0
    else
      var k := 2 + DigitRun(s, 2);
      if k == 2 || k == |s| then 0
      else if IsFinal(s[k]) then k + 1
      else if s[k] == ';' && DigitRun(s, k + 1) > 0 then
        var l := k + 1 + DigitRun(s, k + 1);
        if l < |s| && IsFinal(s[l]) then l + 1 else 0
      else 0
  }

  /** Indexing into a prefix of `s` reads `s`. */
  lemma PrefixAt(s: string, n: nat)
    requires n <= |s|
    ensures forall i :: 0 <= i < n ==> s[..n][i] == s[i]
  {
  }

  /** The match, when there is one, is a colour sequence. */
  lemma MatchIsColourSequence(s: string)
    requires MatchLength(s) > 0
    ensures IsColourSequence(s[..MatchLength(s)])
  {
    var n := MatchLength(s);
    var t := s[..n];
    PrefixAt(s, n);
    var k := 2 + DigitRun(s, 2);
    var p := t[2..n - 1];
    assert forall i :: 0 <= i < |p| ==> p[i] == s[i + 2];
    if IsFinal(s[k]) {
      assert |p| == k - 2;
      assert IsNumber(p);
    } else {
      var d := DigitRun(s, k + 1);
      assert |p| == k - 1 + d;
      assert p[k - 2] == ';';
      var first, second := p[..k - 2], p[k - 1..];
      assert forall i :: 0 <= i < k - 2 ==> first[i] == s[i + 2];
      assert IsNumber(first);
      assert forall i :: 0 <= i < d ==> second[i] == s[k + 1 + i];
      assert IsNumber(second);
    }
  }

  /** A prefix of `s` that is a colour sequence is the match: no other length can match. */
  lemma ColourSequenceIsMatch(s: string, n: nat)
    requires n <= |s| && IsColourSequence(s[..n])
    ensures MatchLength(s) == n
  {
    var t := s[..n];
    PrefixAt(s, n);
    var p := t[2..n - 1];
    assert forall i :: 0 <= i < |p| ==> p[i] == s[i + 2];
    assert IsIntroducer(s[0]) && s[1] == '[' && IsFinal(s[n - 1]);
    assert n == |p| + 3 && !IsDigit(s[n - 1]);
    if IsNumber(p) {
      assert p[0] == s[2] && IsDigit(p[0]);
      if |p| == 2 {
        assert p[1] == s[3] && IsDigit(p[1]);
      }
      assert s[2 + |p|] == s[n - 1];
      assert DigitRun(s, 2) == |p|;
    } else if |p| >= 2 && p[1] == ';' && IsNumber(p[..1]) && IsNumber(p[2..]) {
      assert p[..1][0] == s[2];
      assert IsDigit(s[2]) && s[3] == ';';
      assert DigitRun(s, 2) == 1;
      NumberAt(s, p[2..], 4);
    } else {
      assert |p| >= 3 && p[2] == ';' && IsNumber(p[..2]) && IsNumber(p[3..]);
      assert p[..2][0] == s[2] && p[..2][1] == s[3];
      assert IsDigit(s[2]) && IsDigit(s[3]) && s[4] == ';';
      assert DigitRun(s, 2) == 2;
      NumberAt(s, p[3..], 5);
    }
  }

  /** A number that sits in `s` at `i`, followed by a character that is not a digit, is the digit run there. */
  lemma NumberAt(s: string, q: string, i: nat)
    requires IsNumber(q) && i + |q| < |s| && s[i..i + |q|] == q && !IsDigit(s[i + |q|])
    ensures DigitRun(s, i) == |q|
  {
    assert s[i] == q[0];
    if |q| == 2 {
      assert s[i + 1] == q[1];
    }
  }

  /** The matcher agrees with the language: a prefix of `s` is a colour sequence exactly when it is the match. */
  lemma MatchLengthIsTheMatch(s: string, n: nat)
    requires 1 <= n <= |s|
    ensures IsColourSequence(s[..n]) <==> n == MatchLength(s)
  {
    if IsColourSequence(s[..n]) {
      ColourSequenceIsMatch(s, n);
    }
    if n == MatchLength(s) {
      MatchIsColourSequence(s);
    }
  }

  /** Every character of a match belongs to the alphabet of colour sequences. */
  lemma MatchIsSequenceChars(s: string)
    ensures forall i :: 0 <= i < MatchLength(s) ==> IsSequenceChar(s[i])
  {
  }

  /** The global replace: every match, scanning left to right and resuming after each, is deleted. */
  function StripColours(s: string): (r: string)
    ensures multiset(r) <= multiset(s)
    ensures forall c :: !IsSequenceChar(c) ==> multiset(r)[c] == multiset(s)[c]
    decreases |s|
  {
    if s == [] then []
    else
      var n := MatchLength(s);
      if n > 0 then
        MatchIsSequenceChars(s);
        assert s == s[..n] + s[n..];
        assert forall c :: !IsSequenceChar(c) ==> multiset(s[..n])[c] == 0;
        StripColours(s[n..])
      else
        assert s == [s[0]] + s[1..];
        [s[0]] + StripColours(s[1..])
  }

  /** Text with no escape introducer passes through unchanged. */
  lemma {:induction false} StripColoursWithoutEscapes(s: string)
    requires forall i :: 0 <= i < |s| ==> !IsIntroducer(s[i])
    ensures StripColours(s) == s
  {
    if s != [] {
      StripColoursWithoutEscapes(s[1..]);
    }
  }

  /**
   * The scan never reads past an escape introducer: a match that starts in `a` stops before it, and one that
   * fails in `a` fails at it. So the pass over `a + b`, when `b` starts with an introducer, is the pass over
   * `a` followed by the pass over `b`.
   */
  lemma {:induction false} StripColoursSplit(a: string, b: string)
    requires b == [] || IsIntroducer(b[0])
    ensures StripColours(a + b) == StripColours(a) + StripColours(b)
    decreases |a|
  {
    if a == [] {
      assert a + b == b;
    } else {
      var n := MatchLength(a);
      var s := a + b;
      if n > 0 {
        assert StripColours(s) == StripColours(a[n..] + b) by {
          MatchLengthStopsAtIntroducer(a, b);
          assert s[n..] == a[n..] + b;
          StripColoursStep(s);
        }
        assert StripColours(a) == StripColours(a[n..]) by {
          StripColoursStep(a);
        }
        StripColoursSplit(a[n..], b);
      } else {
        assert StripColours(s) == [a[0]] + StripColours(a[1..] + b) by {
          MatchLengthStopsAtIntroducer(a, b);
          assert s[1..] == a[1..] + b && s[0] == a[0];
          StripColoursStep(s);
        }
        assert StripColours(a) == [a[0]] + StripColours(a[1..]) by {
          StripColoursStep(a);
        }
        StripColoursSplit(a[1..], b);
        Regroup([a[0]], StripColours(a[1..]), StripColours(b));
      }
    }
  }

  /** One step of the pass: a match at the front is dropped, otherwise the first character is kept. */
  lemma StripColoursStep(s: string)
    requires s != []
    ensures MatchLength(s) > 0 ==> StripColours(s) == StripColours(s[MatchLength(s)..])
    ensures MatchLength(s) == 0 ==> StripColours(s) == [s[0]] + StripColours(s[1..])
  {
  }

  /** Appending text that starts with an introducer changes neither whether nor how far the match reaches. */
  lemma MatchLengthStopsAtIntroducer(a: string, b: string)
    requires a != [] && (b == [] || IsIntroducer(b[0]))
    ensures MatchLength(a + b) == MatchLength(a)
  {
    var s := a + b;
    assert forall i :: 0 <= i < |a| ==> s[i] == a[i];
    if b != [] {
      assert s[|a|] == b[0];
      assert !IsDigit(s[|a|]) && !IsFinal(s[|a|]) && s[|a|] != ';' && s[|a|] != '[';
    }
    if |a| >= 2 && IsIntroducer(a[0]) && a[1] == '[' {
      assert DigitRun(s, 2) == DigitRun(a, 2);
      var k := 2 + DigitRun(a, 2);
      if k < |a| && a[k] == ';' {
        assert DigitRun(s, k + 1) == DigitRun(a, k + 1);
      }
    }
  }

  /** A colour sequence at the front is deleted whatever follows it. */
  lemma StripColoursDropsSequence(t: string, s: string)
    requires IsColourSequence(t)
    ensures StripColours(t + s) == StripColours(s)
  {
    assert (t + s)[..|t|] == t;
    MatchLengthIsTheMatch(t + s, |t|);
    assert (t + s)[|t|..] == s;
  }

  /** A colour sequence anywhere in the text is deleted, and the text on either side of it is processed as if apart. */
  lemma StripColoursDropsInnerSequence(a: string, t: string, b: string)
    requires IsColourSequence(t)
    ensures StripColours(a + t + b) == StripColours(a) + StripColours(b)
  {
    assert a + t + b == a + (t + b);
    StripColoursSplit(a, t + b);
    StripColoursDropsSequence(t, b);
  }

  /** A character that is not an escape introducer is always kept, in place. */
  lemma StripColoursKeepsOther(c: char, s: string)
    requires !IsIntroducer(c)
    ensures StripColours([c] + s) == [c] + StripColours(s)
  {
    assert ([c] + s)[1..] == s;
  }

  /** `text.split('\n')[0]`: the longest prefix with no line feed. */
  function FirstLine(s: string): (r: string)
    ensures |r| <= |s| && r == s[..|r|]
    ensures '\n' !in r
    ensures |r| < |s| ==> s[|r|] == '\n'
  {
    if s == [] || s[0] == '\n' then [] else [s[0]] + FirstLine(s[1..])
  }

  /** `sanitizeErrorMessage(errorMessage, full)`; an absent or empty message gives `''`. */
  function SanitizeErrorMessage(message: Option<string>, full: bool): (r: string)
    ensures (message.None? || message.value == "") ==> r == ""
  {
    if message.None? || message.value == "" then ""
    else
      var sanitized := Trim(StripColours(message.value));
      if full then sanitized else FirstLine(sanitized)
  }

  /** The one-line form has no line feed and is a prefix of the full form. */
  lemma ShortIsPrefixOfFull(message: Option<string>)
    ensures '\n' !in SanitizeErrorMessage(message, false)
    ensures var short, long := SanitizeErrorMessage(message, false), SanitizeErrorMessage(message, true);
      |short| <= |long| && short == long[..|short|]
  {
  }

  /** Trimming only deletes characters. */
  lemma TrimOnlyDeletes(s: string)
    ensures multiset(Trim(s)) <= multiset(s)
  {
    InnerSliceMultiset(s, TrimStart(s), Trim(s));
  }

  /** A prefix of a suffix of `s` holds no more of any character than `s`. */
  lemma InnerSliceMultiset(s: string, t: string, r: string)
    requires |t| <= |s| && t == s[|s| - |t|..]
    requires |r| <= |t| && r == t[..|r|]
    ensures multiset(r) <= multiset(s)
  {
    assert t == r + t[|r|..];
    assert s == s[..|s| - |t|] + t;
  }

  /** The full form only deletes characters: it holds no character more often than the message does. */
  lemma FullOnlyDeletes(m: string)
    ensures multiset(SanitizeErrorMessage(Some(m), true)) <= multiset(m)
  {
    if m != "" {
      var stripped := StripColours(m);
      TrimOnlyDeletes(stripped);
      assert SanitizeErrorMessage(Some(m), true) == Trim(stripped);
    }
  }

  /** A message with no escape introducer and no space at either end comes back whole: nothing is truncated. */
  lemma SanitizeKeepsPlainMessage(m: string)
    requires forall i :: 0 <= i < |m| ==> !IsIntroducer(m[i])
    requires m == [] || (!IsSpace(m[0]) && !IsSpace(m[|m| - 1]))
    ensures SanitizeErrorMessage(Some(m), true) == m
  {
    if m != [] {
      StripColoursWithoutEscapes(m);
      TrimKeepsTrimmed(m);
    }
  }

  /** The usual coloured message, a plain text wrapped in a colour and a reset sequence, is reduced to the text. */
  lemma SanitizeUnwrapsColouredText(open: string, m: string, close: string)
    requires IsColourSequence(open) && IsColourSequence(close)
    requires forall i :: 0 <= i < |m| ==> !IsIntroducer(m[i])
    requires m == [] || (!IsSpace(m[0]) && !IsSpace(m[|m| - 1]))
    ensures SanitizeErrorMessage(Some(open + m + close), true) == m
  {
    assert StripColours(open + m + close) == m by {
      Regroup(open, m, close);
      StripColoursDropsSequence(open, m + close);
      StripColoursSplit(m, close);
      StripColoursWithoutEscapes(m);
      assert StripColours(close) == [] by {
        assert close + [] == close;
        StripColoursDropsSequence(close, []);
      }
    }
    if m != [] {
      TrimKeepsTrimmed(m);
    }
  }
}
