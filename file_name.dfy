/**
 * File names the JSON reporter writes and reads: `formatDateForFilename`, the `test-report-*.json` name
 * of a run report, the screenshot name, and the filter the aggregator applies to directory listings.
 */
module FileName {
  import opened Text
  import ShortHash

  /** `.replace(/,/g, '')` */
  function RemoveCommas(s: string): (r: string)
    ensures ',' !in r && |r| <= |s|
    ensures forall i :: 0 <= i < |r| ==> r[i] in s
  {
    if s == [] then [] else (if s[0] == ',' then [] else [s[0]]) + RemoveCommas(s[1..])
  }

  /** `.replace(/:/g, '-')` */
  function ColonsToDashes(s: string): (r: string)
    ensures |r| == |s|
    ensures forall i :: 0 <= i < |s| ==> r[i] == if s[i] == ':' then '-' else s[i]
  {
    if s == [] then [] else [if s[0] == ':' then '-' else s[0]] + ColonsToDashes(s[1..])
  }

  /** `.replace(/\s+/g, '_')`: each maximal run of spaces becomes one underscore. */
  function CollapseSpaces(s: string): (r: string)
    ensures |r| <= |s|
    ensures forall i :: 0 <= i < |r| ==> !IsSpace(r[i]) && (r[i] == '_' || r[i] in s)
    decreases |s|
  {
    if s == [] then []
    else if IsSpace(s[0]) then ['_'] + CollapseSpaces(TrimStart(s))
    else [s[0]] + CollapseSpaces(s[1..])
  }

  /** `formatDateForFilename(date)` applied to `date.toUTCString()`. */
  function FormatDateForFilename(utc: string): (r: string)
    ensures |r| <= |utc|
    ensures forall i :: 0 <= i < |r| ==> r[i] != ',' && r[i] != ':' && !IsSpace(r[i])
  {
    CollapseSpaces(ColonsToDashes(RemoveCommas(utc)))
  }

  /** A text with no comma, colon or space is already filename-safe and is left unchanged. */
  lemma FormatKeepsSafeText(s: string)
    requires forall i :: 0 <= i < |s| ==> s[i] != ',' && s[i] != ':' && !IsSpace(s[i])
    ensures FormatDateForFilename(s) == s
  {
    NoCommasKept(s);
    assert ColonsToDashes(s) == s;
    NoSpacesKept(s);
  }

  lemma {:induction false} NoCommasKept(s: string)
    requires forall i :: 0 <= i < |s| ==> s[i] != ','
    ensures RemoveCommas(s) == s
  {
    if s != [] {
      NoCommasKept(s[1..]);
    }
  }

  lemma {:induction false} NoSpacesKept(s: string)
    requires forall i :: 0 <= i < |s| ==> !IsSpace(s[i])
    ensures CollapseSpaces(s) == s
    decreases |s|
  {
    if s != [] {
      NoSpacesKept(s[1..]);
    }
  }

  /** Removing commas works piece by piece: together with the one-character case it says every comma goes and all else stays, in order. */
  lemma {:induction false} RemoveCommasAppend(a: string, b: string)
    ensures RemoveCommas(a + b) == RemoveCommas(a) + RemoveCommas(b)
  {
    if a == [] {
      assert a + b == b;
    } else {
      assert (a + b)[1..] == a[1..] + b;
      RemoveCommasAppend(a[1..], b);
      Regroup(if a[0] == ',' then [] else [a[0]], RemoveCommas(a[1..]), RemoveCommas(b));
    }
  }

  /** Replacing colons works piece by piece. */
  lemma ColonsToDashesAppend(a: string, b: string)
    ensures ColonsToDashes(a + b) == ColonsToDashes(a) + ColonsToDashes(b)
  {
  }

  /** Leading spaces of a run followed by a non-space are all dropped. */
  lemma {:induction false} TrimStartOfRun(w: string, t: string)
    requires forall i :: 0 <= i < |w| ==> IsSpace(w[i])
    requires t == [] || !IsSpace(t[0])
    ensures TrimStart(w + t) == t
  {
    if w == [] {
      assert w + t == t;
    } else {
      assert (w + t)[1..] == w[1..] + t;
      TrimStartOfRun(w[1..], t);
    }
  }

  /** Trimming the start of a text that ends with a non-space never reaches what is appended to it. */
  lemma {:induction false} TrimStartAppend(a: string, b: string)
    requires a != [] && !IsSpace(a[|a| - 1])
    ensures TrimStart(a + b) == TrimStart(a) + b
  {
    if IsSpace(a[0]) {
      assert (a + b)[1..] == a[1..] + b;
      TrimStartAppend(a[1..], b);
    }
  }

  /** A non-empty run of spaces followed by a non-space (or by nothing) becomes one underscore. */
  lemma CollapseSpacesRun(w: string, t: string)
    requires w != [] && forall i :: 0 <= i < |w| ==> IsSpace(w[i])
    requires t == [] || !IsSpace(t[0])
    ensures CollapseSpaces(w + t) == "_" + CollapseSpaces(t)
  {
    assert (w + t)[0] == w[0];
    TrimStartOfRun(w, t);
  }

  /** Any other character is kept, in place. */
  lemma CollapseSpacesKeeps(c: char, t: string)
    requires !IsSpace(c)
    ensures CollapseSpaces([c] + t) == [c] + CollapseSpaces(t)
  {
    assert ([c] + t)[1..] == t;
  }

  /** Collapsing works piece by piece when the pieces do not split a run of spaces. */
  lemma {:induction false} CollapseSpacesAppend(a: string, b: string)
    requires a == [] || !IsSpace(a[|a| - 1])
    ensures CollapseSpaces(a + b) == CollapseSpaces(a) + CollapseSpaces(b)
    decreases |a|
  {
    if a == [] {
      assert a + b == b;
    } else if IsSpace(a[0]) {
      var rest := TrimStart(a);
      assert CollapseSpaces(a + b) == "_" + CollapseSpaces(rest + b) by {
        assert (a + b)[0] == a[0];
        TrimStartAppend(a, b);
      }
      CollapseSpacesAppend(rest, b);
      Regroup("_", CollapseSpaces(rest), CollapseSpaces(b));
    } else {
      assert CollapseSpaces(a + b) == [a[0]] + CollapseSpaces(a[1..] + b) by {
        assert (a + b)[0] == a[0] && (a + b)[1..] == a[1..] + b;
      }
      CollapseSpacesAppend(a[1..], b);
      Regroup([a[0]], CollapseSpaces(a[1..]), CollapseSpaces(b));
    }
  }

  /**
   * The date text is formatted piece by piece wherever a piece ends with a character that is neither a
   * comma nor a space; with `FormatDropsComma`, `FormatSpaceRun` and `FormatOneChar` this says what
   * happens to every character.
   */
  lemma FormatAppend(a: string, b: string)
    requires a == [] || (a[|a| - 1] != ',' && !IsSpace(a[|a| - 1]))
    ensures FormatDateForFilename(a + b) == FormatDateForFilename(a) + FormatDateForFilename(b)
  {
    var ra, rb := RemoveCommas(a), RemoveCommas(b);
    RemoveCommasAppend(a, b);
    ColonsToDashesAppend(ra, rb);
    EndsWithoutSpace(a);
    CollapseSpacesAppend(ColonsToDashes(ra), ColonsToDashes(rb));
  }

  /** A text ending with neither a comma nor a space keeps its last character through the first two steps. */
  lemma EndsWithoutSpace(a: string)
    requires a == [] || (a[|a| - 1] != ',' && !IsSpace(a[|a| - 1]))
    ensures var ca := ColonsToDashes(RemoveCommas(a)); ca == [] || !IsSpace(ca[|ca| - 1])
  {
    if a != [] {
      RemoveCommasKeepsLast(a);
    }
  }

  /** A first character that is not a comma stays first. */
  lemma RemoveCommasKeepsFirst(b: string)
    requires b != [] && b[0] != ','
    ensures var rb := RemoveCommas(b); rb != [] && rb[0] == b[0]
  {
    assert RemoveCommas(b) == [b[0]] + RemoveCommas(b[1..]);
  }

  /** A last character that is not a comma stays last. */
  lemma RemoveCommasKeepsLast(a: string)
    requires a != [] && a[|a| - 1] != ','
    ensures var ra := RemoveCommas(a); ra != [] && ra[|ra| - 1] == a[|a| - 1]
  {
    var init, last := a[..|a| - 1], a[|a| - 1];
    assert RemoveCommas(a) == RemoveCommas(init) + [last] by {
      assert a == init + [last];
      RemoveCommasAppend(init, [last]);
      assert RemoveCommas([last]) == [last];
    }
  }

  /** A run of spaces between words becomes one underscore. */
  lemma FormatSpaceRun(w: string, b: string)
    requires w != [] && forall i :: 0 <= i < |w| ==> IsSpace(w[i])
    requires b == [] || (b[0] != ',' && !IsSpace(b[0]))
    ensures FormatDateForFilename(w + b) == "_" + FormatDateForFilename(b)
  {
    var rb := RemoveCommas(b);
    assert RemoveCommas(w + b) == w + rb by {
      RemoveCommasAppend(w, b);
      NoCommasKept(w);
    }
    var cb := ColonsToDashes(rb);
    assert ColonsToDashes(w + rb) == w + cb by {
      ColonsToDashesAppend(w, rb);
      assert ColonsToDashes(w) == w;
    }
    if b != [] {
      RemoveCommasKeepsFirst(b);
    }
    CollapseSpacesRun(w, cb);
  }

  /** A comma is dropped, a colon becomes `-`, a space `_`, and any other character stays. */
  lemma FormatOneChar(c: char)
    ensures FormatDateForFilename([c]) ==
      if c == ',' then [] else if c == ':' then "-" else if IsSpace(c) then "_" else [c]
  {
    if IsSpace(c) {
      CollapseSpacesRun([c], []);
      assert [c] + [] == [c];
    }
  }

  /** A comma is dropped wherever it stands, even next to a space, as in the `, ` after the weekday of a UTC date. */
  lemma FormatDropsComma(a: string, b: string)
    ensures FormatDateForFilename(a + "," + b) == FormatDateForFilename(a + b)
  {
    RemoveCommasAppend(a + ",", b);
    RemoveCommasAppend(a, ",");
    RemoveCommasAppend(a, b);
    assert RemoveCommas(",") == [] by {
      assert ","[1..] == [];
    }
    assert RemoveCommas(a + ",") == RemoveCommas(a);
    assert a + "," + b == (a + ",") + b;
  }

  /** The name the reporter gives its run report: `test-report-<timestamp>.json`. */
  function ReportFileName(utc: string): string {
    "test-report-" + FormatDateForFilename(utc) + ".json"
  }

  /** The aggregator's filter on a directory listing. */
  predicate IsReportFileName(name: string) {
    StartsWith(name, "test-report-") && EndsWith(name, ".json")
  }

  /** Every report the recorder writes passes the aggregator's filter. */
  lemma ReportFileNameIsCollected(utc: string)
    ensures IsReportFileName(ReportFileName(utc))
  {
    var name := ReportFileName(utc);
    assert name[..12] == "test-report-";
    assert name[|name| - 5..] == ".json";
  }

  /** `screenshot-<hash>-<timestamp>.png` */
  function ScreenshotFileName(title: string, utc: string): string {
    "screenshot-" + ShortHash.ShortHash(title) + "-" + FormatDateForFilename(utc) + ".png"
  }
}
