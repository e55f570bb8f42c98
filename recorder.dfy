/**
 * The per-run result recorder (`JSONReporter` instance): it turns each finished test into a result,
 * keeps the first result per uid, buffers the spec's stdout between tests, and writes one run report.
 */
module Recorder {
  import opened Wrappers
  import opened Text
  import opened Report
  import Sanitize
  import ShortHash
  import FileName

  /** An error as the runner reports it; either part may be missing. */
  datatype RunnerError = RunnerError(message: Option<string>, stack: Option<string>)

  /** The runner's test object, as far as the recorder reads it. */
  datatype RunnerTest = RunnerTest(uid: Option<string>, title: string, parent: Option<string>, errors: Option<seq<RunnerError>>)

  /** How the screenshot attempt ended: `takeScreenshot` or `mkdirSync` threw, `writeFileSync` threw, or all went well. */
  datatype CaptureOutcome = CaptureFailed | WriteFailed | Saved

  /** The browser log capability: not offered, offered but `getLogs` threw, or the fetched entries. */
  datatype BrowserLogs = LogsUnavailable | LogsFailed | LogsFetched(entries: seq<string>)

  const DefaultSuite: string := "Default Suite"

  /** `test.uid || `${test.title}-${timestamp}``: a missing or empty uid falls back to title and time. */
  function UidOf(test: RunnerTest, timestamp: string): (uid: string)
    ensures uid != ""
  {
    if test.uid.Some? && test.uid.value != "" then test.uid.value else test.title + "-" + timestamp
  }

  /** `c` read through the ASCII case folding that `/i` applies to the letters of `suite`. */
  function LowerAscii(c: char): char {
    if 'A' <= c <= 'Z' then (c as int + 32) as char else c
  }

  /** The characters a `suite<digits>` marker can be made of. */
  predicate IsMarkerChar(c: char) {
    LowerAscii(c) in "suite" || IsDigit(c)
  }

  /** How many digits start `s`. */
  function DigitCount(s: string): (n: nat)
    ensures n <= |s| && forall i :: 0 <= i < n ==> IsDigit(s[i])
    ensures n < |s| ==> !IsDigit(s[n])
  {
    if s != [] && IsDigit(s[0]) then 1 + DigitCount(s[1..]) else 0
  }

  /** The length of the match of `/suite\d+/i` at the start of `s` (the digit run is greedy), 0 when none. */
  function MarkerLength(s: string): (n: nat)
    ensures n == 0 || 6 <= n <= |s|
    ensures forall i :: 0 <= i < n ==> IsMarkerChar(s[i])
  {
    if |s| >= 6 && LowerAscii(s[0]) == 's' && LowerAscii(s[1]) == 'u' && LowerAscii(s[2]) == 'i'
      && LowerAscii(s[3]) == 't' && LowerAscii(s[4]) == 'e' && IsDigit(s[5])
    then 5 + DigitCount(s[5..])
    else 0
  }

  /** `.replace(/suite\d+/gi, '')`: only marker characters are removed. */
  function StripSuiteMarkers(s: string): (r: string)
    ensures multiset(r) <= multiset(s)
    ensures forall c :: !IsMarkerChar(c) ==> multiset(r)[c] == multiset(s)[c]
    decreases |s|
  {
    if s == [] then []
    else
      var n := MarkerLength(s);
      if n > 0 then
        assert s == s[..n] + s[n..];
        assert forall c :: !IsMarkerChar(c) ==> multiset(s[..n])[c] == 0;
        StripSuiteMarkers(s[n..])
      else
        assert s == [s[0]] + s[1..];
        [s[0]] + StripSuiteMarkers(s[1..])
  }

  /** The suite name: the parent without its `suite<n>` markers, trimmed; `Default Suite` without a parent. */
  function SuiteNameOf(test: RunnerTest): (name: string)
    ensures (test.parent.None? || test.parent.value == "") ==> name == DefaultSuite
    ensures test.parent.Some? && test.parent.value != "" ==>
      name == [] || (!IsSpace(name[0]) && !IsSpace(name[|name| - 1]))
  {
    if test.parent.Some? && test.parent.value != "" then Trim(StripSuiteMarkers(test.parent.value)) else DefaultSuite
  }

  /** The language of `/suite\d+/i`: the word `suite` in either case, letter by letter, then one digit or more. */
  predicate IsMarker(t: string) {
    && |t| >= 6
    && LowerAscii(t[0]) == 's' && LowerAscii(t[1]) == 'u' && LowerAscii(t[2]) == 'i'
    && LowerAscii(t[3]) == 't' && LowerAscii(t[4]) == 'e'
    && forall i :: 5 <= i < |t| ==> IsDigit(t[i])
  }

  /**
   * The match is the longest marker that starts `s`: when there is one it is a marker and no digit follows
   * it, and no marker that starts `s` is longer (so there is a match exactly when some prefix is a marker).
   */
  lemma MarkerLengthIsLongestMarker(s: string, m: nat)
    requires m <= |s|
    ensures MarkerLength(s) > 0 ==> IsMarker(s[..MarkerLength(s)])
    ensures MarkerLength(s) > 0 ==> MarkerLength(s) == |s| || !IsDigit(s[MarkerLength(s)])
    ensures IsMarker(s[..m]) ==> m <= MarkerLength(s)
  {
    var n := MarkerLength(s);
    if n > 0 {
      var d := DigitCount(s[5..]);
      assert n == 5 + d;
      assert forall i :: 5 <= i < n ==> s[..n][i] == s[5..][i - 5];
      if n < |s| {
        assert s[n] == s[5..][d];
      }
    }
    if IsMarker(s[..m]) {
      assert s[5] == s[..m][5];
    }
  }

  /** `DigitCount` stops where a non-digit starts the appended text. */
  lemma {:induction false} DigitCountStops(x: string, y: string)
    requires y == [] || !IsDigit(y[0])
    ensures DigitCount(x + y) == DigitCount(x)
  {
    if x == [] {
      assert x + y == y;
    } else {
      assert (x + y)[1..] == x[1..] + y;
      DigitCountStops(x[1..], y);
    }
  }

  /**
   * Appending text that starts with an `s` changes no match: the `s` of a marker is only ever its first
   * letter, so a match starting earlier can neither take it in nor be completed by it.
   */
  lemma MarkerLengthStopsAtS(a: string, b: string)
    requires a != [] && (b == [] || LowerAscii(b[0]) == 's')
    ensures MarkerLength(a + b) == MarkerLength(a)
  {
    var x := a + b;
    assert forall i :: 0 <= i < |a| ==> x[i] == a[i];
    if b != [] {
      assert x[|a|] == b[0] && !IsDigit(b[0]);
    }
    if |a| >= 6 {
      assert x[5..] == a[5..] + b;
      DigitCountStops(a[5..], b);
    }
  }

  /** One step of the replace: a marker at the front is dropped, otherwise the first character is kept. */
  lemma StripSuiteMarkersStep(s: string)
    requires s != []
    ensures MarkerLength(s) > 0 ==> StripSuiteMarkers(s) == StripSuiteMarkers(s[MarkerLength(s)..])
    ensures MarkerLength(s) == 0 ==> StripSuiteMarkers(s) == [s[0]] + StripSuiteMarkers(s[1..])
  {
  }

  /** Before an `s`, the replace over `a + b` is the replace over `a` followed by the replace over `b`. */
  lemma {:induction false} StripSuiteMarkersSplit(a: string, b: string)
    requires b == [] || LowerAscii(b[0]) == 's'
    ensures StripSuiteMarkers(a + b) == StripSuiteMarkers(a) + StripSuiteMarkers(b)
    decreases |a|
  {
    if a == [] {
      assert a + b == b;
    } else {
      var n := MarkerLength(a);
      var x := a + b;
      if n > 0 {
        assert StripSuiteMarkers(x) == StripSuiteMarkers(a[n..] + b) by {
          MarkerLengthStopsAtS(a, b);
          assert x[n..] == a[n..] + b;
          StripSuiteMarkersStep(x);
        }
        assert StripSuiteMarkers(a) == StripSuiteMarkers(a[n..]) by {
          StripSuiteMarkersStep(a);
        }
        StripSuiteMarkersSplit(a[n..], b);
      } else {
        assert StripSuiteMarkers(x) == [a[0]] + StripSuiteMarkers(a[1..] + b) by {
          MarkerLengthStopsAtS(a, b);
          assert x[1..] == a[1..] + b && x[0] == a[0];
          StripSuiteMarkersStep(x);
        }
        assert StripSuiteMarkers(a) == [a[0]] + StripSuiteMarkers(a[1..]) by {
          StripSuiteMarkersStep(a);
        }
        StripSuiteMarkersSplit(a[1..], b);
        Regroup([a[0]], StripSuiteMarkers(a[1..]), StripSuiteMarkers(b));
      }
    }
  }

  /** A marker at the front is deleted, provided the text after it does not go on with a digit. */
  lemma StripSuiteMarkersDropsMarker(t: string, s: string)
    requires IsMarker(t) && (s == [] || !IsDigit(s[0]))
    ensures StripSuiteMarkers(t + s) == StripSuiteMarkers(s)
  {
    var x := t + s;
    assert x[..|t|] == t;
    MarkerLengthIsLongestMarker(x, |t|);
    assert x[|t|..] == s;
    StripSuiteMarkersStep(x);
  }

  /** A marker anywhere is deleted, and the text on either side of it is processed as if apart. */
  lemma StripSuiteMarkersDropsInnerMarker(a: string, t: string, s: string)
    requires IsMarker(t) && (s == [] || !IsDigit(s[0]))
    ensures StripSuiteMarkers(a + t + s) == StripSuiteMarkers(a) + StripSuiteMarkers(s)
  {
    assert a + t + s == a + (t + s);
    StripSuiteMarkersSplit(a, t + s);
    StripSuiteMarkersDropsMarker(t, s);
  }

  /** A character where no marker starts is kept, in place. */
  lemma StripSuiteMarkersKeepsChar(c: char, s: string)
    requires forall m :: 6 <= m <= |s| + 1 ==> !IsMarker(([c] + s)[..m])
    ensures StripSuiteMarkers([c] + s) == [c] + StripSuiteMarkers(s)
  {
    var x := [c] + s;
    MarkerLengthIsLongestMarker(x, 0);
    assert x[1..] == s;
    StripSuiteMarkersStep(x);
  }

  /** Text in which no marker starts anywhere passes through unchanged. */
  lemma {:induction false} StripSuiteMarkersKeepsPlainText(s: string)
    requires forall i :: 0 <= i < |s| ==> MarkerLength(s[i..]) == 0
    ensures StripSuiteMarkers(s) == s
  {
    if s != [] {
      assert s[0..] == s;
      forall i | 0 <= i < |s[1..]|
        ensures MarkerLength(s[1..][i..]) == 0
      {
        assert s[1..][i..] == s[i + 1..];
      }
      StripSuiteMarkersKeepsPlainText(s[1..]);
    }
  }

  /** A parent made of a plain name followed by its marker (`Login suite1`) is named by the name, trimmed. */
  lemma SuiteNameOfMarkedParent(test: RunnerTest, name: string, t: string)
    requires test.parent == Some(name + t) && IsMarker(t)
    requires forall i :: 0 <= i < |name| ==> MarkerLength(name[i..]) == 0
    ensures SuiteNameOf(test) == Trim(name)
  {
    assert StripSuiteMarkers(name + t) == name by {
      assert t + [] == t;
      StripSuiteMarkersSplit(name, t);
      StripSuiteMarkersDropsMarker(t, []);
      StripSuiteMarkersKeepsPlainText(name);
    }
  }

  /**
   * `test.errors ? test.errors.map(...) : []`: one stored error per runner error, in order, each message
   * and stack fully sanitised; no errors without the list.
   */
  function StoredErrors(errors: Option<seq<RunnerError>>): (es: seq<ErrorEntry>)
    ensures errors.None? ==> es == []
    ensures errors.Some? ==> |es| == |errors.value|
    ensures errors.Some? ==> forall i :: 0 <= i < |es| ==>
      es[i] == ErrorEntry(Sanitize.SanitizeErrorMessage(errors.value[i].message, true),
                          Sanitize.SanitizeErrorMessage(errors.value[i].stack, true))
  {
    if errors.None? then [] else StoredErrorList(errors.value)
  }

  function StoredErrorList(errors: seq<RunnerError>): (es: seq<ErrorEntry>)
    ensures |es| == |errors|
    ensures forall i :: 0 <= i < |es| ==>
      es[i] == ErrorEntry(Sanitize.SanitizeErrorMessage(errors[i].message, true),
                          Sanitize.SanitizeErrorMessage(errors[i].stack, true))
  {
    if errors == [] then []
    else
      [ErrorEntry(Sanitize.SanitizeErrorMessage(errors[0].message, true), Sanitize.SanitizeErrorMessage(errors[0].stack, true))]
        + StoredErrorList(errors[1..])
  }

  /** A screenshot is attempted for every test under `Full`, and for failed tests under `OnFailure`. */
  predicate ShouldCapture(screenshotOption: string, status: Status) {
    screenshotOption == "Full" || (screenshotOption == "OnFailure" && status == Failed)
  }

  /**
   * The stored `screenshot`: `''` unless a capture is attempted and gets as far as computing the path.
   * The path is assigned before `writeFileSync`, so a failing write still leaves it in the result.
   */
  function ScreenshotPath(screenshotOption: string, status: Status, capture: CaptureOutcome,
                          screenshotDir: string, title: string, utc: string): (path: string)
    ensures !ShouldCapture(screenshotOption, status) || capture == CaptureFailed ==> path == ""
    ensures ShouldCapture(screenshotOption, status) && capture != CaptureFailed ==> path != ""
  {
    if ShouldCapture(screenshotOption, status) && capture != CaptureFailed
    then screenshotDir + "/" + FileName.ScreenshotFileName(title, utc)
    else ""
  }

  /** The browser console entries stored with a result: none unless they were fetched. */
  function BrowserEntries(logs: BrowserLogs): seq<string> {
    if logs.LogsFetched? then logs.entries else []
  }

  /** The result `addTestResult` builds for one finished test. */
  function NewResult(test: RunnerTest, status: Status, timestamp: string, screenshot: string,
                     logs: BrowserLogs, specLogs: seq<string>): TestResult
  {
    TestResult(UidOf(test, timestamp), timestamp, SuiteNameOf(test), test.title, status,
               StoredErrors(test.errors), screenshot, BrowserEntries(logs), specLogs)
  }

  function UidsOf(results: seq<TestResult>): set<string> {
    set r | r in results :: r.uid
  }

  predicate UniqueUids(results: seq<TestResult>) {
    forall i, j :: 0 <= i < j < |results| ==> results[i].uid != results[j].uid
  }

  /** Recording one result: it is appended unless a result with its uid is already there. */
  function Admit(results: seq<TestResult>, r: TestResult): seq<TestResult> {
    if r.uid in UidsOf(results) then results else results + [r]
  }

  /** Recording a whole run of results, one after another. */
  function AdmitAll(incoming: seq<TestResult>): seq<TestResult> {
    if incoming == [] then [] else Admit(AdmitAll(incoming[..|incoming| - 1]), incoming[|incoming| - 1])
  }

  /** No earlier result of `incoming` has the uid of the one at `k`. */
  predicate IsFirstOfUid(incoming: seq<TestResult>, k: nat)
    requires k < |incoming|
  {
    forall j :: 0 <= j < k ==> incoming[j].uid != incoming[k].uid
  }

  /** The reference: the results that are the first of their uid, in arrival order. */
  function FirstOfEachUid(incoming: seq<TestResult>): seq<TestResult> {
    if incoming == [] then []
    else
      var k := |incoming| - 1;
      FirstOfEachUid(incoming[..k]) + (if IsFirstOfUid(incoming, k) then [incoming[k]] else [])
  }

  /** The result at `k` is the first of its uid exactly when no earlier result carries that uid. */
  lemma FirstIffUnseen(incoming: seq<TestResult>, k: nat)
    requires k < |incoming|
    ensures IsFirstOfUid(incoming, k) <==> incoming[k].uid !in UidsOf(incoming[..k])
  {
    var prefix := incoming[..k];
    if incoming[k].uid in UidsOf(prefix) {
      var x :| x in prefix && x.uid == incoming[k].uid;
      var j :| 0 <= j < k && prefix[j] == x;
      assert incoming[j].uid == incoming[k].uid;
    }
    if !IsFirstOfUid(incoming, k) {
      var j :| 0 <= j < k && incoming[j].uid == incoming[k].uid;
      assert prefix[j] in prefix;
    }
  }

  /** Admitting a result keeps the uids unique and adds its uid to the set of uids. */
  lemma AdmitKeepsUidsUnique(results: seq<TestResult>, r: TestResult)
    requires UniqueUids(results)
    ensures UniqueUids(Admit(results, r))
    ensures UidsOf(Admit(results, r)) == UidsOf(results) + {r.uid}
  {
    UidsOfAppend(results, r);
    if r.uid !in UidsOf(results) {
      var s := results + [r];
      forall i, j | 0 <= i < j < |s| ensures s[i].uid != s[j].uid {
        if j == |results| {
          assert s[i] in results;
        }
      }
    }
  }

  lemma UidsOfAppend(results: seq<TestResult>, r: TestResult)
    ensures UidsOf(results + [r]) == UidsOf(results) + {r.uid}
  {
    assert r in results + [r];
    forall x | x in results + [r] ensures x == r || x in results {
    }
    forall x | x in results ensures x in results + [r] {
    }
  }

  lemma {:induction false} FirstOfEachUidHasSameUids(incoming: seq<TestResult>)
    ensures UidsOf(FirstOfEachUid(incoming)) == UidsOf(incoming)
    ensures UniqueUids(FirstOfEachUid(incoming))
  {
    if incoming != [] {
      var k := |incoming| - 1;
      var prefix := incoming[..k];
      FirstOfEachUidHasSameUids(prefix);
      FirstIffUnseen(incoming, k);
      assert incoming == prefix + [incoming[k]];
      UidsOfAppend(prefix, incoming[k]);
      if IsFirstOfUid(incoming, k) {
        UidsOfAppend(FirstOfEachUid(prefix), incoming[k]);
      }
    }
  }

  /**
   * Deduplication keeps the first result of every uid: recording a sequence of results one by one
   * yields exactly the results that are the first of their uid, in arrival order, with no uid twice.
   */
  lemma {:induction false} RecordingKeepsFirstOfEachUid(incoming: seq<TestResult>)
    ensures AdmitAll(incoming) == FirstOfEachUid(incoming)
    ensures UniqueUids(AdmitAll(incoming)) && UidsOf(AdmitAll(incoming)) == UidsOf(incoming)
  {
    FirstOfEachUidHasSameUids(incoming);
    if incoming != [] {
      var k := |incoming| - 1;
      var prefix := incoming[..k];
      RecordingKeepsFirstOfEachUid(prefix);
      FirstOfEachUidHasSameUids(prefix);
      FirstIffUnseen(incoming, k);
    }
  }

  class JsonReporter {
    const screenshotOption: string
    const screenshotDir: string
    const executionId: string
    const executionStartTime: Time

    var testResults: seq<TestResult>
    var testResultUids: set<string>
    var currentTestSpecLogs: seq<string>

    /** The uid set is the set of the recorded results' uids, and no uid is recorded twice. */
    ghost predicate Valid()
      reads this
    {
      testResultUids == UidsOf(testResults) && UniqueUids(testResults)
    }

    /** A reporter for one run; the shared execution id and the start time come from the caller. */
    constructor (screenshotOption: string, outputDir: string, executionId: string, startTime: Time)
      ensures Valid()
      ensures testResults == [] && testResultUids == {} && currentTestSpecLogs == []
      ensures this.screenshotOption == screenshotOption && screenshotDir == outputDir + "/screenshots"
      ensures this.executionId == executionId && executionStartTime == startTime
    {
      this.screenshotOption := screenshotOption;
      screenshotDir := outputDir + "/screenshots";
      this.executionId := executionId;
      executionStartTime := startTime;
      testResults := [];
      testResultUids := {};
      currentTestSpecLogs := [];
    }

    /** `onTestStart`: a new test starts with an empty stdout buffer. */
    method OnTestStart()
      modifies this`currentTestSpecLogs
      ensures currentTestSpecLogs == []
    {
      currentTestSpecLogs := [];
    }

    /** `onStdout`: a chunk of the spec's stdout is buffered for the running test. */
    method OnStdout(chunk: string)
      modifies this`currentTestSpecLogs
      ensures currentTestSpecLogs == old(currentTestSpecLogs) + [chunk]
    {
      currentTestSpecLogs := currentTestSpecLogs + [chunk];
    }

    /**
     * `addTestResult(test, status)`. The clock (`timestamp`, `utc`), the screenshot attempt and the
     * browser logs are inputs. The stdout buffer goes with this result and is emptied; the result is
     * recorded only if its uid is new.
     */
    method AddTestResult(test: RunnerTest, status: Status, timestamp: string, utc: string,
                         capture: CaptureOutcome, logs: BrowserLogs)
      requires Valid()
      modifies this`testResults, this`testResultUids, this`currentTestSpecLogs
      ensures Valid()
      ensures currentTestSpecLogs == []
      ensures var r := NewResult(test, status, timestamp,
                                 ScreenshotPath(screenshotOption, status, capture, screenshotDir, test.title, utc),
                                 logs, old(currentTestSpecLogs));
        testResults == Admit(old(testResults), r)
      ensures testResultUids == old(testResultUids) + {UidOf(test, timestamp)}
    {
      var uid := UidOf(test, timestamp);
      var suiteName := SuiteNameOf(test);
      var errors := StoredErrors(test.errors);
      var screenshotPath := CaptureScreenshot(status, capture, test.title, utc);
      var browserConsoleLogs := BrowserEntries(logs);
      var specConsoleLogs := currentTestSpecLogs;
      currentTestSpecLogs := [];
      var r := TestResult(uid, timestamp, suiteName, test.title, status, errors, screenshotPath,
                          browserConsoleLogs, specConsoleLogs);
      AdmitKeepsUidsUnique(testResults, r);
      if uid !in testResultUids {
        testResults := testResults + [r];
        testResultUids := testResultUids + {uid};
      }
    }

    /** The screenshot step of `addTestResult`: the stored path, hashing the title when a capture is attempted. */
    method CaptureScreenshot(status: Status, capture: CaptureOutcome, title: string, utc: string)
      returns (path: string)
      ensures path == ScreenshotPath(screenshotOption, status, capture, screenshotDir, title, utc)
    {
      path := "";
      if ShouldCapture(screenshotOption, status) {
        if capture != CaptureFailed {
          var hash := ShortHash.GenerateShortHash(title);
          var safeTimestamp := FileName.FormatDateForFilename(utc);
          path := screenshotDir + "/" + ("screenshot-" + hash + "-" + safeTimestamp + ".png");
        }
      }
    }

    /**
     * `writeJSONReport`: the run report and the name of the file it goes to. The end time, the UTC
     * rendering of the write time and the browser's reported name are inputs.
     */
    method WriteJsonReport(endTime: Time, utc: string, capabilitiesBrowserName: Option<string>)
      returns (fileName: string, report: RunReport)
      ensures fileName == FileName.ReportFileName(utc) && FileName.IsReportFileName(fileName)
      ensures report.testResults == testResults
      ensures report.metadata.executionId == executionId
      ensures report.metadata.executionStartTime == Some(executionStartTime)
      ensures report.metadata.executionEndTime == Some(endTime)
      ensures report.metadata.browserName ==
        if capabilitiesBrowserName.Some? && capabilitiesBrowserName.value != "" then capabilitiesBrowserName else Some("Unknown")
    {
      var browserName := if capabilitiesBrowserName.Some? && capabilitiesBrowserName.value != ""
                         then capabilitiesBrowserName.value else "Unknown";
      var metadata := Metadata(executionId, Some(browserName), Some(executionStartTime), Some(endTime));
      report := RunReport(metadata, testResults);
      fileName := "test-report-" + FileName.FormatDateForFilename(utc) + ".json";
      FileName.ReportFileNameIsCollected(utc);
    }
  }
}
