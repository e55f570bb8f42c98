/**
 * The documents the reporter reads and writes: test results and run reports (`test-report-*.json`),
 * what `JSON.parse` yields for a file as far as the readers look at it, directory listings, and the
 * aggregated history log. Shared counting and earliest/latest reductions live here too.
 */
module Report {
  import opened Wrappers
  import opened Dict

  /** A point in time; the source keeps dates as strings and compares them through `new Date(...)`. */
  type Time = int

  /**
   * The `status` string of a result. `Passed` and `Failed` stand for "passed" and "failed"; the `name` of an
   * `OtherStatus` is any other string (such as "skipped" or "pending"), never one of those two.
   */
  datatype Status = Passed | Failed | OtherStatus(name: string)

  datatype ErrorEntry = ErrorEntry(message: string, stack: string)

  /** One entry of a report's `testResults`; an absent `suiteName` or `errors` reads as `""` or `[]`. */
  datatype TestResult = TestResult(
    uid: string,
    timestamp: string,
    suiteName: string,
    testName: string,
    status: Status,
    errors: seq<ErrorEntry>,
    screenshot: string,
    browserConsoleLogs: seq<string>,
    specConsoleLogs: seq<string>)

  datatype Metadata = Metadata(
    executionId: string,
    browserName: Option<string>,
    executionStartTime: Option<Time>,
    executionEndTime: Option<Time>)

  /** The document a recorder writes at the end of its run. */
  datatype RunReport = RunReport(metadata: Metadata, testResults: seq<TestResult>)

  /** The parsed content of a `.json` file: `null`, an object, an array of results, or any other value. */
  datatype JsonDoc =
    | JsonNull
    | ReportObject(metadata: Option<Metadata>, testResults: Option<seq<TestResult>>)
    | ResultArray(items: seq<TestResult>)
    | OtherValue

  /** Reading or parsing a file either fails or yields a document. */
  datatype Content = Unreadable | Parsed(doc: JsonDoc)

  datatype ReportFile = ReportFile(name: string, content: Content)

  /** A directory as `existsSync` and `readdirSync` see it, with its entries in listing order. */
  datatype ReportDir = ReportDir(present: bool, files: seq<ReportFile>)

  /** `JSON.parse(JSON.stringify(report))` */
  function ToJson(report: RunReport): JsonDoc {
    ReportObject(Some(report.metadata), Some(report.testResults))
  }

  datatype DefectComparison = DefectComparison(newDefects: seq<string>, resolvedDefects: seq<string>)

  /** One suite of a history record; read back from the file, any of its parts may be missing. */
  datatype SuiteEntry = SuiteEntry(
    totalTests: Option<int>,
    passed: Option<int>,
    failed: Option<int>,
    errors: Option<Dict<string>>,
    defectComparison: Option<DefectComparison>)

  /** One aggregated history record. */
  datatype Record = Record(
    timestamp: Time,
    executionStartTime: Option<Time>,
    executionEndTime: Option<Time>,
    totalTests: int,
    passed: int,
    failed: int,
    suites: Option<Dict<SuiteEntry>>)

  /** The history file: absent, unreadable or unparseable, parsed to something other than an array, or an array. */
  datatype HistoryFile = NoHistoryFile | UnreadableHistory | NotAnArray | Records(items: seq<Record>)

  /** A missing, unreadable or non-array history file is the empty log. */
  function LoadHistory(h: HistoryFile): (log: seq<Record>) {
    if h.Records? then h.items else []
  }

  /** `historyData[historyData.length - 1]`, or none for an empty log. */
  function LastRecord(log: seq<Record>): (r: Option<Record>) {
    if log == [] then None else Some(log[|log| - 1])
  }

  /** `results.filter(r => r.status === st).length` */
  function CountStatus(results: seq<TestResult>, st: Status): (n: nat)
    ensures n <= |results|
  {
    if results == [] then 0 else (if results[0].status == st then 1 else 0) + CountStatus(results[1..], st)
  }

  lemma {:induction false} CountStatusAppend(a: seq<TestResult>, b: seq<TestResult>, st: Status)
    ensures CountStatus(a + b, st) == CountStatus(a, st) + CountStatus(b, st)
  {
    if a == [] {
      assert a + b == b;
    } else {
      assert (a + b)[0] == a[0] && (a + b)[1..] == a[1..] + b;
      CountStatusAppend(a[1..], b, st);
    }
  }

  /** Passed and failed results are disjoint, so together they are at most all results. */
  lemma {:induction false} PassedAndFailedAtMostAll(results: seq<TestResult>)
    ensures CountStatus(results, Passed) + CountStatus(results, Failed) <= |results|
  {
    if results != [] {
      PassedAndFailedAtMostAll(results[1..]);
    }
  }

  /** One step of the earliest-start reduction: an absent current value is replaced, a later time ignored. */
  function Earlier(current: Option<Time>, t: Option<Time>): Option<Time> {
    if current.None? then t else if t.Some? && t.value < current.value then t else current
  }

  /** One step of the latest-end reduction. */
  function Later(current: Option<Time>, t: Option<Time>): Option<Time> {
    if current.None? then t else if t.Some? && t.value > current.value then t else current
  }

  function EarliestFrom(current: Option<Time>, ts: seq<Option<Time>>): Option<Time>
    decreases ts
  {
    if ts == [] then current else EarliestFrom(Earlier(current, ts[0]), ts[1..])
  }

  function LatestFrom(current: Option<Time>, ts: seq<Option<Time>>): Option<Time>
    decreases ts
  {
    if ts == [] then current else LatestFrom(Later(current, ts[0]), ts[1..])
  }

  lemma {:induction false} EarliestFromAppend(current: Option<Time>, a: seq<Option<Time>>, b: seq<Option<Time>>)
    ensures EarliestFrom(current, a + b) == EarliestFrom(EarliestFrom(current, a), b)
    decreases a
  {
    if a == [] {
      assert a + b == b;
    } else {
      assert (a + b)[0] == a[0] && (a + b)[1..] == a[1..] + b;
      EarliestFromAppend(Earlier(current, a[0]), a[1..], b);
    }
  }

  lemma {:induction false} LatestFromAppend(current: Option<Time>, a: seq<Option<Time>>, b: seq<Option<Time>>)
    ensures LatestFrom(current, a + b) == LatestFrom(LatestFrom(current, a), b)
    decreases a
  {
    if a == [] {
      assert a + b == b;
    } else {
      assert (a + b)[0] == a[0] && (a + b)[1..] == a[1..] + b;
      LatestFromAppend(Later(current, a[0]), a[1..], b);
    }
  }

  /**
   * The reduction yields the minimum of the present times: absent only when every time is absent,
   * otherwise one of them and no later than any.
   */
  lemma {:induction false} EarliestIsMinimum(ts: seq<Option<Time>>)
    ensures var r := EarliestFrom(None, ts);
      && (r.None? <==> forall i :: 0 <= i < |ts| ==> ts[i].None?)
      && (r.Some? ==> r in ts)
      && (forall i :: 0 <= i < |ts| && ts[i].Some? ==> r.Some? && r.value <= ts[i].value)
  {
    EarliestFromBounds(None, ts);
  }

  lemma {:induction false} EarliestFromBounds(current: Option<Time>, ts: seq<Option<Time>>)
    ensures var r := EarliestFrom(current, ts);
      && (r.None? <==> current.None? && forall i :: 0 <= i < |ts| ==> ts[i].None?)
      && (r.Some? ==> r == current || r in ts)
      && (current.Some? ==> r.Some? && r.value <= current.value)
      && (forall i :: 0 <= i < |ts| && ts[i].Some? ==> r.Some? && r.value <= ts[i].value)
    decreases ts
  {
    if ts != [] {
      EarliestFromBounds(Earlier(current, ts[0]), ts[1..]);
      assert forall i :: 1 <= i < |ts| ==> ts[i] == ts[1..][i - 1];
    }
  }

  /** The latest-end reduction yields the maximum of the present times. */
  lemma {:induction false} LatestIsMaximum(ts: seq<Option<Time>>)
    ensures var r := LatestFrom(None, ts);
      && (r.None? <==> forall i :: 0 <= i < |ts| ==> ts[i].None?)
      && (r.Some? ==> r in ts)
      && (forall i :: 0 <= i < |ts| && ts[i].Some? ==> r.Some? && r.value >= ts[i].value)
  {
    LatestFromBounds(None, ts);
  }

  lemma {:induction false} LatestFromBounds(current: Option<Time>, ts: seq<Option<Time>>)
    ensures var r := LatestFrom(current, ts);
      && (r.None? <==> current.None? && forall i :: 0 <= i < |ts| ==> ts[i].None?)
      && (r.Some? ==> r == current || r in ts)
      && (current.Some? ==> r.Some? && r.value >= current.value)
      && (forall i :: 0 <= i < |ts| && ts[i].Some? ==> r.Some? && r.value >= ts[i].value)
    decreases ts
  {
    if ts != [] {
      LatestFromBounds(Later(current, ts[0]), ts[1..]);
      assert forall i :: 1 <= i < |ts| ==> ts[i] == ts[1..][i - 1];
    }
  }

  function StartsOf(ms: seq<Metadata>): (ts: seq<Option<Time>>)
    ensures |ts| == |ms| && forall i :: 0 <= i < |ms| ==> ts[i] == ms[i].executionStartTime
  {
    if ms == [] then [] else [ms[0].executionStartTime] + StartsOf(ms[1..])
  }

  function EndsOf(ms: seq<Metadata>): (ts: seq<Option<Time>>)
    ensures |ts| == |ms| && forall i :: 0 <= i < |ms| ==> ts[i] == ms[i].executionEndTime
  {
    if ms == [] then [] else [ms[0].executionEndTime] + EndsOf(ms[1..])
  }

  /** The earliest start of a list of metadata: absent only when every start is, else one of them and no later than any. */
  lemma EarliestStart(ms: seq<Metadata>)
    ensures var r := EarliestFrom(None, StartsOf(ms));
      && (r.None? <==> forall i :: 0 <= i < |ms| ==> ms[i].executionStartTime.None?)
      && (forall i :: 0 <= i < |ms| && ms[i].executionStartTime.Some? ==>
            r.Some? && r.value <= ms[i].executionStartTime.value)
      && (r.Some? ==> r in StartsOf(ms))
  {
    EarliestIsMinimum(StartsOf(ms));
  }

  /** The latest end of a list of metadata. */
  lemma LatestEnd(ms: seq<Metadata>)
    ensures var r := LatestFrom(None, EndsOf(ms));
      && (r.None? <==> forall i :: 0 <= i < |ms| ==> ms[i].executionEndTime.None?)
      && (forall i :: 0 <= i < |ms| && ms[i].executionEndTime.Some? ==>
            r.Some? && r.value >= ms[i].executionEndTime.value)
      && (r.Some? ==> r in EndsOf(ms))
  {
    LatestIsMaximum(EndsOf(ms));
  }

  lemma StartsOfAppend(m1: seq<Metadata>, m2: seq<Metadata>)
    ensures StartsOf(m1 + m2) == StartsOf(m1) + StartsOf(m2)
  {
    var l, r := StartsOf(m1 + m2), StartsOf(m1) + StartsOf(m2);
    assert |l| == |r|;
    forall i | 0 <= i < |l|
      ensures l[i] == r[i]
    {
      if i < |m1| {
        assert (m1 + m2)[i] == m1[i];
      } else {
        assert (m1 + m2)[i] == m2[i - |m1|];
      }
    }
  }

  lemma EndsOfAppend(m1: seq<Metadata>, m2: seq<Metadata>)
    ensures EndsOf(m1 + m2) == EndsOf(m1) + EndsOf(m2)
  {
    var l, r := EndsOf(m1 + m2), EndsOf(m1) + EndsOf(m2);
    assert |l| == |r|;
    forall i | 0 <= i < |l|
      ensures l[i] == r[i]
    {
      if i < |m1| {
        assert (m1 + m2)[i] == m1[i];
      } else {
        assert (m1 + m2)[i] == m2[i - |m1|];
      }
    }
  }
}
