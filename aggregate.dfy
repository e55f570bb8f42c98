/**
 * The aggregation half of `generateAggregateHistory`: every `test-report-*.json` file of every
 * listed directory is folded into one running summary (earliest start, latest end, summed counts,
 * and one bucket per suite with its failures' error messages).
 */
module Aggregate {
  import opened Wrappers
  import opened Dict
  import opened Text
  import opened Report
  import FileName

  const DefaultSuite: string := "Default Suite"

  /** One suite's running counts and its error messages, keyed by test name and message. */
  datatype Bucket = Bucket(totalTests: nat, passed: nat, failed: nat, errors: Dict<string>)

  /** The running `aggregated` object. */
  datatype Aggregated = Aggregated(
    executionStartTime: Option<Time>,
    executionEndTime: Option<Time>,
    totalTests: nat,
    passed: nat,
    failed: nat,
    suites: Dict<Bucket>)

  const Initial: Aggregated := Aggregated(None, None, 0, 0, 0, Empty())

  const EmptyBucket: Bucket := Bucket(0, 0, 0, Empty())

  /** `result.suiteName || 'Default Suite'` */
  function SuiteKey(r: TestResult): string {
    if r.suiteName == "" then DefaultSuite else r.suiteName
  }

  /** `${testName}-${message}`: the key names the test and ends with the message it stands for. */
  function ErrorKey(testName: string, message: string): (key: string)
    ensures StartsWith(key, testName) && EndsWith(key, "-" + message)
  {
    var key := testName + "-" + message;
    assert key[..|testName|] == testName;
    assert key[|key| - |"-" + message|..] == "-" + message;
    key
  }

  /** `errors[errorKey] = errorMsg` for each error of a failed test, in order. */
  function AddErrors(errors: Dict<string>, testName: string, es: seq<ErrorEntry>): Dict<string>
    decreases es
  {
    if es == [] then errors
    else AddErrors(Put(errors, ErrorKey(testName, es[0].message), es[0].message), testName, es[1..])
  }

  /** One result counted into its suite's bucket; only a failure contributes its errors. */
  function Count(b: Bucket, r: TestResult): Bucket {
    match r.status
    case Passed => b.(totalTests := b.totalTests + 1, passed := b.passed + 1)
    case Failed => b.(totalTests := b.totalTests + 1, failed := b.failed + 1,
                      errors := AddErrors(b.errors, r.testName, r.errors))
    case OtherStatus(_) => b.(totalTests := b.totalTests + 1)
  }

  /** The bucket of suite `k`, or a fresh one when the suite has not been seen. */
  function BucketOf(suites: Dict<Bucket>, k: string): Bucket {
    if k in suites.vals then suites.vals[k] else EmptyBucket
  }

  function AddResult(suites: Dict<Bucket>, r: TestResult): Dict<Bucket> {
    Put(suites, SuiteKey(r), Count(BucketOf(suites, SuiteKey(r)), r))
  }

  /** `testResults.forEach(...)` over the suite buckets. */
  function AddResults(suites: Dict<Bucket>, rs: seq<TestResult>): Dict<Bucket>
    decreases rs
  {
    if rs == [] then suites else AddResults(AddResult(suites, rs[0]), rs[1..])
  }

  /**
   * One file of a report directory. A file that cannot be read or parsed, or whose document has no
   * `metadata`, throws at the first access and changes nothing. With `metadata` but no `testResults`
   * the times are taken and then `.length` throws, so the counts stay as they were.
   */
  function AddFile(agg: Aggregated, f: ReportFile): (r: Aggregated)
    ensures !(f.content.Parsed? && f.content.doc.ReportObject? && f.content.doc.metadata.Some?) ==> r == agg
    ensures f.content.Parsed? && f.content.doc.ReportObject? && f.content.doc.testResults.None? ==>
      r.totalTests == agg.totalTests && r.passed == agg.passed && r.failed == agg.failed && r.suites == agg.suites
  {
    if f.content.Parsed? && f.content.doc.ReportObject? && f.content.doc.metadata.Some? then
      var doc := f.content.doc;
      var m := doc.metadata.value;
      var timed := agg.(executionStartTime := Earlier(agg.executionStartTime, m.executionStartTime),
                        executionEndTime := Later(agg.executionEndTime, m.executionEndTime));
      if doc.testResults.None? then timed
      else
        var rs := doc.testResults.value;
        timed.(totalTests := timed.totalTests + |rs|,
               passed := timed.passed + CountStatus(rs, Passed),
               failed := timed.failed + CountStatus(rs, Failed),
               suites := AddResults(timed.suites, rs))
    else agg
  }

  /** The directory listing filtered to `test-report-*.json`, in listing order. */
  function ReportFiles(files: seq<ReportFile>): (r: seq<ReportFile>)
    ensures forall f :: f in r ==> f in files && FileName.IsReportFileName(f.name)
    ensures forall f :: f in files && FileName.IsReportFileName(f.name) ==> f in r
  {
    if files == [] then []
    else (if FileName.IsReportFileName(files[0].name) then [files[0]] else []) + ReportFiles(files[1..])
  }

  function AddFiles(agg: Aggregated, fs: seq<ReportFile>): Aggregated
    decreases fs
  {
    if fs == [] then agg else AddFiles(AddFile(agg, fs[0]), fs[1..])
  }

  /** A missing directory is skipped; otherwise its report files are folded in. */
  function AddDir(agg: Aggregated, d: ReportDir): Aggregated {
    if d.present then AddFiles(agg, ReportFiles(d.files)) else agg
  }

  function AddDirs(agg: Aggregated, ds: seq<ReportDir>): Aggregated
    decreases ds
  {
    if ds == [] then agg else AddDirs(AddDir(agg, ds[0]), ds[1..])
  }

  // The reference view: which metadata and which results the aggregation takes in.

  /** The metadata whose times a file contributes. */
  function TimedOf(f: ReportFile): seq<Metadata> {
    if f.content.Parsed? && f.content.doc.ReportObject? && f.content.doc.metadata.Some?
    then [f.content.doc.metadata.value] else []
  }

  /** The results whose counts a file contributes. */
  function CountedOf(f: ReportFile): seq<TestResult> {
    if f.content.Parsed? && f.content.doc.ReportObject? && f.content.doc.metadata.Some?
       && f.content.doc.testResults.Some?
    then f.content.doc.testResults.value else []
  }

  function TimedFiles(fs: seq<ReportFile>): seq<Metadata> {
    if fs == [] then [] else TimedOf(fs[0]) + TimedFiles(fs[1..])
  }

  function CountedFiles(fs: seq<ReportFile>): seq<TestResult> {
    if fs == [] then [] else CountedOf(fs[0]) + CountedFiles(fs[1..])
  }

  function TimedDir(d: ReportDir): seq<Metadata> {
    if d.present then TimedFiles(ReportFiles(d.files)) else []
  }

  function CountedDir(d: ReportDir): seq<TestResult> {
    if d.present then CountedFiles(ReportFiles(d.files)) else []
  }

  /** All metadata taken in, over all directories in order. */
  function TimedDirs(ds: seq<ReportDir>): seq<Metadata> {
    if ds == [] then [] else TimedDir(ds[0]) + TimedDirs(ds[1..])
  }

  /** All results counted, over all directories in order. */
  function CountedDirs(ds: seq<ReportDir>): seq<TestResult> {
    if ds == [] then [] else CountedDir(ds[0]) + CountedDirs(ds[1..])
  }

  /** The summary of `agg` extended by the times of `ms` and the results `rs`, each part computed on its own. */
  function Combine(agg: Aggregated, ms: seq<Metadata>, rs: seq<TestResult>): Aggregated {
    Aggregated(EarliestFrom(agg.executionStartTime, StartsOf(ms)),
               LatestFrom(agg.executionEndTime, EndsOf(ms)),
               agg.totalTests + |rs|,
               agg.passed + CountStatus(rs, Passed),
               agg.failed + CountStatus(rs, Failed),
               AddResults(agg.suites, rs))
  }

  lemma {:induction false} AddResultsAppend(suites: Dict<Bucket>, a: seq<TestResult>, b: seq<TestResult>)
    ensures AddResults(suites, a + b) == AddResults(AddResults(suites, a), b)
    decreases a
  {
    if a == [] {
      assert a + b == b;
    } else {
      assert (a + b)[0] == a[0] && (a + b)[1..] == a[1..] + b;
      AddResultsAppend(AddResult(suites, a[0]), a[1..], b);
    }
  }

  lemma CombineTwice(agg: Aggregated, m1: seq<Metadata>, r1: seq<TestResult>, m2: seq<Metadata>, r2: seq<TestResult>)
    ensures Combine(Combine(agg, m1, r1), m2, r2) == Combine(agg, m1 + m2, r1 + r2)
  {
    StartsTwice(agg.executionStartTime, m1, m2);
    EndsTwice(agg.executionEndTime, m1, m2);
    CountStatusAppend(r1, r2, Passed);
    CountStatusAppend(r1, r2, Failed);
    AddResultsAppend(agg.suites, r1, r2);
  }

  lemma StartsTwice(start: Option<Time>, m1: seq<Metadata>, m2: seq<Metadata>)
    ensures EarliestFrom(EarliestFrom(start, StartsOf(m1)), StartsOf(m2)) == EarliestFrom(start, StartsOf(m1 + m2))
  {
    StartsOfAppend(m1, m2);
    EarliestFromAppend(start, StartsOf(m1), StartsOf(m2));
  }

  lemma EndsTwice(end: Option<Time>, m1: seq<Metadata>, m2: seq<Metadata>)
    ensures LatestFrom(LatestFrom(end, EndsOf(m1)), EndsOf(m2)) == LatestFrom(end, EndsOf(m1 + m2))
  {
    EndsOfAppend(m1, m2);
    LatestFromAppend(end, EndsOf(m1), EndsOf(m2));
  }

  lemma AddFileIsCombine(agg: Aggregated, f: ReportFile)
    ensures AddFile(agg, f) == Combine(agg, TimedOf(f), CountedOf(f))
  {
    if f.content.Parsed? && f.content.doc.ReportObject? && f.content.doc.metadata.Some? {
      var m := f.content.doc.metadata.value;
      assert StartsOf([m]) == [m.executionStartTime] && EndsOf([m]) == [m.executionEndTime];
      assert [m.executionStartTime][1..] == [] && [m.executionEndTime][1..] == [];
      assert EarliestFrom(agg.executionStartTime, [m.executionStartTime])
        == Earlier(agg.executionStartTime, m.executionStartTime);
      assert LatestFrom(agg.executionEndTime, [m.executionEndTime])
        == Later(agg.executionEndTime, m.executionEndTime);
    } else {
      assert Combine(agg, [], []) == agg;
    }
  }

  lemma {:induction false} AddFilesIsCombine(agg: Aggregated, fs: seq<ReportFile>)
    ensures AddFiles(agg, fs) == Combine(agg, TimedFiles(fs), CountedFiles(fs))
    decreases fs
  {
    if fs == [] {
      assert Combine(agg, [], []) == agg;
    } else {
      AddFileIsCombine(agg, fs[0]);
      AddFilesIsCombine(AddFile(agg, fs[0]), fs[1..]);
      CombineTwice(agg, TimedOf(fs[0]), CountedOf(fs[0]), TimedFiles(fs[1..]), CountedFiles(fs[1..]));
    }
  }

  lemma {:induction false} AddDirsIsCombine(agg: Aggregated, ds: seq<ReportDir>)
    ensures AddDirs(agg, ds) == Combine(agg, TimedDirs(ds), CountedDirs(ds))
    decreases ds
  {
    if ds == [] {
      assert Combine(agg, [], []) == agg;
    } else {
      if ds[0].present {
        AddFilesIsCombine(agg, ReportFiles(ds[0].files));
      } else {
        assert Combine(agg, [], []) == agg;
      }
      AddDirsIsCombine(AddDir(agg, ds[0]), ds[1..]);
      CombineTwice(agg, TimedDir(ds[0]), CountedDir(ds[0]), TimedDirs(ds[1..]), CountedDirs(ds[1..]));
    }
  }

  /** The aggregate counts are the counts of all results of the files with results, with no deduplication. */
  lemma AggregateCounts(dirs: seq<ReportDir>)
    ensures var agg := AddDirs(Initial, dirs);
      var rs := CountedDirs(dirs);
      && agg.totalTests == |rs|
      && agg.passed == CountStatus(rs, Passed)
      && agg.failed == CountStatus(rs, Failed)
      && agg.passed + agg.failed <= agg.totalTests
      && agg.suites == AddResults(Empty(), rs)
  {
    AddDirsIsCombine(Initial, dirs);
    CombineFromZero(Initial, TimedDirs(dirs), CountedDirs(dirs));
  }

  /** Extending a summary with no counts and no suites yields exactly the counts and buckets of `rs`. */
  lemma CombineFromZero(agg: Aggregated, ms: seq<Metadata>, rs: seq<TestResult>)
    requires agg.totalTests == 0 && agg.passed == 0 && agg.failed == 0 && agg.suites == Empty()
    ensures var c := Combine(agg, ms, rs);
      && c.totalTests == |rs|
      && c.passed == CountStatus(rs, Passed)
      && c.failed == CountStatus(rs, Failed)
      && c.passed + c.failed <= c.totalTests
      && c.suites == AddResults(Empty(), rs)
  {
    PassedAndFailedAtMostAll(rs);
  }

  /**
   * The aggregate start is the earliest present start of the files with metadata, absent only when no
   * file has one.
   */
  lemma AggregateStart(dirs: seq<ReportDir>)
    ensures var agg := AddDirs(Initial, dirs);
      var ms := TimedDirs(dirs);
      && (agg.executionStartTime.None? <==> forall i :: 0 <= i < |ms| ==> ms[i].executionStartTime.None?)
      && (forall i :: 0 <= i < |ms| && ms[i].executionStartTime.Some? ==>
            agg.executionStartTime.Some? && agg.executionStartTime.value <= ms[i].executionStartTime.value)
      && (agg.executionStartTime.Some? ==> agg.executionStartTime in StartsOf(ms))
  {
    AddDirsIsCombine(Initial, dirs);
    TimesFromNone(Initial, TimedDirs(dirs), CountedDirs(dirs));
    EarliestStart(TimedDirs(dirs));
  }

  /** The aggregate end is the latest present end of the files with metadata, absent only when no file has one. */
  lemma AggregateEnd(dirs: seq<ReportDir>)
    ensures var agg := AddDirs(Initial, dirs);
      var ms := TimedDirs(dirs);
      && (agg.executionEndTime.None? <==> forall i :: 0 <= i < |ms| ==> ms[i].executionEndTime.None?)
      && (forall i :: 0 <= i < |ms| && ms[i].executionEndTime.Some? ==>
            agg.executionEndTime.Some? && agg.executionEndTime.value >= ms[i].executionEndTime.value)
      && (agg.executionEndTime.Some? ==> agg.executionEndTime in EndsOf(ms))
  {
    AddDirsIsCombine(Initial, dirs);
    TimesFromNone(Initial, TimedDirs(dirs), CountedDirs(dirs));
    LatestEnd(TimedDirs(dirs));
  }

  /** Extending a summary with no times yields the earliest start and the latest end of `ms` alone. */
  lemma TimesFromNone(agg: Aggregated, ms: seq<Metadata>, rs: seq<TestResult>)
    requires agg.executionStartTime.None? && agg.executionEndTime.None?
    ensures Combine(agg, ms, rs).executionStartTime == EarliestFrom(None, StartsOf(ms))
    ensures Combine(agg, ms, rs).executionEndTime == LatestFrom(None, EndsOf(ms))
  {
  }

  /** A report the recorder wrote, alone in a directory, is aggregated with all its results and its times. */
  lemma WrittenReportIsAggregated(report: RunReport, utc: string)
    ensures var dirs := [ReportDir(true, [ReportFile(FileName.ReportFileName(utc), Parsed(ToJson(report)))])];
      CountedDirs(dirs) == report.testResults && TimedDirs(dirs) == [report.metadata]
  {
    var f := ReportFile(FileName.ReportFileName(utc), Parsed(ToJson(report)));
    FileName.ReportFileNameIsCollected(utc);
    assert ReportFiles([f]) == [f];
    assert CountedFiles([f]) == report.testResults + [];
    assert TimedFiles([f]) == [report.metadata] + [];
  }

  // Per-suite buckets.

  /** The results that go to suite `k`. */
  function OfSuite(rs: seq<TestResult>, k: string): (mine: seq<TestResult>)
    ensures forall r :: r in mine <==> r in rs && SuiteKey(r) == k
  {
    if rs == [] then [] else (if SuiteKey(rs[0]) == k then [rs[0]] else []) + OfSuite(rs[1..], k)
  }

  lemma CountStatusCons(r: TestResult, rest: seq<TestResult>, st: Status)
    ensures CountStatus([r] + rest, st) == (if r.status == st then 1 else 0) + CountStatus(rest, st)
  {
    assert ([r] + rest)[0] == r && ([r] + rest)[1..] == rest;
  }

  /**
   * Each suite's bucket counts exactly the results of that suite: all of them, the passed ones and
   * the failed ones; a suite has a bucket exactly when it had one before or some result names it.
   */
  lemma {:induction false} SuiteCounts(suites: Dict<Bucket>, rs: seq<TestResult>, k: string)
    ensures var b := BucketOf(AddResults(suites, rs), k);
      var mine := OfSuite(rs, k);
      && b.totalTests == BucketOf(suites, k).totalTests + |mine|
      && b.passed == BucketOf(suites, k).passed + CountStatus(mine, Passed)
      && b.failed == BucketOf(suites, k).failed + CountStatus(mine, Failed)
      && (k in AddResults(suites, rs).vals <==> k in suites.vals || mine != [])
    decreases rs
  {
    if rs != [] {
      var s1 := AddResult(suites, rs[0]);
      SuiteCounts(s1, rs[1..], k);
      var head := if SuiteKey(rs[0]) == k then [rs[0]] else [];
      if SuiteKey(rs[0]) == k {
        CountStatusCons(rs[0], OfSuite(rs[1..], k), Passed);
        CountStatusCons(rs[0], OfSuite(rs[1..], k), Failed);
      } else {
        assert OfSuite(rs, k) == OfSuite(rs[1..], k);
      }
    }
  }

  function TotalOf(b: Bucket): int {
    b.totalTests
  }

  /** The suites' totals add up to the number of results counted. */
  lemma {:induction false} SuiteTotalsAddUp(suites: Dict<Bucket>, rs: seq<TestResult>)
    ensures Sum(AddResults(suites, rs), TotalOf) == Sum(suites, TotalOf) + |rs|
    decreases rs
  {
    if rs != [] {
      var k := SuiteKey(rs[0]);
      SumPut(suites, TotalOf, k, Count(BucketOf(suites, k), rs[0]));
      SuiteTotalsAddUp(AddResult(suites, rs[0]), rs[1..]);
    }
  }

  // Error buckets.

  /** The keys the errors `es` of test `testName` are stored under. */
  function ErrorKeys(testName: string, es: seq<ErrorEntry>): set<string> {
    if es == [] then {} else {ErrorKey(testName, es[0].message)} + ErrorKeys(testName, es[1..])
  }

  /** The error keys the failures of suite `k` among `rs` contribute. */
  function FailureKeys(rs: seq<TestResult>, k: string): set<string> {
    if rs == [] then {}
    else
      var own := if SuiteKey(rs[0]) == k && rs[0].status == Failed then ErrorKeys(rs[0].testName, rs[0].errors) else {};
      own + FailureKeys(rs[1..], k)
  }

  /** Every stored message is the tail of its key: the key is some test name, a dash, and that message. */
  ghost predicate ConsistentErrors(errors: Dict<string>) {
    forall key :: key in errors.vals ==> EndsWith(key, "-" + errors.vals[key])
  }

  ghost predicate AllConsistent(suites: Dict<Bucket>) {
    forall k :: k in suites.vals ==> ConsistentErrors(suites.vals[k].errors)
  }

  lemma {:induction false} AddErrorsKeys(errors: Dict<string>, testName: string, es: seq<ErrorEntry>)
    ensures AddErrors(errors, testName, es).vals.Keys == errors.vals.Keys + ErrorKeys(testName, es)
    decreases es
  {
    if es != [] {
      AddErrorsKeys(Put(errors, ErrorKey(testName, es[0].message), es[0].message), testName, es[1..]);
    }
  }

  lemma {:induction false} AddErrorsConsistent(errors: Dict<string>, testName: string, es: seq<ErrorEntry>)
    requires ConsistentErrors(errors)
    ensures ConsistentErrors(AddErrors(errors, testName, es))
    decreases es
  {
    if es != [] {
      var m := es[0].message;
      var next := Put(errors, ErrorKey(testName, m), m);
      assert ConsistentErrors(next) by {
        forall key | key in next.vals ensures EndsWith(key, "-" + next.vals[key]) {
          if key != ErrorKey(testName, m) {
            assert next.vals[key] == errors.vals[key];
          }
        }
      }
      AddErrorsConsistent(next, testName, es[1..]);
    }
  }

  lemma AddResultErrorKeys(suites: Dict<Bucket>, r: TestResult, k: string)
    ensures BucketOf(AddResult(suites, r), k).errors.vals.Keys ==
      BucketOf(suites, k).errors.vals.Keys
        + (if SuiteKey(r) == k && r.status == Failed then ErrorKeys(r.testName, r.errors) else {})
  {
    if SuiteKey(r) == k && r.status == Failed {
      AddErrorsKeys(BucketOf(suites, k).errors, r.testName, r.errors);
    }
  }

  /**
   * A suite's error keys are the keys it had plus one key per error of each failed result of that
   * suite.
   */
  lemma {:induction false} SuiteErrorKeys(suites: Dict<Bucket>, rs: seq<TestResult>, k: string)
    ensures BucketOf(AddResults(suites, rs), k).errors.vals.Keys ==
      BucketOf(suites, k).errors.vals.Keys + FailureKeys(rs, k)
    decreases rs
  {
    if rs != [] {
      AddResultErrorKeys(suites, rs[0], k);
      SuiteErrorKeys(AddResult(suites, rs[0]), rs[1..], k);
    }
  }

  /** Every message stored in any suite is the message its key ends with. */
  lemma {:induction false} SuiteErrorsConsistent(suites: Dict<Bucket>, rs: seq<TestResult>)
    requires AllConsistent(suites)
    ensures AllConsistent(AddResults(suites, rs))
    decreases rs
  {
    if rs != [] {
      var r := rs[0];
      var b := BucketOf(suites, SuiteKey(r));
      assert ConsistentErrors(b.errors);
      if r.status == Failed {
        AddErrorsConsistent(b.errors, r.testName, r.errors);
      }
      var s1 := AddResult(suites, r);
      assert AllConsistent(s1) by {
        forall k | k in s1.vals ensures ConsistentErrors(s1.vals[k].errors) {
          if k != SuiteKey(r) {
            assert s1.vals[k] == suites.vals[k];
          }
        }
      }
      SuiteErrorsConsistent(s1, rs[1..]);
    }
  }

  // The loops of the source, proved against the functions above.

  /** `result.errors.forEach(...)` */
  method RecordErrors(errors: Dict<string>, testName: string, es: seq<ErrorEntry>) returns (r: Dict<string>)
    ensures r == AddErrors(errors, testName, es)
  {
    r := errors;
    var i := 0;
    while i < |es|
      invariant i <= |es|
      invariant AddErrors(r, testName, es[i..]) == AddErrors(errors, testName, es)
    {
      assert es[i..][0] == es[i] && es[i..][1..] == es[i + 1..];
      r := Put(r, ErrorKey(testName, es[i].message), es[i].message);
      i := i + 1;
    }
  }

  /** `jsonData.testResults.forEach(...)` */
  method AggregateSuites(suites: Dict<Bucket>, rs: seq<TestResult>) returns (r: Dict<Bucket>)
    ensures r == AddResults(suites, rs)
  {
    r := suites;
    var i := 0;
    while i < |rs|
      invariant i <= |rs|
      invariant AddResults(r, rs[i..]) == AddResults(suites, rs)
    {
      assert rs[i..][0] == rs[i] && rs[i..][1..] == rs[i + 1..];
      r := AggregateResult(r, rs[i]);
      i := i + 1;
    }
  }

  /** The body of that `forEach`: the result's suite bucket counts it, and keeps its errors if it failed. */
  method AggregateResult(suites: Dict<Bucket>, result: TestResult) returns (r: Dict<Bucket>)
    ensures r == AddResult(suites, result)
  {
    var name := SuiteKey(result);
    var b := BucketOf(suites, name);
    b := b.(totalTests := b.totalTests + 1);
    if result.status == Passed {
      b := b.(passed := b.passed + 1);
    } else if result.status == Failed {
      var errors := RecordErrors(b.errors, result.testName, result.errors);
      b := b.(failed := b.failed + 1, errors := errors);
    }
    assert b == Count(BucketOf(suites, name), result);
    r := Put(suites, name, b);
  }

  /** The body of `files.forEach(...)` for one file. */
  method AggregateFile(agg: Aggregated, f: ReportFile) returns (r: Aggregated)
    ensures r == AddFile(agg, f)
  {
    r := agg;
    if f.content.Parsed? && f.content.doc.ReportObject? && f.content.doc.metadata.Some? {
      var doc := f.content.doc;
      var m := doc.metadata.value;
      r := r.(executionStartTime := Earlier(r.executionStartTime, m.executionStartTime));
      r := r.(executionEndTime := Later(r.executionEndTime, m.executionEndTime));
      if doc.testResults.Some? {
        var rs := doc.testResults.value;
        r := r.(totalTests := r.totalTests + |rs|);
        r := r.(passed := r.passed + CountStatus(rs, Passed), failed := r.failed + CountStatus(rs, Failed));
        var suites := AggregateSuites(r.suites, rs);
        r := r.(suites := suites);
      }
    }
  }

  /** `reportPaths.forEach(...)` with the nested `files.forEach(...)`. */
  method AggregateReports(dirs: seq<ReportDir>) returns (agg: Aggregated)
    ensures agg == AddDirs(Initial, dirs)
  {
    agg := Initial;
    var i := 0;
    while i < |dirs|
      invariant i <= |dirs|
      invariant AddDirs(agg, dirs[i..]) == AddDirs(Initial, dirs)
    {
      assert dirs[i..][1..] == dirs[i + 1..];
      if dirs[i].present {
        var files := ReportFiles(dirs[i].files);
        var before := agg;
        var j := 0;
        while j < |files|
          invariant j <= |files|
          invariant AddFiles(agg, files[j..]) == AddFiles(before, files)
        {
          assert files[j..][1..] == files[j + 1..];
          agg := AggregateFile(agg, files[j]);
          j := j + 1;
        }
      }
      i := i + 1;
    }
  }
}
