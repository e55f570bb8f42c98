/**
 * The figures `generateHTMLReport` derives from the merged results and the history log before it
 * renders the page: summary counts, per-suite statistics, unique error counts, and the history
 * records regrouped by suite.
 */
module HtmlStats {
  import opened Wrappers
  import opened Dict
  import opened Report

  // Summary counts.

  datatype Summary = Summary(total: nat, passed: nat, failed: nat)

  /** `calculateSummaryStats`: all results, the passed ones and the failed ones. */
  function SummaryStats(results: seq<TestResult>): (s: Summary)
    ensures s.total == |results| && s.passed == CountStatus(results, Passed) && s.failed == CountStatus(results, Failed)
    ensures s.passed + s.failed <= s.total
  {
    PassedAndFailedAtMostAll(results);
    Summary(|results|, CountStatus(results, Passed), CountStatus(results, Failed))
  }

  /** Some result has status `st` exactly when the count of `st` is positive. */
  lemma {:induction false} CountStatusPositive(results: seq<TestResult>, st: Status)
    ensures CountStatus(results, st) > 0 <==> exists i :: 0 <= i < |results| && results[i].status == st
  {
    if results != [] {
      CountStatusPositive(results[1..], st);
      if exists i :: 0 <= i < |results[1..]| && results[1..][i].status == st {
        var i :| 0 <= i < |results[1..]| && results[1..][i].status == st;
        assert results[i + 1].status == st;
      }
      if exists i :: 0 <= i < |results| && results[i].status == st {
        var i :| 0 <= i < |results| && results[i].status == st;
        if i > 0 {
          assert results[1..][i - 1].status == st;
        }
      }
    }
  }

  // Per-suite statistics.

  datatype SuiteTally = SuiteTally(total: nat, passed: nat, failed: nat)

  const UnknownSuite: string := "Unknown"

  const NoTally: SuiteTally := SuiteTally(0, 0, 0)

  /** `test.suiteName || "Unknown"` */
  function SuiteLabel(r: TestResult): string {
    if r.suiteName == "" then UnknownSuite else r.suiteName
  }

  function TallyOf(stats: Dict<SuiteTally>, k: string): SuiteTally {
    if k in stats.vals then stats.vals[k] else NoTally
  }

  /** One more result of status `st` in a suite's figures. */
  function Counted(t: SuiteTally, st: Status): SuiteTally {
    var counted := t.(total := t.total + 1);
    if st == Passed then counted.(passed := counted.passed + 1)
    else if st == Failed then counted.(failed := counted.failed + 1)
    else counted
  }

  function Tally(stats: Dict<SuiteTally>, r: TestResult): Dict<SuiteTally> {
    Put(stats, SuiteLabel(r), Counted(TallyOf(stats, SuiteLabel(r)), r.status))
  }

  /** `this.testResults.forEach(...)` over `suiteStats`. */
  function TallyAll(stats: Dict<SuiteTally>, rs: seq<TestResult>): Dict<SuiteTally>
    decreases rs
  {
    if rs == [] then stats else TallyAll(Tally(stats, rs[0]), rs[1..])
  }

  /** The results shown under suite `k`. */
  function OfSuite(rs: seq<TestResult>, k: string): (mine: seq<TestResult>)
    ensures forall r :: r in mine <==> r in rs && SuiteLabel(r) == k
  {
    if rs == [] then [] else (if SuiteLabel(rs[0]) == k then [rs[0]] else []) + OfSuite(rs[1..], k)
  }

  lemma CountStatusCons(r: TestResult, rest: seq<TestResult>, st: Status)
    ensures CountStatus([r] + rest, st) == (if r.status == st then 1 else 0) + CountStatus(rest, st)
  {
    assert ([r] + rest)[0] == r && ([r] + rest)[1..] == rest;
  }

  /**
   * Each suite's figures count exactly its results: all, passed and failed; a suite is listed exactly
   * when some result carries its label.
   */
  lemma {:induction false} SuiteTallies(stats: Dict<SuiteTally>, rs: seq<TestResult>, k: string)
    ensures var t := TallyOf(TallyAll(stats, rs), k);
      var mine := OfSuite(rs, k);
      && t.total == TallyOf(stats, k).total + |mine|
      && t.passed == TallyOf(stats, k).passed + CountStatus(mine, Passed)
      && t.failed == TallyOf(stats, k).failed + CountStatus(mine, Failed)
      && (k in TallyAll(stats, rs).vals <==> k in stats.vals || mine != [])
    decreases rs
  {
    if rs != [] {
      SuiteTallies(Tally(stats, rs[0]), rs[1..], k);
      if SuiteLabel(rs[0]) == k {
        CountStatusCons(rs[0], OfSuite(rs[1..], k), Passed);
        CountStatusCons(rs[0], OfSuite(rs[1..], k), Failed);
      } else {
        assert OfSuite(rs, k) == OfSuite(rs[1..], k);
      }
    }
  }

  /** The suite statistics of a run. */
  function SuiteStatsOf(results: seq<TestResult>): Dict<SuiteTally> {
    TallyAll(Empty(), results)
  }

  /** A suite counts as failed exactly when one of its results failed. */
  lemma SuiteFailsIffAResultFailed(results: seq<TestResult>, k: string)
    requires k in SuiteStatsOf(results).vals
    ensures SuiteStatsOf(results).vals[k].failed > 0 <==>
      exists i :: 0 <= i < |OfSuite(results, k)| && OfSuite(results, k)[i].status == Failed
  {
    SuiteTallies(Empty(), results, k);
    CountStatusPositive(OfSuite(results, k), Failed);
  }

  /** `suiteStats`, built as the source builds it. */
  method SuiteStats(results: seq<TestResult>) returns (stats: Dict<SuiteTally>)
    ensures stats == SuiteStatsOf(results)
  {
    stats := Empty();
    var i := 0;
    while i < |results|
      invariant i <= |results|
      invariant TallyAll(stats, results[i..]) == SuiteStatsOf(results)
    {
      assert results[i..][0] == results[i] && results[i..][1..] == results[i + 1..];
      stats := CountResult(stats, results[i]);
      i := i + 1;
    }
  }

  /** The body of the `forEach`: the result's suite gets one more result, and one more pass or failure. */
  method CountResult(stats: Dict<SuiteTally>, test: TestResult) returns (r: Dict<SuiteTally>)
    ensures r == Tally(stats, test)
  {
    var suite := SuiteLabel(test);
    var t := TallyOf(stats, suite);
    t := t.(total := t.total + 1);
    if test.status == Passed {
      t := t.(passed := t.passed + 1);
    } else if test.status == Failed {
      t := t.(failed := t.failed + 1);
    }
    assert t == Counted(TallyOf(stats, suite), test.status);
    r := Put(stats, suite, t);
  }

  /** `Object.keys(suiteStats).filter(suite => suiteStats[suite].failed > 0)` */
  function FailedSuites(keys: seq<string>, stats: Dict<SuiteTally>): (r: seq<string>)
    requires forall k :: k in keys ==> k in stats.vals
    ensures forall k :: k in r <==> k in keys && stats.vals[k].failed > 0
  {
    if keys == [] then []
    else (if stats.vals[keys[0]].failed > 0 then [keys[0]] else []) + FailedSuites(keys[1..], stats)
  }

  /** The suites without a failure. */
  function CleanSuites(keys: seq<string>, stats: Dict<SuiteTally>): (r: seq<string>)
    requires forall k :: k in keys ==> k in stats.vals
    ensures forall k :: k in r <==> k in keys && stats.vals[k].failed == 0
  {
    if keys == [] then []
    else (if stats.vals[keys[0]].failed == 0 then [keys[0]] else []) + CleanSuites(keys[1..], stats)
  }

  /** `failedSuiteCount` */
  function FailedSuiteCount(stats: Dict<SuiteTally>): nat {
    |FailedSuites(stats.keys, stats)|
  }

  /** `passedSuiteCount = totalSuiteCount - failedSuiteCount` */
  function PassedSuiteCount(stats: Dict<SuiteTally>): int {
    |stats.keys| - FailedSuiteCount(stats)
  }

  lemma {:induction false} FailedAndCleanPartition(keys: seq<string>, stats: Dict<SuiteTally>)
    requires forall k :: k in keys ==> k in stats.vals
    ensures |FailedSuites(keys, stats)| + |CleanSuites(keys, stats)| == |keys|
  {
    if keys != [] {
      FailedAndCleanPartition(keys[1..], stats);
    }
  }

  /** The passed-suite figure is the number of suites with no failed result, so it is never negative. */
  lemma PassedSuitesHaveNoFailure(stats: Dict<SuiteTally>)
    ensures PassedSuiteCount(stats) == |CleanSuites(stats.keys, stats)| >= 0
    ensures PassedSuiteCount(stats) + FailedSuiteCount(stats) == |stats.keys|
  {
    FailedAndCleanPartition(stats.keys, stats);
  }

  // Unique errors.

  /** The number of errors with message `m`. */
  function Occurrences(es: seq<ErrorEntry>, m: string): nat {
    if es == [] then 0 else (if es[0].message == m then 1 else 0) + Occurrences(es[1..], m)
  }

  /** All error entries of all results, in order. */
  function AllErrors(rs: seq<TestResult>): seq<ErrorEntry> {
    if rs == [] then [] else rs[0].errors + AllErrors(rs[1..])
  }

  function CountOf(counts: Dict<int>, m: string): int {
    if m in counts.vals then counts.vals[m] else 0
  }

  /** `acc[msg] = (acc[msg] || 0) + 1` for each error in turn. */
  function CountMessages(counts: Dict<int>, es: seq<ErrorEntry>): Dict<int>
    decreases es
  {
    if es == [] then counts
    else CountMessages(Bump(counts, es[0].message), es[1..])
  }

  /** The `reduce` over the results. */
  function CountTests(counts: Dict<int>, rs: seq<TestResult>): Dict<int>
    decreases rs
  {
    if rs == [] then counts else CountTests(CountMessages(counts, rs[0].errors), rs[1..])
  }

  lemma {:induction false} CountMessagesAppend(counts: Dict<int>, a: seq<ErrorEntry>, b: seq<ErrorEntry>)
    ensures CountMessages(counts, a + b) == CountMessages(CountMessages(counts, a), b)
    decreases a
  {
    if a == [] {
      assert a + b == b;
    } else {
      var m := a[0].message;
      var next := Bump(counts, m);
      assert (a + b)[0] == a[0] && (a + b)[1..] == a[1..] + b;
      calc {
        CountMessages(counts, a + b);
        CountMessages(next, a[1..] + b);
        { CountMessagesAppend(next, a[1..], b); }
        CountMessages(CountMessages(next, a[1..]), b);
      }
    }
  }

  lemma {:induction false} CountTestsFlattens(counts: Dict<int>, rs: seq<TestResult>)
    ensures CountTests(counts, rs) == CountMessages(counts, AllErrors(rs))
    decreases rs
  {
    if rs == [] {
    } else {
      CountTestsFlattens(CountMessages(counts, rs[0].errors), rs[1..]);
      CountMessagesAppend(counts, rs[0].errors, AllErrors(rs[1..]));
    }
  }

  /** One more occurrence of `m`. */
  function Bump(counts: Dict<int>, m: string): Dict<int> {
    Put(counts, m, CountOf(counts, m) + 1)
  }

  lemma BumpCounts(counts: Dict<int>, m: string, x: string)
    ensures CountOf(Bump(counts, m), x) == CountOf(counts, x) + (if x == m then 1 else 0)
    ensures x in Bump(counts, m).vals <==> x in counts.vals || x == m
  {
  }

  lemma {:induction false} CountMessagesCounts(counts: Dict<int>, es: seq<ErrorEntry>, m: string)
    ensures CountOf(CountMessages(counts, es), m) == CountOf(counts, m) + Occurrences(es, m)
    ensures m in CountMessages(counts, es).vals <==> m in counts.vals || Occurrences(es, m) > 0
    decreases es
  {
    if es != [] {
      var next := Bump(counts, es[0].message);
      assert CountMessages(counts, es) == CountMessages(next, es[1..]);
      BumpCounts(counts, es[0].message, m);
      CountMessagesCounts(next, es[1..], m);
    }
  }

  function Self(n: int): int {
    n
  }

  lemma {:induction false} CountMessagesSum(counts: Dict<int>, es: seq<ErrorEntry>)
    ensures Sum(CountMessages(counts, es), Self) == Sum(counts, Self) + |es|
    decreases es
  {
    if es != [] {
      var m := es[0].message;
      var next := Bump(counts, m);
      assert CountMessages(counts, es) == CountMessages(next, es[1..]);
      SumPut(counts, Self, m, CountOf(counts, m) + 1);
      CountMessagesSum(next, es[1..]);
    }
  }

  /** The unique-error table of a run. */
  function ErrorCountsOf(results: seq<TestResult>): Dict<int> {
    CountTests(Empty(), results)
  }

  /**
   * Each message's figure is the number of error entries with that message across all results, a
   * message is listed exactly when it occurs, and the figures add up to the number of errors.
   */
  lemma ErrorCountsAreOccurrences(results: seq<TestResult>, m: string)
    ensures CountOf(ErrorCountsOf(results), m) == Occurrences(AllErrors(results), m)
    ensures m in ErrorCountsOf(results).vals <==> Occurrences(AllErrors(results), m) > 0
    ensures Sum(ErrorCountsOf(results), Self) == |AllErrors(results)|
  {
    CountTestsFlattens(Empty(), results);
    CountMessagesCounts(Empty(), AllErrors(results), m);
    CountMessagesSum(Empty(), AllErrors(results));
  }

  /** `errorCounts`, built as the source builds it. */
  method ErrorCounts(results: seq<TestResult>) returns (counts: Dict<int>)
    ensures counts == ErrorCountsOf(results)
  {
    counts := Empty();
    var i := 0;
    while i < |results|
      invariant i <= |results|
      invariant CountTests(counts, results[i..]) == ErrorCountsOf(results)
    {
      assert CountTests(counts, results[i..]) == CountTests(CountMessages(counts, results[i].errors), results[i + 1..]);
      counts := CountErrors(counts, results[i].errors);
      i := i + 1;
    }
  }

  /** `test.errors.forEach(...)` inside the `reduce`. */
  method CountErrors(counts: Dict<int>, errors: seq<ErrorEntry>) returns (r: Dict<int>)
    ensures r == CountMessages(counts, errors)
  {
    r := counts;
    var j := 0;
    while j < |errors|
      invariant j <= |errors|
      invariant CountMessages(r, errors[j..]) == CountMessages(counts, errors)
    {
      assert errors[j..][0] == errors[j] && errors[j..][1..] == errors[j + 1..];
      r := Bump(r, errors[j].message);
      j := j + 1;
    }
  }
}
