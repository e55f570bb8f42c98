/**
 * The history chart data of `generateHTMLReport`: the history log is sorted by timestamp, oldest
 * first and stable for equal timestamps, then every suite of every record contributes one point to
 * that suite's series.
 */
module HtmlHistory {
  import opened Wrappers
  import opened Dict
  import opened Report
  import Text

  // Sorting the log.

  ghost predicate Sorted(s: seq<Record>) {
    forall i, j :: 0 <= i < j < |s| ==> s[i].timestamp <= s[j].timestamp
  }

  /** Places `r` before the first record that is not earlier than it. */
  function Insert(r: Record, sorted: seq<Record>): (s: seq<Record>)
    ensures |s| == |sorted| + 1
  {
    if sorted == [] || r.timestamp <= sorted[0].timestamp then [r] + sorted
    else [sorted[0]] + Insert(r, sorted[1..])
  }

  /** Inserting adds `r` and loses nothing. */
  lemma {:induction false} InsertPermutes(r: Record, sorted: seq<Record>)
    ensures multiset(Insert(r, sorted)) == multiset(sorted) + multiset{r}
    decreases sorted
  {
    if sorted != [] && r.timestamp > sorted[0].timestamp {
      InsertPermutes(r, sorted[1..]);
      assert sorted == [sorted[0]] + sorted[1..];
    }
  }

  /**
   * `historyData.sort((a, b) => new Date(a.timestamp) - new Date(b.timestamp))`: an insertion sort,
   * which is stable as the array sort of the language is.
   */
  function SortByTimestamp(log: seq<Record>): (s: seq<Record>)
    ensures multiset(s) == multiset(log)
  {
    if log == [] then []
    else
      assert log == [log[0]] + log[1..];
      InsertPermutes(log[0], SortByTimestamp(log[1..]));
      Insert(log[0], SortByTimestamp(log[1..]))
  }

  lemma {:induction false} InsertSorted(r: Record, sorted: seq<Record>)
    requires Sorted(sorted)
    ensures Sorted(Insert(r, sorted))
    decreases sorted
  {
    if sorted != [] && r.timestamp > sorted[0].timestamp {
      InsertSorted(r, sorted[1..]);
      InsertPermutes(r, sorted[1..]);
      var s := Insert(r, sorted);
      var tail := Insert(r, sorted[1..]);
      assert s == [sorted[0]] + tail;
      forall j | 0 < j < |s|
        ensures sorted[0].timestamp <= s[j].timestamp
      {
        assert s[j] in multiset(tail);
        assert s[j] in multiset(sorted[1..]) + multiset{r};
        if s[j] != r {
          assert s[j] in sorted[1..];
        }
      }
    }
  }

  /** The log sorted: oldest first. */
  lemma {:induction false} SortIsSorted(log: seq<Record>)
    ensures Sorted(SortByTimestamp(log))
    decreases log
  {
    if log != [] {
      SortIsSorted(log[1..]);
      InsertSorted(log[0], SortByTimestamp(log[1..]));
    }
  }

  /** The records of `s` stamped `t`, in order. */
  function StampedAt(s: seq<Record>, t: Time): (at: seq<Record>)
    ensures |at| <= |s|
  {
    if s == [] then [] else (if s[0].timestamp == t then [s[0]] else []) + StampedAt(s[1..], t)
  }

  lemma {:induction false} InsertStampedAt(r: Record, sorted: seq<Record>, t: Time)
    requires Sorted(sorted)
    ensures StampedAt(Insert(r, sorted), t) == (if r.timestamp == t then [r] else []) + StampedAt(sorted, t)
    decreases sorted
  {
    var mine := if r.timestamp == t then [r] else [];
    if sorted == [] || r.timestamp <= sorted[0].timestamp {
      var s := [r] + sorted;
      assert Insert(r, sorted) == s;
      assert s[0] == r && s[1..] == sorted;
    } else {
      var rest := sorted[1..];
      assert Sorted(rest) by {
        forall i, j | 0 <= i < j < |rest| ensures rest[i].timestamp <= rest[j].timestamp {
          assert rest[i] == sorted[i + 1] && rest[j] == sorted[j + 1];
        }
      }
      InsertStampedAt(r, rest, t);
      var s := [sorted[0]] + Insert(r, rest);
      assert Insert(r, sorted) == s;
      assert s[0] == sorted[0] && s[1..] == Insert(r, rest);
      var first := if sorted[0].timestamp == t then [sorted[0]] else [];
      assert first == [] || mine == [];
      assert StampedAt(sorted, t) == first + StampedAt(rest, t);
      Text.Regroup(first, mine, StampedAt(rest, t));
      Text.Regroup(mine, first, StampedAt(rest, t));
    }
  }

  /** Stability: the records that share a timestamp keep their relative order. */
  lemma {:induction false} SortIsStable(log: seq<Record>, t: Time)
    ensures StampedAt(SortByTimestamp(log), t) == StampedAt(log, t)
    decreases log
  {
    if log != [] {
      SortIsStable(log[1..], t);
      SortIsSorted(log[1..]);
      InsertStampedAt(log[0], SortByTimestamp(log[1..]), t);
    }
  }

  // Grouping by suite.

  /** One point of a suite's series; the pass and fail rates are derived from it when rendering. */
  datatype HistoryPoint = HistoryPoint(
    timestamp: Time,
    totalTests: int,
    passed: int,
    failed: int,
    newIssues: seq<string>,
    resolvedIssues: seq<string>)

  /** A suite entry of a record as a point: missing counts read as 0 and a missing comparison as no issues. */
  function PointOf(timestamp: Time, e: SuiteEntry): (p: HistoryPoint) {
    var dc := e.defectComparison;
    HistoryPoint(timestamp, e.totalTests.GetOr(0), e.passed.GetOr(0), e.failed.GetOr(0),
      if dc.Some? then dc.value.newDefects else [],
      if dc.Some? then dc.value.resolvedDefects else [])
  }

  function SeriesOf(groups: Dict<seq<HistoryPoint>>, k: string): seq<HistoryPoint> {
    if k in groups.vals then groups.vals[k] else []
  }

  /** `historicalBySuite[suite] ||= []` followed by the push. */
  function AddPoint(groups: Dict<seq<HistoryPoint>>, k: string, p: HistoryPoint): Dict<seq<HistoryPoint>> {
    Put(groups, k, SeriesOf(groups, k) + [p])
  }

  /** `Object.keys(record.suites).forEach(...)` */
  function GroupSuites(groups: Dict<seq<HistoryPoint>>, timestamp: Time, keys: seq<string>, suites: Dict<SuiteEntry>)
    : Dict<seq<HistoryPoint>>
    requires forall k :: k in keys ==> k in suites.vals
    decreases keys
  {
    if keys == [] then groups
    else GroupSuites(AddPoint(groups, keys[0], PointOf(timestamp, suites.vals[keys[0]])), timestamp, keys[1..], suites)
  }

  /** A record without suites contributes nothing. */
  function GroupRecord(groups: Dict<seq<HistoryPoint>>, r: Record): Dict<seq<HistoryPoint>> {
    if r.suites.None? then groups
    else GroupSuites(groups, r.timestamp, r.suites.value.keys, r.suites.value)
  }

  /** `historyData.forEach(...)` */
  function GroupRecords(groups: Dict<seq<HistoryPoint>>, log: seq<Record>): Dict<seq<HistoryPoint>>
    decreases log
  {
    if log == [] then groups else GroupRecords(GroupRecord(groups, log[0]), log[1..])
  }

  /** `historicalBySuite` */
  function HistoricalBySuiteOf(log: seq<Record>): Dict<seq<HistoryPoint>> {
    GroupRecords(Empty(), SortByTimestamp(log))
  }

  /** The point a record contributes to suite `k`, if it has that suite. */
  function PointFor(r: Record, k: string): seq<HistoryPoint> {
    if r.suites.Some? && k in r.suites.value.vals then [PointOf(r.timestamp, r.suites.value.vals[k])] else []
  }

  /** The series of suite `k`, read off the records directly: one point per record that has the suite. */
  function PointsFor(log: seq<Record>, k: string): seq<HistoryPoint> {
    if log == [] then [] else PointFor(log[0], k) + PointsFor(log[1..], k)
  }

  lemma AddPointSeries(groups: Dict<seq<HistoryPoint>>, k: string, p: HistoryPoint, x: string)
    ensures SeriesOf(AddPoint(groups, k, p), x) == SeriesOf(groups, x) + (if x == k then [p] else [])
    ensures x in AddPoint(groups, k, p).vals <==> x in groups.vals || x == k
  {
  }

  lemma {:induction false} GroupSuitesSeries(
    groups: Dict<seq<HistoryPoint>>, timestamp: Time, keys: seq<string>, suites: Dict<SuiteEntry>, x: string)
    requires forall k :: k in keys ==> k in suites.vals
    requires forall i, j :: 0 <= i < j < |keys| ==> keys[i] != keys[j]
    ensures SeriesOf(GroupSuites(groups, timestamp, keys, suites), x)
      == SeriesOf(groups, x) + (if x in keys then [PointOf(timestamp, suites.vals[x])] else [])
    decreases keys
  {
    if keys == [] {
      assert SeriesOf(groups, x) + [] == SeriesOf(groups, x);
    } else {
      var p := PointOf(timestamp, suites.vals[keys[0]]);
      var next := AddPoint(groups, keys[0], p);
      AddPointSeries(groups, keys[0], p, x);
      assert forall i, j :: 0 <= i < j < |keys[1..]| ==> keys[1..][i] == keys[i + 1] && keys[1..][j] == keys[j + 1];
      GroupSuitesSeries(next, timestamp, keys[1..], suites, x);
      if x == keys[0] {
        assert x !in keys[1..] by {
          forall i | 0 <= i < |keys[1..]| ensures keys[1..][i] != x {
            assert keys[1..][i] == keys[i + 1];
          }
        }
        assert SeriesOf(next, x) + [] == SeriesOf(next, x);
      } else {
        assert x in keys <==> x in keys[1..];
        assert SeriesOf(next, x) == SeriesOf(groups, x);
      }
    }
  }

  lemma {:induction false} GroupSuitesKeys(
    groups: Dict<seq<HistoryPoint>>, timestamp: Time, keys: seq<string>, suites: Dict<SuiteEntry>, x: string)
    requires forall k :: k in keys ==> k in suites.vals
    ensures x in GroupSuites(groups, timestamp, keys, suites).vals <==> x in groups.vals || x in keys
    decreases keys
  {
    if keys != [] {
      var p := PointOf(timestamp, suites.vals[keys[0]]);
      AddPointSeries(groups, keys[0], p, x);
      GroupSuitesKeys(AddPoint(groups, keys[0], p), timestamp, keys[1..], suites, x);
      assert x in keys <==> x == keys[0] || x in keys[1..];
    }
  }

  lemma GroupRecordSeries(groups: Dict<seq<HistoryPoint>>, r: Record, x: string)
    ensures SeriesOf(GroupRecord(groups, r), x) == SeriesOf(groups, x) + PointFor(r, x)
  {
    if r.suites.Some? {
      GroupSuitesSeries(groups, r.timestamp, r.suites.value.keys, r.suites.value, x);
    } else {
      assert SeriesOf(groups, x) + [] == SeriesOf(groups, x);
    }
  }

  lemma GroupRecordKeys(groups: Dict<seq<HistoryPoint>>, r: Record, x: string)
    ensures x in GroupRecord(groups, r).vals <==> x in groups.vals || PointFor(r, x) != []
  {
    if r.suites.Some? {
      GroupSuitesKeys(groups, r.timestamp, r.suites.value.keys, r.suites.value, x);
    }
  }

  lemma {:induction false} GroupRecordsSeries(groups: Dict<seq<HistoryPoint>>, log: seq<Record>, x: string)
    ensures SeriesOf(GroupRecords(groups, log), x) == SeriesOf(groups, x) + PointsFor(log, x)
    decreases log
  {
    if log == [] {
      assert SeriesOf(groups, x) + [] == SeriesOf(groups, x);
    } else {
      var next := GroupRecord(groups, log[0]);
      GroupRecordSeries(groups, log[0], x);
      GroupRecordsSeries(next, log[1..], x);
      Text.Regroup(SeriesOf(groups, x), PointFor(log[0], x), PointsFor(log[1..], x));
    }
  }

  lemma {:induction false} GroupRecordsKeys(groups: Dict<seq<HistoryPoint>>, log: seq<Record>, x: string)
    ensures x in GroupRecords(groups, log).vals <==> x in groups.vals || PointsFor(log, x) != []
    decreases log
  {
    if log != [] {
      var next := GroupRecord(groups, log[0]);
      GroupRecordKeys(groups, log[0], x);
      GroupRecordsKeys(next, log[1..], x);
      assert PointsFor(log, x) != [] <==> PointFor(log[0], x) != [] || PointsFor(log[1..], x) != [];
    }
  }

  /**
   * Each suite named by some record gets a series with one point per record that has the suite, in
   * the sorted order of the log; a suite no record names gets no series.
   */
  lemma HistoricalBySuiteSeries(log: seq<Record>, x: string)
    ensures var groups := HistoricalBySuiteOf(log);
      && SeriesOf(groups, x) == PointsFor(SortByTimestamp(log), x)
      && (x in groups.vals <==> PointsFor(SortByTimestamp(log), x) != [])
  {
    var sorted := SortByTimestamp(log);
    GroupRecordsSeries(Empty(), sorted, x);
    GroupRecordsKeys(Empty(), sorted, x);
    assert [] + PointsFor(sorted, x) == PointsFor(sorted, x);
  }

  /** A log of one record gives each of its suites the one point it contributes. */
  lemma OneRecordSeries(r: Record, x: string)
    ensures SeriesOf(HistoricalBySuiteOf([r]), x) == PointFor(r, x)
  {
    var log := [r];
    HistoricalBySuiteSeries(log, x);
    assert SortByTimestamp(log) == log by {
      assert log[1..] == [];
    }
    assert PointsFor(log, x) == PointFor(r, x) by {
      assert log[1..] == [];
    }
  }

  lemma {:induction false} PointsForBounded(log: seq<Record>, x: string, lo: Time)
    requires forall i :: 0 <= i < |log| ==> lo <= log[i].timestamp
    ensures forall i :: 0 <= i < |PointsFor(log, x)| ==> lo <= PointsFor(log, x)[i].timestamp
    decreases log
  {
    if log != [] {
      PointsForBounded(log[1..], x, lo);
    }
  }

  ghost predicate Chronological(ps: seq<HistoryPoint>) {
    forall i, j :: 0 <= i < j < |ps| ==> ps[i].timestamp <= ps[j].timestamp
  }

  lemma {:induction false} PointsForInOrder(log: seq<Record>, x: string)
    requires Sorted(log)
    ensures Chronological(PointsFor(log, x))
    decreases log
  {
    if log != [] {
      var head, rest := PointFor(log[0], x), PointsFor(log[1..], x);
      assert Sorted(log[1..]) by {
        forall i, j | 0 <= i < j < |log[1..]| ensures log[1..][i].timestamp <= log[1..][j].timestamp {
          assert log[1..][i] == log[i + 1] && log[1..][j] == log[j + 1];
        }
      }
      PointsForInOrder(log[1..], x);
      PointsForBounded(log[1..], x, log[0].timestamp);
      var ps := head + rest;
      assert |head| <= 1;
      forall i, j | 0 <= i < j < |ps| ensures ps[i].timestamp <= ps[j].timestamp {
        if i < |head| {
          assert ps[i] == head[0] && head[0].timestamp == log[0].timestamp;
          assert ps[j] == rest[j - |head|];
        } else {
          assert ps[i] == rest[i - |head|] && ps[j] == rest[j - |head|];
        }
      }
    }
  }

  /** Every suite's series runs oldest first. */
  lemma SeriesOldestFirst(log: seq<Record>, x: string)
    ensures Chronological(SeriesOf(HistoricalBySuiteOf(log), x))
  {
    HistoricalBySuiteSeries(log, x);
    SortIsSorted(log);
    PointsForInOrder(SortByTimestamp(log), x);
  }

  /** `historicalBySuite`, built as the source builds it. */
  method HistoricalBySuite(log: seq<Record>) returns (groups: Dict<seq<HistoryPoint>>)
    ensures groups == HistoricalBySuiteOf(log)
  {
    var sorted := SortByTimestamp(log);
    groups := Empty();
    var i := 0;
    while i < |sorted|
      invariant i <= |sorted|
      invariant GroupRecords(groups, sorted[i..]) == HistoricalBySuiteOf(log)
    {
      assert GroupRecords(groups, sorted[i..]) == GroupRecords(GroupRecord(groups, sorted[i]), sorted[i + 1..]);
      groups := AddRecord(groups, sorted[i]);
      i := i + 1;
    }
  }

  /** The points of one record. */
  method AddRecord(groups: Dict<seq<HistoryPoint>>, r: Record) returns (g: Dict<seq<HistoryPoint>>)
    ensures g == GroupRecord(groups, r)
  {
    g := groups;
    if r.suites.Some? {
      var suites := r.suites.value;
      var j := 0;
      while j < |suites.keys|
        invariant j <= |suites.keys|
        invariant GroupSuites(g, r.timestamp, suites.keys[j..], suites) == GroupRecord(groups, r)
      {
        var k := suites.keys[j];
        assert suites.keys[j..][0] == k && suites.keys[j..][1..] == suites.keys[j + 1..];
        g := AddPoint(g, k, PointOf(r.timestamp, suites.vals[k]));
        j := j + 1;
      }
    }
  }
}
