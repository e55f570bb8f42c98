/**
 * The history half of `generateAggregateHistory`: each suite's error keys are compared with the last
 * record of the history log, the new record is appended, and only the most recent records are kept.
 */
module History {
  import opened Wrappers
  import opened Dict
  import opened Report
  import opened Aggregate

  /** `maxHistory = 5` when the caller gives none. */
  const DefaultMaxHistory: int := 5

  /** `keys.filter(k => !other.includes(k))` */
  function Missing(keys: seq<string>, other: seq<string>): (r: seq<string>)
    ensures forall k :: k in r <==> k in keys && k !in other
    ensures |r| <= |keys|
  {
    if keys == [] then []
    else (if keys[0] in other then [] else [keys[0]]) + Missing(keys[1..], other)
  }

  /** `.map(k => errors[k])` */
  function ValuesOf(keys: seq<string>, d: Dict<string>): (r: seq<string>)
    requires forall k :: k in keys ==> k in d.vals
    ensures |r| == |keys| && forall i :: 0 <= i < |keys| ==> r[i] == d.vals[keys[i]]
  {
    if keys == [] then [] else [d.vals[keys[0]]] + ValuesOf(keys[1..], d)
  }

  /**
   * The defect comparison of one suite: the messages of the current keys the previous record lacks,
   * then the messages of the previous keys the current run lacks, each in key order.
   */
  function Defects(current: Dict<string>, previous: Option<Dict<string>>): DefectComparison {
    var prev := previous.GetOr(Empty());
    DefectComparison(ValuesOf(Missing(current.keys, prev.keys), current),
                     ValuesOf(Missing(prev.keys, current.keys), prev))
  }

  lemma {:induction false} MissingNothing(keys: seq<string>)
    ensures Missing(keys, []) == keys
  {
    if keys != [] {
      MissingNothing(keys[1..]);
    }
  }

  /** Without previous errors every current error is new and nothing is resolved. */
  lemma FirstRunReportsEveryError(current: Dict<string>)
    ensures Defects(current, None) == DefectComparison(ValuesOf(current.keys, current), [])
  {
    MissingNothing(current.keys);
  }

  /** The same errors as last time give no new and no resolved defects. */
  lemma SameErrorsNoDefects(errors: Dict<string>)
    ensures Defects(errors, Some(errors)) == DefectComparison([], [])
  {
  }

  /**
   * A key's message is reported new exactly when the key is current and was not in the previous
   * record, and resolved exactly when it was in the previous record and is not current.
   */
  lemma DefectsByKey(current: Dict<string>, previous: Option<Dict<string>>, key: string)
    ensures var prev := previous.GetOr(Empty());
      var c := Defects(current, previous);
      && (key in current.vals && key !in prev.vals ==> current.vals[key] in c.newDefects)
      && (key in prev.vals && key !in current.vals ==> prev.vals[key] in c.resolvedDefects)
      && |c.newDefects| + |c.resolvedDefects| <= |current.keys| + |prev.keys|
  {
    var prev := previous.GetOr(Empty());
    var added := Missing(current.keys, prev.keys);
    var gone := Missing(prev.keys, current.keys);
    if key in current.vals && key !in prev.vals {
      var i :| 0 <= i < |added| && added[i] == key;
      assert ValuesOf(added, current)[i] == current.vals[key];
    }
    if key in prev.vals && key !in current.vals {
      var i :| 0 <= i < |gone| && gone[i] == key;
      assert ValuesOf(gone, prev)[i] == prev.vals[key];
    }
  }

  /**
   * The filter keeps the order of `keys`: a key appended to the list lands last in the result, exactly
   * when the other list lacks it.
   */
  lemma {:induction false} MissingAppend(keys: seq<string>, k: string, other: seq<string>)
    ensures Missing(keys + [k], other) == Missing(keys, other) + (if k in other then [] else [k])
  {
    if keys == [] {
      assert keys + [k] == [k];
    } else {
      assert (keys + [k])[1..] == keys[1..] + [k];
      MissingAppend(keys[1..], k, other);
    }
  }

  /** Every message in `ms` is the message in `d` of a key that `o` lacks. */
  ghost predicate FromKeysMissingIn(ms: seq<string>, d: Dict<string>, o: Dict<string>) {
    forall i :: 0 <= i < |ms| ==> exists key :: key in d.vals && key !in o.vals && ms[i] == d.vals[key]
  }

  /**
   * Conversely, every new defect is the message of a current key the previous record lacks, and every
   * resolved defect the message of a previous key the current run lacks.
   */
  lemma DefectsComeFromMissingKeys(current: Dict<string>, previous: Option<Dict<string>>)
    ensures FromKeysMissingIn(Defects(current, previous).newDefects, current, previous.GetOr(Empty()))
    ensures FromKeysMissingIn(Defects(current, previous).resolvedDefects, previous.GetOr(Empty()), current)
  {
    var prev := previous.GetOr(Empty());
    MessagesOfMissing(current, prev);
    MessagesOfMissing(prev, current);
  }

  /** The messages taken for the keys of `d` that `o` lacks come from such keys. */
  lemma MessagesOfMissing(d: Dict<string>, o: Dict<string>)
    ensures FromKeysMissingIn(ValuesOf(Missing(d.keys, o.keys), d), d, o)
  {
    var ks := Missing(d.keys, o.keys);
    forall i | 0 <= i < |ks|
      ensures exists key :: key in d.vals && key !in o.vals && ValuesOf(ks, d)[i] == d.vals[key]
    {
      assert ks[i] in ks;
    }
  }

  /** `previousRecord?.suites?.[suiteName]?.errors` */
  function PreviousErrors(previous: Option<Record>, suite: string): (errors: Option<Dict<string>>)
    ensures errors.Some? ==> previous.Some? && previous.value.suites.Some? && suite in previous.value.suites.value.vals
  {
    if previous.Some? && previous.value.suites.Some? && suite in previous.value.suites.value.vals
    then previous.value.suites.value.vals[suite].errors
    else None
  }

  /** A suite of the new record: its counts, its errors and its comparison with the previous record. */
  function SuiteEntryOf(b: Bucket, previous: Option<Record>, suite: string): SuiteEntry {
    SuiteEntry(Some(b.totalTests), Some(b.passed), Some(b.failed), Some(b.errors),
               Some(Defects(b.errors, PreviousErrors(previous, suite))))
  }

  /** Adding a key the dictionary does not have puts it last. */
  function Append(d: Dict<SuiteEntry>, k: string, v: SuiteEntry): (r: Dict<SuiteEntry>)
    requires k !in d.vals
    ensures r.keys == d.keys + [k] && r.vals == d.vals[k := v]
  {
    Put(d, k, v)
  }

  /** `for (const suiteName in aggregated.suites)`: every suite gets its defect comparison, in suite order. */
  method CompareDefects(suites: Dict<Bucket>, previous: Option<Record>) returns (entries: Dict<SuiteEntry>)
    ensures entries.keys == suites.keys
    ensures forall k :: k in suites.vals ==> k in entries.vals && entries.vals[k] == SuiteEntryOf(suites.vals[k], previous, k)
  {
    entries := Empty();
    var i := 0;
    while i < |suites.keys|
      invariant i <= |suites.keys|
      invariant ComparedUpTo(entries, suites, previous, i)
    {
      var k := suites.keys[i];
      CompareNext(entries, suites, previous, i);
      entries := Append(entries, k, SuiteEntryOf(suites.vals[k], previous, k));
      i := i + 1;
    }
    assert suites.keys[..i] == suites.keys;
  }

  /** The first `i` suites have their entries, in order, and nothing else does. */
  ghost predicate ComparedUpTo(entries: Dict<SuiteEntry>, suites: Dict<Bucket>, previous: Option<Record>, i: nat)
    requires i <= |suites.keys|
  {
    && entries.keys == suites.keys[..i]
    && forall k :: k in entries.vals ==> k in suites.vals && entries.vals[k] == SuiteEntryOf(suites.vals[k], previous, k)
  }

  /** One more suite keeps the loop's invariant. */
  lemma CompareNext(entries: Dict<SuiteEntry>, suites: Dict<Bucket>, previous: Option<Record>, i: nat)
    requires i < |suites.keys| && ComparedUpTo(entries, suites, previous, i)
    ensures suites.keys[i] !in entries.vals
    ensures var k := suites.keys[i];
      ComparedUpTo(Append(entries, k, SuiteEntryOf(suites.vals[k], previous, k)), suites, previous, i + 1)
  {
    var k := suites.keys[i];
    assert forall j :: 0 <= j < i ==> suites.keys[j] != k;
    assert suites.keys[..i + 1] == suites.keys[..i] + [k];
  }

  function Min(a: int, b: int): int {
    if a <= b then a else b
  }

  /** `if (length > maxHistory) slice(length - maxHistory)`: the most recent `maxHistory` records, none for a bound of zero or less. */
  function Retain(log: seq<Record>, maxHistory: int): (kept: seq<Record>)
    ensures |kept| == Min(|log|, if maxHistory < 0 then 0 else maxHistory)
    ensures kept == log[|log| - |kept|..]
  {
    if |log| <= maxHistory then log
    else if maxHistory <= 0 then []
    else log[|log| - maxHistory..]
  }

  /** The record appended by a run is the last record of the log it writes, so the next run compares with it. */
  lemma NextRunComparesWithThisRecord(log: seq<Record>, record: Record, maxHistory: int)
    requires maxHistory >= 1
    ensures LastRecord(Retain(log + [record], maxHistory)) == Some(record)
    ensures LastRecord(LoadHistory(Records(Retain(log + [record], maxHistory)))) == Some(record)
  {
    var kept := Retain(log + [record], maxHistory);
    assert kept[|kept| - 1] == (log + [record])[|log + [record]| - 1];
  }

  /** While the log is shorter than the bound, a run only appends its record. */
  lemma ShortLogOnlyGrows(log: seq<Record>, record: Record, maxHistory: int)
    requires |log| < maxHistory
    ensures Retain(log + [record], maxHistory) == log + [record]
  {
  }

  /** The record `generateAggregateHistory` returns. */
  function RecordOf(agg: Aggregated, now: Time, entries: Dict<SuiteEntry>): Record {
    Record(now, agg.executionStartTime, agg.executionEndTime, agg.totalTests, agg.passed, agg.failed, Some(entries))
  }

  /**
   * The record of a run: stamped `now`, carrying the aggregate's times and counts, and one entry per
   * suite, in the aggregate's suite order, compared with the previous record.
   */
  ghost predicate IsRecordOf(record: Record, agg: Aggregated, previous: Option<Record>, now: Time) {
    && record.timestamp == now
    && record.executionStartTime == agg.executionStartTime && record.executionEndTime == agg.executionEndTime
    && record.totalTests == agg.totalTests && record.passed == agg.passed && record.failed == agg.failed
    && record.suites.Some? && record.suites.value.keys == agg.suites.keys
    && forall k :: k in agg.suites.vals ==> record.suites.value.vals[k] == SuiteEntryOf(agg.suites.vals[k], previous, k)
  }

  /**
   * `generateAggregateHistory`: the directories' listings and contents, the history file and the clock
   * are inputs; the record and the log that is written back are the outputs.
   */
  method GenerateAggregateHistory(dirs: seq<ReportDir>, history: HistoryFile, maxHistory: int, now: Time)
    returns (record: Record, written: seq<Record>)
    ensures IsRecordOf(record, AddDirs(Initial, dirs), LastRecord(LoadHistory(history)), now)
    ensures written == Retain(LoadHistory(history) + [record], maxHistory)
    ensures maxHistory >= 1 ==> written != [] && written[|written| - 1] == record
  {
    var agg := AggregateReports(dirs);
    var log := LoadHistory(history);
    var previous := LastRecord(log);
    record := NewRecord(agg, previous, now);
    written := Retain(log + [record], maxHistory);
    if maxHistory >= 1 {
      NextRunComparesWithThisRecord(log, record, maxHistory);
    }
  }

  /** The `historyRecord` object, built from the aggregate and the previous record. */
  method NewRecord(agg: Aggregated, previous: Option<Record>, now: Time) returns (record: Record)
    ensures IsRecordOf(record, agg, previous, now)
  {
    var entries := CompareDefects(agg.suites, previous);
    record := RecordOf(agg, now, entries);
  }

  /**
   * Two runs over the same reports with nothing in between: whatever the first run compared against, the
   * second run, comparing with the first run's record, reports no new and no resolved defects.
   */
  lemma RerunFindsNoDefects(dirs: seq<ReportDir>, first: Record, firstPrevious: Option<Record>, firstNow: Time, k: string)
    requires IsRecordOf(first, AddDirs(Initial, dirs), firstPrevious, firstNow)
    requires k in AddDirs(Initial, dirs).suites.vals
    ensures SuiteEntryOf(AddDirs(Initial, dirs).suites.vals[k], Some(first), k).defectComparison
      == Some(DefectComparison([], []))
  {
    var b := AddDirs(Initial, dirs).suites.vals[k];
    assert k in first.suites.value.vals;
    assert first.suites.value.vals[k].errors == Some(b.errors);
    SameErrorsNoDefects(b.errors);
  }
}
