/**
 * The data side of `HTMLReportGenerator.convertJSONFolderToHTML`: every `.json` file of a folder is
 * merged into the generator's results and metadata lists, the overall run times and browser are
 * derived from the metadata, and the page figures are computed from the merged results and the
 * history log.
 */
module HtmlReport {
  import opened Wrappers
  import opened Dict
  import opened Text
  import opened Report
  import opened HtmlStats
  import opened HtmlHistory
  import FileName
  import Aggregate
  import History

  // Merging a folder.

  /** What merging leaves behind: the results and metadata pushed so far, and whether a read or parse threw. */
  datatype Merged = Merged(results: seq<TestResult>, metas: seq<Metadata>, failed: bool)

  /** `file.endsWith('.json')` */
  predicate IsJson(f: ReportFile) {
    EndsWith(f.name, ".json")
  }

  /** A `.json` file whose reading or parsing throws, or that parses to `null`, whose `.testResults` then throws. */
  predicate Broken(f: ReportFile) {
    IsJson(f) && (f.content.Unreadable? || f.content.doc.JsonNull?)
  }

  /** The results a `.json` file contributes: those of an object with a result array, or the items of an array. */
  function ResultsIn(f: ReportFile): seq<TestResult> {
    if !IsJson(f) || !f.content.Parsed? then []
    else match f.content.doc
      case ReportObject(_, trs) => if trs.Some? then trs.value else []
      case ResultArray(items) => items
      case _ => []
  }

  /** The metadata a `.json` file contributes: that of an object with a result array, when present. */
  function MetasIn(f: ReportFile): seq<Metadata> {
    if IsJson(f) && f.content.Parsed? && f.content.doc.ReportObject? && f.content.doc.testResults.Some?
       && f.content.doc.metadata.Some?
    then [f.content.doc.metadata.value]
    else []
  }

  /** One iteration of the loop over the folder's entries. */
  function MergeFile(acc: Merged, f: ReportFile): Merged {
    if Broken(f) then acc.(failed := true)
    else Merged(acc.results + ResultsIn(f), acc.metas + MetasIn(f), acc.failed)
  }

  /** The loop over the folder's entries, which a throw ends. */
  function MergeFiles(acc: Merged, files: seq<ReportFile>): Merged
    decreases files
  {
    if files == [] || acc.failed then acc else MergeFiles(MergeFile(acc, files[0]), files[1..])
  }

  function AllResults(files: seq<ReportFile>): seq<TestResult> {
    if files == [] then [] else ResultsIn(files[0]) + AllResults(files[1..])
  }

  function AllMetas(files: seq<ReportFile>): seq<Metadata> {
    if files == [] then [] else MetasIn(files[0]) + AllMetas(files[1..])
  }

  /** With no broken file, merging appends the results and the metadata of every `.json` file, in listing order. */
  lemma {:induction false} MergeClean(acc: Merged, files: seq<ReportFile>)
    requires !acc.failed
    requires forall i :: 0 <= i < |files| ==> !Broken(files[i])
    ensures MergeFiles(acc, files) == Merged(acc.results + AllResults(files), acc.metas + AllMetas(files), false)
    decreases files
  {
    if files == [] {
      assert acc.results + [] == acc.results && acc.metas + [] == acc.metas;
    } else {
      assert !Broken(files[0]);
      var next := MergeFile(acc, files[0]);
      assert forall i :: 0 <= i < |files[1..]| ==> files[1..][i] == files[i + 1];
      MergeClean(next, files[1..]);
      Regroup(acc.results, ResultsIn(files[0]), AllResults(files[1..]));
      Regroup(acc.metas, MetasIn(files[0]), AllMetas(files[1..]));
    }
  }

  /**
   * The first broken file ends the merge: what the files before it contributed stays pushed, nothing
   * after it is read, and the merge is marked failed.
   */
  lemma {:induction false} MergeBroken(acc: Merged, files: seq<ReportFile>, k: nat)
    requires !acc.failed
    requires k < |files| && Broken(files[k])
    requires forall i :: 0 <= i < k ==> !Broken(files[i])
    ensures MergeFiles(acc, files)
      == Merged(acc.results + AllResults(files[..k]), acc.metas + AllMetas(files[..k]), true)
    decreases files
  {
    if k == 0 {
      assert files[..0] == [];
      assert acc.results + [] == acc.results && acc.metas + [] == acc.metas;
    } else {
      assert !Broken(files[0]);
      var next := MergeFile(acc, files[0]);
      var before := files[..k];
      assert before[0] == files[0] && before[1..] == files[1..][..k - 1];
      assert forall i :: 0 <= i < k - 1 ==> files[1..][i] == files[i + 1];
      MergeBroken(next, files[1..], k - 1);
      Regroup(acc.results, ResultsIn(files[0]), AllResults(before[1..]));
      Regroup(acc.metas, MetasIn(files[0]), AllMetas(before[1..]));
    }
  }

  /** A report the recorder wrote, alone in a folder, is merged with all its results and its metadata. */
  lemma WrittenReportIsMerged(report: RunReport, utc: string)
    ensures var files := [ReportFile(FileName.ReportFileName(utc), Parsed(ToJson(report)))];
      MergeFiles(Merged([], [], false), files) == Merged(report.testResults, [report.metadata], false)
  {
    var f := ReportFile(FileName.ReportFileName(utc), Parsed(ToJson(report)));
    FileName.ReportFileNameIsCollected(utc);
    assert IsJson(f);
    MergeClean(Merged([], [], false), [f]);
    assert AllResults([f]) == report.testResults + [];
    assert AllMetas([f]) == [report.metadata] + [];
  }

  // Overall metadata.

  /** The page's metadata; an absent value is shown as `'N/A'`. */
  datatype Overall = Overall(
    browserName: Option<string>,
    executionStartTime: Option<Time>,
    executionEndTime: Option<Time>,
    elapsed: Option<int>)

  /** The first metadata's browser (which may itself be absent), or `'N/A'` when there is no metadata. */
  function BrowserNameOf(metas: seq<Metadata>): (b: Option<string>) {
    if metas == [] then Some("N/A") else metas[0].browserName
  }

  /** `overallEnd - overallStart` when both are known. */
  function Elapsed(start: Option<Time>, end: Option<Time>): (d: Option<int>)
    ensures d.Some? <==> start.Some? && end.Some?
    ensures d.Some? ==> start.value + d.value == end.value
  {
    if start.Some? && end.Some? then Some(end.value - start.value) else None
  }

  function OverallOf(metas: seq<Metadata>): Overall {
    var start := EarliestFrom(None, StartsOf(metas));
    var end := LatestFrom(None, EndsOf(metas));
    Overall(BrowserNameOf(metas), start, end, Elapsed(start, end))
  }

  /**
   * The `forEach` over the metadata list: the earliest present start and the latest present end, each
   * absent only when no metadata has one.
   */
  method OverallTimes(metas: seq<Metadata>) returns (start: Option<Time>, end: Option<Time>)
    ensures start == EarliestFrom(None, StartsOf(metas)) && end == LatestFrom(None, EndsOf(metas))
    ensures start.None? <==> forall i :: 0 <= i < |metas| ==> metas[i].executionStartTime.None?
    ensures forall i :: 0 <= i < |metas| && metas[i].executionStartTime.Some? ==>
      start.Some? && start.value <= metas[i].executionStartTime.value
    ensures start.Some? ==> start in StartsOf(metas)
    ensures end.None? <==> forall i :: 0 <= i < |metas| ==> metas[i].executionEndTime.None?
    ensures forall i :: 0 <= i < |metas| && metas[i].executionEndTime.Some? ==>
      end.Some? && end.value >= metas[i].executionEndTime.value
    ensures end.Some? ==> end in EndsOf(metas)
  {
    start, end := None, None;
    var i := 0;
    while i < |metas|
      invariant i <= |metas|
      invariant EarliestFrom(start, StartsOf(metas[i..])) == EarliestFrom(None, StartsOf(metas))
      invariant LatestFrom(end, EndsOf(metas[i..])) == LatestFrom(None, EndsOf(metas))
    {
      var meta := metas[i];
      assert StartsOf(metas[i..]) == [meta.executionStartTime] + StartsOf(metas[i + 1..]);
      assert EndsOf(metas[i..]) == [meta.executionEndTime] + EndsOf(metas[i + 1..]);
      if meta.executionStartTime.Some? {
        var startTime := meta.executionStartTime.value;
        if start.None? || startTime < start.value {
          start := Some(startTime);
        }
      }
      if meta.executionEndTime.Some? {
        var endTime := meta.executionEndTime.value;
        if end.None? || endTime > end.value {
          end := Some(endTime);
        }
      }
      i := i + 1;
    }
    assert metas[i..] == [];
    EarliestStart(metas);
    LatestEnd(metas);
  }

  // The page figures.

  datatype PageData = PageData(
    summary: Summary,
    metadata: Overall,
    suiteStats: Dict<SuiteTally>,
    failedSuiteCount: nat,
    passedSuiteCount: int,
    errorCounts: Dict<int>,
    historicalBySuite: Dict<seq<HistoryPoint>>)

  /** The figures `generateHTMLReport` derives before rendering. */
  function PageOf(results: seq<TestResult>, overall: Overall, log: seq<Record>): PageData {
    var stats := SuiteStatsOf(results);
    PageData(SummaryStats(results), overall, stats, FailedSuiteCount(stats), PassedSuiteCount(stats),
      ErrorCountsOf(results), HistoricalBySuiteOf(log))
  }

  /** Only a configured, non-empty history path is read; a missing, unreadable or non-array file is an empty log. */
  function HistoryLog(historyPath: Option<string>, history: HistoryFile): (log: seq<Record>) {
    if historyPath.None? || historyPath.value == "" then [] else LoadHistory(history)
  }

  class HtmlReportGenerator {
    const outputFilePath: string
    const historyPath: Option<string>
    var testResults: seq<TestResult>
    var metadataList: seq<Metadata>
    var metadata: Option<Overall>

    constructor(outputFilePath: string, historyPath: Option<string>)
      ensures this.outputFilePath == outputFilePath && this.historyPath == historyPath
      ensures testResults == [] && metadataList == [] && metadata == None
    {
      this.outputFilePath := outputFilePath;
      this.historyPath := historyPath;
      testResults := [];
      metadataList := [];
      metadata := None;
    }

    /**
     * `convertJSONFolderToHTML(folderPath)`, with the folder listing and the history file given as
     * values. A missing folder or a broken `.json` file produces no page; the results and metadata
     * pushed before the throw stay in the generator, and every call adds to what earlier calls pushed.
     */
    method ConvertJsonFolderToHtml(folder: ReportDir, history: HistoryFile) returns (page: Option<PageData>)
      modifies this
      ensures !folder.present ==>
        page.None? && testResults == old(testResults) && metadataList == old(metadataList) && metadata == old(metadata)
      ensures folder.present ==>
        var m := MergeFiles(Merged(old(testResults), old(metadataList), false), folder.files);
        && testResults == m.results && metadataList == m.metas
        && (m.failed ==> page.None? && metadata == old(metadata))
        && (!m.failed ==>
              && metadata == Some(OverallOf(m.metas))
              && page == Some(PageOf(m.results, OverallOf(m.metas), HistoryLog(historyPath, history))))
    {
      if !folder.present {
        return None;
      }
      var failed := MergeFolder(folder.files);
      if failed {
        return None;
      }
      var start, end := OverallTimes(metadataList);
      var overall := Overall(BrowserNameOf(metadataList), start, end, Elapsed(start, end));
      metadata := Some(overall);
      var data := GenerateReport(overall, HistoryLog(historyPath, history));
      page := Some(data);
    }

    /** The `for (const file of files)` loop; a throw leaves what was pushed before it. */
    method MergeFolder(files: seq<ReportFile>) returns (failed: bool)
      modifies this`testResults, this`metadataList
      ensures Merged(testResults, metadataList, failed)
        == MergeFiles(Merged(old(testResults), old(metadataList), false), files)
    {
      failed := false;
      var i := 0;
      while i < |files|
        invariant i <= |files|
        invariant MergeFiles(Merged(testResults, metadataList, false), files[i..])
          == MergeFiles(Merged(old(testResults), old(metadataList), false), files)
      {
        var acc := Merged(testResults, metadataList, false);
        assert MergeFiles(acc, files[i..]) == MergeFiles(MergeFile(acc, files[i]), files[i + 1..]);
        failed := MergeEntry(files[i]);
        if failed {
          assert MergeFiles(acc.(failed := true), files[i + 1..]) == acc.(failed := true);
          return;
        }
        i := i + 1;
      }
      assert files[i..] == [];
    }

    /** One entry of the folder: a `.json` file is read, parsed and pushed; a throw is reported as `failed`. */
    method MergeEntry(f: ReportFile) returns (failed: bool)
      modifies this`testResults, this`metadataList
      ensures Merged(testResults, metadataList, failed) == MergeFile(Merged(old(testResults), old(metadataList), false), f)
    {
      failed := false;
      if EndsWith(f.name, ".json") {
        if f.content.Unreadable? || f.content.doc.JsonNull? {
          return true;
        }
        var doc := f.content.doc;
        if doc.ReportObject? && doc.testResults.Some? {
          if doc.metadata.Some? {
            metadataList := metadataList + [doc.metadata.value];
          }
          testResults := testResults + doc.testResults.value;
        } else if doc.ResultArray? {
          testResults := testResults + doc.items;
        }
      }
    }

    /** The figures of `generateHTMLReport(historyData)`, computed from the merged results. */
    method GenerateReport(overall: Overall, log: seq<Record>) returns (data: PageData)
      ensures data == PageOf(testResults, overall, log)
    {
      var summary := SummaryStats(testResults);
      var stats := SuiteStats(testResults);
      var counts := ErrorCounts(testResults);
      var groups := HistoricalBySuite(log);
      data := PageData(summary, overall, stats, FailedSuiteCount(stats), PassedSuiteCount(stats), counts, groups);
    }
  }

  /** The page's overall metadata: the first browser and the extreme times of all metadata merged so far. */
  lemma OverallIsExtreme(metas: seq<Metadata>)
    ensures var o := OverallOf(metas);
      && (metas == [] ==> o.browserName == Some("N/A") && o.executionStartTime.None? && o.executionEndTime.None?)
      && (metas != [] ==> o.browserName == metas[0].browserName)
      && (forall i :: 0 <= i < |metas| && metas[i].executionStartTime.Some? ==>
            o.executionStartTime.Some? && o.executionStartTime.value <= metas[i].executionStartTime.value)
      && (forall i :: 0 <= i < |metas| && metas[i].executionEndTime.Some? ==>
            o.executionEndTime.Some? && o.executionEndTime.value >= metas[i].executionEndTime.value)
      && (o.elapsed.Some? <==> o.executionStartTime.Some? && o.executionEndTime.Some?)
      && (o.elapsed.Some? ==> o.executionStartTime.value + o.elapsed.value == o.executionEndTime.value)
  {
    EarliestStart(metas);
    LatestEnd(metas);
  }

  /** A configured history path reads back exactly the log the aggregator wrote. */
  lemma ReportReadsWrittenHistory(path: string, written: seq<Record>)
    requires path != ""
    ensures HistoryLog(Some(path), Records(written)) == written
  {
  }

  /**
   * The aggregator's record, read back by the HTML report, gives each of its suites a point with the
   * suite's counts and the new and resolved defects found against the previous record.
   */
  lemma ReportShowsRecordedSuite(record: Record, agg: Aggregate.Aggregated, previous: Option<Record>, now: Time,
                                 path: string, k: string)
    requires History.IsRecordOf(record, agg, previous, now) && k in agg.suites.vals && path != ""
    ensures var b := agg.suites.vals[k];
      var d := History.Defects(b.errors, History.PreviousErrors(previous, k));
      SeriesOf(HistoricalBySuiteOf(HistoryLog(Some(path), Records([record]))), k)
        == [HistoryPoint(now, b.totalTests, b.passed, b.failed, d.newDefects, d.resolvedDefects)]
  {
    OneRecordSeries(record, k);
  }
}
