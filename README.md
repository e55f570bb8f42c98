# wdio-json-html-reporter, modelled in Dafny

This project models the data core of the `wdio-json-html-reporter` package for WebdriverIO and proves properties of it. The core has three parts:

- **Result recorder.** This is the `JSONReporter` instance, modelled as the class `Recorder.JsonReporter`. It turns each finished test into a result:
  - the uid comes from `test.uid`, or else from `title-timestamp`;
  - the suite name is `parent` without its `suite<n>` markers, then trimmed, or `Default Suite`;
  - error messages and stacks are sanitised from ANSI colour and erase sequences;
  - the screenshot path follows the screenshot option;
  - the spec stdout buffered since the test started is attached.

  A result is kept only if its uid is new, so the first result of every uid wins. The two pure helpers are modelled too: the 32-bit rolling hash behind screenshot names (`generateShortHash`) and the filename-safe timestamp (`formatDateForFilename`).
- **Aggregator and history tracker.** This is the static `generateAggregateHistory` (modules `Aggregate` and `History`). It folds every `test-report-*.json` file of every listed directory into one snapshot:
  - the earliest start and the latest end;
  - summed counts;
  - one bucket per suite, holding its counts and the error messages of its failures keyed by `testName-message`.

  It then diffs each suite's error keys against the last record of the history log, giving new and resolved defects. It appends the new record and keeps the last `maxHistory` records.
- **Data side of the HTML generator.** This is `HTMLReportGenerator` (modules `HtmlEscape`, `HtmlStats`, `HtmlHistory` and `HtmlReport`). It covers:
  - `escapeHtml`;
  - merging every `.json` file of a folder into the results and metadata lists;
  - the overall start, end and browser;
  - the summary counts, per-suite statistics and unique-error counts;
  - the history log, sorted oldest first and regrouped into one series per suite.

The file system, the clock and the browser are inputs. A directory is a value listing its files, and a file's content is what `JSON.parse` makes of it (`Report.ReportFile`). The history file is `Report.HistoryFile`. Dates are opaque integers. A JavaScript object used as a dictionary is `Dict.Dict`: its keys in insertion order plus a map. Writing the key of an existing entry keeps that key's place, and a new key goes last. This order decides the order of `newDefects` and `resolvedDefects`, of the suite statistics and of the history series.

Each loop of the source is a method proved equal to a function. Examples are the rolling hash, the per-suite and per-file folds, the defect loop, the folder merge, the overall-time loop, and the suite, error and history tallies. The properties are proved as lemmas about that function.

Three details of the code that the model keeps:
- The screenshot path is assigned before `writeFileSync`. A failing write therefore still leaves the path in the result. Only a failure of `takeScreenshot` or `mkdirSync` leaves `''`.
- The aggregator handles a parsed report that has `metadata` but no `testResults` in two steps. It first takes the file's times, and only then fails at `.length`. Its times count, but its results do not.
- The HTML generator stops at the first `.json` file that cannot be read or parsed, or that parses to `null`. It then produces no page. What earlier files pushed stays in the generator.

## Model

| member | source | states |
|---|---|---|
| Text.Trim | node_modules/wdio-json-html-reporter/dist/esm/lib/JSONReporter.js:195 | `trim` yields a slice of the input after its leading white space that neither starts nor ends with white space, and only white space is dropped from its end |
| Text.TrimKeepsTrimmed | node_modules/wdio-json-html-reporter/dist/esm/lib/JSONReporter.js:195 | text with no white space at either end is left unchanged by `trim` |
| Sanitize.DigitRun | node_modules/wdio-json-html-reporter/dist/esm/lib/JSONReporter.js:194 | `\d{1,2}` reads at most two digits, and it stops before a non-digit |
| Sanitize.MatchIsColourSequence | node_modules/wdio-json-html-reporter/dist/esm/lib/JSONReporter.js:194 | a match found at the start of the text is a word of the regular expression `[\u001b\u009b]\[\d{1,2}(;\d{1,2})?(m\|K)` |
| Sanitize.ColourSequenceIsMatch | node_modules/wdio-json-html-reporter/dist/esm/lib/JSONReporter.js:194 | every prefix that is a word of the expression is the match found, so backtracking yields no other match |
| Sanitize.MatchLengthIsTheMatch | node_modules/wdio-json-html-reporter/dist/esm/lib/JSONReporter.js:194 | a prefix is a colour sequence if and only if it is the match |
| Sanitize.MatchIsSequenceChars | node_modules/wdio-json-html-reporter/dist/esm/lib/JSONReporter.js:194 | a match is made only of introducers, `[`, digits, `;`, `m` and `K` |
| Sanitize.StripColours | node_modules/wdio-json-html-reporter/dist/esm/lib/JSONReporter.js:194 | the global replace only deletes characters, and it keeps every character that cannot belong to a sequence |
| Sanitize.StripColoursWithoutEscapes | node_modules/wdio-json-html-reporter/dist/esm/lib/JSONReporter.js:194 | text without ESC or CSI passes through unchanged |
| Sanitize.MatchLengthStopsAtIntroducer | node_modules/wdio-json-html-reporter/dist/esm/lib/JSONReporter.js:194 | a match never reads past an escape introducer: text appended after one changes neither whether the expression matches nor how far |
| Sanitize.StripColoursSplit | node_modules/wdio-json-html-reporter/dist/esm/lib/JSONReporter.js:194 | before an introducer the global replace splits: replacing in `a + b` is replacing in `a` followed by replacing in `b` |
| Sanitize.StripColoursDropsSequence | node_modules/wdio-json-html-reporter/dist/esm/lib/JSONReporter.js:194 | a colour sequence at the front is deleted whatever follows it |
| Sanitize.StripColoursDropsInnerSequence | node_modules/wdio-json-html-reporter/dist/esm/lib/JSONReporter.js:194 | a colour sequence anywhere is deleted, and the text on either side is processed as if apart |
| Sanitize.StripColoursKeepsOther | node_modules/wdio-json-html-reporter/dist/esm/lib/JSONReporter.js:194 | a character that is not ESC or CSI is kept in place |
| Sanitize.FirstLine | node_modules/wdio-json-html-reporter/dist/esm/lib/JSONReporter.js:196 | `split('\n')[0]` is the longest prefix without a line feed |
| Sanitize.SanitizeErrorMessage | node_modules/wdio-json-html-reporter/dist/esm/lib/JSONReporter.js:191-197 | an absent or empty message gives `''` |
| Sanitize.ShortIsPrefixOfFull | node_modules/wdio-json-html-reporter/dist/cjs/lib/JSONReporter.js:303-308 | the one-line form has no line feed and is a prefix of the full form |
| Sanitize.TrimOnlyDeletes | node_modules/wdio-json-html-reporter/dist/esm/lib/JSONReporter.js:195 | trimming holds no character more often than its input |
| Sanitize.FullOnlyDeletes | node_modules/wdio-json-html-reporter/dist/esm/lib/JSONReporter.js:193-195 | the full sanitised form holds no character more often than the message, so it is never a truncation plus new text |
| Sanitize.SanitizeKeepsPlainMessage | node_modules/wdio-json-html-reporter/dist/esm/lib/JSONReporter.js:191-197 | a message with no ESC or CSI and no white space at either end comes back whole in the full form |
| Sanitize.SanitizeUnwrapsColouredText | node_modules/wdio-json-html-reporter/dist/esm/lib/JSONReporter.js:191-197 | a plain message wrapped in a colour sequence and a reset sequence is reduced to the message |
| ShortHash.ToInt32 | node_modules/wdio-json-html-reporter/dist/esm/lib/JSONReporter.js:207 | `x \| 0` lands in the signed 32-bit range |
| ShortHash.ToInt32Congruent | node_modules/wdio-json-html-reporter/dist/esm/lib/JSONReporter.js:207 | values that differ by a multiple of 2^32 wrap alike, and a 32-bit value wraps to itself |
| ShortHash.HashStepIsTimes31 | node_modules/wdio-json-html-reporter/dist/esm/lib/JSONReporter.js:206-207 | `((h << 5) - h) + c` then `\|0` equals `31*h + c` wrapped to 32 bits, whatever the shift's own overflow |
| ShortHash.CodeUnits | node_modules/wdio-json-html-reporter/dist/esm/lib/JSONReporter.js:206 | `charCodeAt` reads UTF-16 code units, and there are none exactly for the empty string |
| ShortHash.RollingHash | node_modules/wdio-json-html-reporter/dist/cjs/lib/JSONReporter.js:318-321 | the running hash stays a signed 32-bit integer after every step |
| ShortHash.ToHex | node_modules/wdio-json-html-reporter/dist/esm/lib/JSONReporter.js:209 | `toString(16)` gives at least one lower-case hexadecimal digit |
| ShortHash.HexRoundTrip | node_modules/wdio-json-html-reporter/dist/esm/lib/JSONReporter.js:209 | reading back the printed digits gives the number |
| ShortHash.ToHexLength | node_modules/wdio-json-html-reporter/dist/esm/lib/JSONReporter.js:209 | a number below 16^k prints with at most k digits, so `substring(0, 8)` never cuts the absolute hash |
| ShortHash.LeadingZeros | node_modules/wdio-json-html-reporter/dist/esm/lib/JSONReporter.js:209 | `padStart` zeros do not change the value |
| ShortHash.ShortHashShape | node_modules/wdio-json-html-reporter/dist/cjs/lib/JSONReporter.js:315-323 | the hash is exactly 8 lower-case hexadecimal digits that denote the absolute 32-bit hash; `""` hashes to `"00000000"` |
| ShortHash.GenerateShortHash | node_modules/wdio-json-html-reporter/dist/esm/lib/JSONReporter.js:202-210 | the loop computes that hash |
| FileName.RemoveCommas | node_modules/wdio-json-html-reporter/dist/esm/lib/JSONReporter.js:183 | the result has no comma and only characters of the input |
| FileName.ColonsToDashes | node_modules/wdio-json-html-reporter/dist/esm/lib/JSONReporter.js:184 | each colon becomes `-` and every other character stays in place |
| FileName.CollapseSpaces | node_modules/wdio-json-html-reporter/dist/esm/lib/JSONReporter.js:185 | the result has no white space; every character is `_` or one of the input |
| FileName.FormatDateForFilename | node_modules/wdio-json-html-reporter/dist/cjs/lib/JSONReporter.js:294-296 | the file timestamp has no `,`, no `:` and no white space, and it is no longer than the date text |
| FileName.FormatKeepsSafeText | node_modules/wdio-json-html-reporter/dist/esm/lib/JSONReporter.js:180-186 | text that is already filename-safe is unchanged |
| FileName.RemoveCommasAppend | node_modules/wdio-json-html-reporter/dist/esm/lib/JSONReporter.js:183 | removing commas works piece by piece, so with the one-character case every comma goes and every other character stays, in order |
| FileName.ColonsToDashesAppend | node_modules/wdio-json-html-reporter/dist/esm/lib/JSONReporter.js:184 | replacing colons works piece by piece |
| FileName.CollapseSpacesRun | node_modules/wdio-json-html-reporter/dist/esm/lib/JSONReporter.js:185 | a non-empty run of white space followed by a non-space or by nothing becomes one `_` |
| FileName.CollapseSpacesKeeps | node_modules/wdio-json-html-reporter/dist/esm/lib/JSONReporter.js:185 | any other character is kept in place |
| FileName.CollapseSpacesAppend | node_modules/wdio-json-html-reporter/dist/esm/lib/JSONReporter.js:185 | collapsing works piece by piece where the pieces do not split a run of white space |
| FileName.FormatAppend | node_modules/wdio-json-html-reporter/dist/esm/lib/JSONReporter.js:180-186 | the date text is formatted piece by piece after any character that is neither a comma nor white space |
| FileName.FormatSpaceRun | node_modules/wdio-json-html-reporter/dist/esm/lib/JSONReporter.js:180-186 | a run of white space before a word becomes one `_` |
| FileName.FormatOneChar | node_modules/wdio-json-html-reporter/dist/esm/lib/JSONReporter.js:180-186 | a comma is dropped, a colon becomes `-`, white space becomes `_`, and every other character stays |
| FileName.FormatDropsComma | node_modules/wdio-json-html-reporter/dist/esm/lib/JSONReporter.js:180-186 | a comma is dropped wherever it stands in the date text, also right before a space, so the rest is formatted as if it were never there |
| FileName.ReportFileNameIsCollected | node_modules/wdio-json-html-reporter/dist/esm/lib/JSONReporter.js:245 | every `test-report-<time>.json` the recorder writes passes the aggregator's file filter |
| Report.CountStatus | node_modules/wdio-json-html-reporter/dist/esm/lib/JSONReporter.js:265-266 | the count of a status is at most the number of results |
| Report.CountStatusAppend | node_modules/wdio-json-html-reporter/dist/esm/lib/JSONReporter.js:264-268 | counts over concatenated result lists add up |
| Report.PassedAndFailedAtMostAll | node_modules/wdio-json-html-reporter/dist/esm/lib/JSONReporter.js:264-268 | passed plus failed is at most the number of results |
| Report.EarliestFromAppend | node_modules/wdio-json-html-reporter/dist/esm/lib/JSONReporter.js:254-257 | the earliest-start reduction over `a ++ b` is the reduction over `b` started from the result over `a` |
| Report.LatestFromAppend | node_modules/wdio-json-html-reporter/dist/esm/lib/JSONReporter.js:258-261 | the same for the latest end |
| Report.EarliestFromBounds | node_modules/wdio-json-html-reporter/dist/esm/lib/JSONReporter.js:254-257 | from a current value, the reduction is absent only if all inputs are, it is the current value or one of the inputs, and it is no later than any of them |
| Report.LatestFromBounds | node_modules/wdio-json-html-reporter/dist/esm/lib/JSONReporter.js:258-261 | the same for the latest end: it is no earlier than any input |
| Report.EarliestIsMinimum | node_modules/wdio-json-html-reporter/dist/esm/lib/JSONReporter.js:254-257 | the earliest start is absent if and only if every start is absent, and otherwise it is a present start no later than any |
| Report.LatestIsMaximum | node_modules/wdio-json-html-reporter/dist/esm/lib/JSONReporter.js:258-261 | the latest end is absent if and only if every end is absent, and otherwise it is a present end no earlier than any |
| Report.StartsOf | node_modules/wdio-json-html-reporter/dist/esm/lib/HTMLReportGenerator.js:49 | the start times, one per metadata entry, in order |
| Report.EndsOf | node_modules/wdio-json-html-reporter/dist/esm/lib/HTMLReportGenerator.js:55 | the end times, one per metadata entry, in order |
| Report.EarliestStart | node_modules/wdio-json-html-reporter/dist/esm/lib/HTMLReportGenerator.js:48-54 | over a list of metadata: absent if and only if no entry has a start; otherwise one of the starts and no later than any |
| Report.LatestEnd | node_modules/wdio-json-html-reporter/dist/esm/lib/HTMLReportGenerator.js:55-60 | over a list of metadata: absent if and only if no entry has an end; otherwise one of the ends and no earlier than any |
| Recorder.UidOf | node_modules/wdio-json-html-reporter/dist/esm/lib/JSONReporter.js:77 | the uid is never empty |
| Recorder.DigitCount | node_modules/wdio-json-html-reporter/dist/esm/lib/JSONReporter.js:78 | `\d+` is greedy: it consumes every leading digit |
| Recorder.MarkerLength | node_modules/wdio-json-html-reporter/dist/esm/lib/JSONReporter.js:78 | a `/suite\d+/i` match is at least 6 characters, all of them letters of `suite` in either case or digits |
| Recorder.StripSuiteMarkers | node_modules/wdio-json-html-reporter/dist/esm/lib/JSONReporter.js:78 | removing the markers only deletes characters and keeps every character outside the markers' alphabet |
| Recorder.SuiteNameOf | node_modules/wdio-json-html-reporter/dist/esm/lib/JSONReporter.js:78 | `Default Suite` without a (non-empty) parent, otherwise a trimmed name |
| Recorder.MarkerLengthIsLongestMarker | node_modules/wdio-json-html-reporter/dist/esm/lib/JSONReporter.js:78 | the match at the front is the longest `/suite\d+/i` marker there: it is a marker, no digit follows it, no longer prefix is one, and there is a match exactly when some prefix is a marker |
| Recorder.MarkerLengthStopsAtS | node_modules/wdio-json-html-reporter/dist/esm/lib/JSONReporter.js:78 | text appended from an `s` or `S` on changes no match, because that letter only ever starts a marker |
| Recorder.StripSuiteMarkersSplit | node_modules/wdio-json-html-reporter/dist/esm/lib/JSONReporter.js:78 | before an `s` or `S` the replace splits: replacing in `a + b` is replacing in `a` followed by replacing in `b` |
| Recorder.StripSuiteMarkersDropsMarker | node_modules/wdio-json-html-reporter/dist/esm/lib/JSONReporter.js:78 | a marker at the front not followed by a digit is deleted |
| Recorder.StripSuiteMarkersDropsInnerMarker | node_modules/wdio-json-html-reporter/dist/esm/lib/JSONReporter.js:78 | such a marker anywhere is deleted, and the text on either side is processed as if apart |
| Recorder.StripSuiteMarkersKeepsChar | node_modules/wdio-json-html-reporter/dist/esm/lib/JSONReporter.js:78 | a character where no marker starts is kept in place |
| Recorder.StripSuiteMarkersKeepsPlainText | node_modules/wdio-json-html-reporter/dist/esm/lib/JSONReporter.js:78 | text in which no marker starts anywhere passes through unchanged |
| Recorder.SuiteNameOfMarkedParent | node_modules/wdio-json-html-reporter/dist/esm/lib/JSONReporter.js:78 | a parent made of a marker-free name followed by a marker (`Login suite1`) gives the name, trimmed |
| Recorder.StoredErrors | node_modules/wdio-json-html-reporter/dist/esm/lib/JSONReporter.js:81-84 | one stored error per runner error, in order, with message and stack fully sanitised; none when the list is absent |
| Recorder.StoredErrorList | node_modules/wdio-json-html-reporter/dist/esm/lib/JSONReporter.js:81-84 | the `map` over a present error list |
| Recorder.ScreenshotPath | node_modules/wdio-json-html-reporter/dist/esm/lib/JSONReporter.js:86-105 | the path is `''` if and only if the option asks for no capture (neither `Full`, nor `OnFailure` with a failure) or the capture itself failed |
| Recorder.FirstIffUnseen | node_modules/wdio-json-html-reporter/dist/esm/lib/JSONReporter.js:131 | a result is the first of its uid exactly when its uid is not among the earlier results |
| Recorder.AdmitKeepsUidsUnique | node_modules/wdio-json-html-reporter/dist/esm/lib/JSONReporter.js:131-144 | recording one result keeps uids unique and adds exactly its uid to the uid set |
| Recorder.UidsOfAppend | node_modules/wdio-json-html-reporter/dist/esm/lib/JSONReporter.js:143 | appending a result adds its uid to the set of uids |
| Recorder.FirstOfEachUidHasSameUids | node_modules/wdio-json-html-reporter/dist/esm/lib/JSONReporter.js:131-144 | the first results of each uid have no uid twice and cover every uid that arrived |
| Recorder.RecordingKeepsFirstOfEachUid | node_modules/wdio-json-html-reporter/dist/esm/lib/JSONReporter.js:131-144 | recording results one by one yields exactly the first result of each uid, in arrival order; no uid is kept twice and none is lost |
| Recorder.JsonReporter.constructor | node_modules/wdio-json-html-reporter/dist/esm/lib/JSONReporter.js:16-39 | empty result list, uid set and stdout buffer; screenshots go to `screenshots` beside the output file |
| Recorder.JsonReporter.OnTestStart | node_modules/wdio-json-html-reporter/dist/esm/lib/JSONReporter.js:44-46 | a starting test empties the stdout buffer |
| Recorder.JsonReporter.OnStdout | node_modules/wdio-json-html-reporter/dist/esm/lib/JSONReporter.js:51-55 | a stdout chunk is appended to the buffer |
| Recorder.JsonReporter.AddTestResult | node_modules/wdio-json-html-reporter/dist/esm/lib/JSONReporter.js:73-145 | the result built from the test (uid, suite, sanitised errors, screenshot path, logs, buffered stdout) is appended only if its uid is new. A duplicate leaves the list unchanged, the uid set gains exactly the uid, the buffer is emptied either way, and uid set = uids of the list with no uid twice is preserved |
| Recorder.JsonReporter.CaptureScreenshot | node_modules/wdio-json-html-reporter/dist/esm/lib/JSONReporter.js:86-105 | the stored path is the screenshot rule's path built from the title hash and the filename-safe time |
| Recorder.JsonReporter.WriteJsonReport | node_modules/wdio-json-html-reporter/dist/esm/lib/JSONReporter.js:147-175 | the report holds all recorded results and the run's metadata (browser name or `Unknown`), and its file name passes the aggregator's filter |
| Aggregate.ErrorKey | node_modules/wdio-json-html-reporter/dist/esm/lib/JSONReporter.js:286 | the error key starts with the test name and ends with `-` and the message |
| Aggregate.AddFile | node_modules/wdio-json-html-reporter/dist/esm/lib/JSONReporter.js:249-294 | a file that throws before its metadata (unreadable, unparseable, no metadata) changes nothing; with metadata but no results it changes only the times |
| Aggregate.ReportFiles | node_modules/wdio-json-html-reporter/dist/esm/lib/JSONReporter.js:245 | exactly the listed files named `test-report-*.json` are read |
| Aggregate.AddResultsAppend | node_modules/wdio-json-html-reporter/dist/esm/lib/JSONReporter.js:271-291 | folding results into buckets over `a ++ b` is folding `b` after `a` |
| Aggregate.CombineTwice | node_modules/wdio-json-html-reporter/dist/esm/lib/JSONReporter.js:246-295 | folding two groups of files in turn equals folding their concatenation |
| Aggregate.AddFileIsCombine | node_modules/wdio-json-html-reporter/dist/esm/lib/JSONReporter.js:249-294 | one file extends the summary by the times of its metadata and the counts of its results, when it has them |
| Aggregate.AddFilesIsCombine | node_modules/wdio-json-html-reporter/dist/esm/lib/JSONReporter.js:246-295 | the files of a directory extend the summary by all their metadata and results, in order |
| Aggregate.AddDirsIsCombine | node_modules/wdio-json-html-reporter/dist/esm/lib/JSONReporter.js:240-296 | the directories extend it by all metadata and results of their report files; a missing directory contributes nothing |
| Aggregate.AggregateCounts | node_modules/wdio-json-html-reporter/dist/esm/lib/JSONReporter.js:263-268 | `totalTests` is the number of all counted results with no cross-file dedup, `passed` and `failed` count their statuses, `passed + failed <= totalTests`, and the suites are those results folded into buckets |
| Aggregate.CombineFromZero | node_modules/wdio-json-html-reporter/dist/esm/lib/JSONReporter.js:230-237 | from zero counts and no suites, the summary holds exactly the counts of the results; without files it is all zeros |
| Aggregate.AggregateStart | node_modules/wdio-json-html-reporter/dist/esm/lib/JSONReporter.js:254-257 | the start is the earliest present start over all files of all directories, and it stays null only when no file gives one |
| Aggregate.AggregateEnd | node_modules/wdio-json-html-reporter/dist/esm/lib/JSONReporter.js:258-261 | the end is the latest present end over all files, and it stays null only when no file gives one |
| Aggregate.TimesFromNone | node_modules/wdio-json-html-reporter/dist/esm/lib/JSONReporter.js:231-232 | from null times the summary's times are the reductions of the files' times alone |
| Aggregate.WrittenReportIsAggregated | node_modules/wdio-json-html-reporter/dist/esm/lib/JSONReporter.js:245-251 | a report the recorder wrote is read back with all of its results and its metadata |
| Aggregate.OfSuite | node_modules/wdio-json-html-reporter/dist/esm/lib/JSONReporter.js:272 | a result goes to the bucket of suite `k` exactly when its suite key is `k` |
| Aggregate.SuiteCounts | node_modules/wdio-json-html-reporter/dist/esm/lib/JSONReporter.js:271-280 | each bucket counts exactly the results of its suite (empty name means `Default Suite`): all, passed, failed; a bucket exists if and only if some result names it |
| Aggregate.SuiteTotalsAddUp | node_modules/wdio-json-html-reporter/dist/esm/lib/JSONReporter.js:271-276 | the buckets' totals sum to the number of results |
| Aggregate.AddErrorsKeys | node_modules/wdio-json-html-reporter/dist/esm/lib/JSONReporter.js:283-288 | the error keys after a failure are those before plus one key per error |
| Aggregate.AddErrorsConsistent | node_modules/wdio-json-html-reporter/dist/esm/lib/JSONReporter.js:284-287 | every stored message is the one its key ends with |
| Aggregate.AddResultErrorKeys | node_modules/wdio-json-html-reporter/dist/esm/lib/JSONReporter.js:277-290 | only a failed result adds keys, and only to its own suite |
| Aggregate.SuiteErrorKeys | node_modules/wdio-json-html-reporter/dist/esm/lib/JSONReporter.js:271-291 | a suite's error keys are exactly one key per error of each of its failed results; equal keys collapse |
| Aggregate.SuiteErrorsConsistent | node_modules/wdio-json-html-reporter/dist/esm/lib/JSONReporter.js:271-291 | in every suite, every stored message is the message its key ends with |
| Aggregate.RecordErrors | node_modules/wdio-json-html-reporter/dist/esm/lib/JSONReporter.js:283-288 | the loop over a failure's errors computes the error fold |
| Aggregate.AggregateSuites | node_modules/wdio-json-html-reporter/dist/esm/lib/JSONReporter.js:271-291 | the loop over a file's results computes the bucket fold |
| Aggregate.AggregateResult | node_modules/wdio-json-html-reporter/dist/esm/lib/JSONReporter.js:272-290 | one result's step of that loop |
| Aggregate.AggregateFile | node_modules/wdio-json-html-reporter/dist/esm/lib/JSONReporter.js:249-294 | one file's step, including the partial effect of a file without results |
| Aggregate.AggregateReports | node_modules/wdio-json-html-reporter/dist/esm/lib/JSONReporter.js:240-296 | the nested loops over directories and files compute the fold over all directories |
| History.Missing | node_modules/wdio-json-html-reporter/dist/esm/lib/JSONReporter.js:322 | `filter(k => !other.includes(k))` keeps exactly the keys not in the other list |
| History.MissingAppend | node_modules/wdio-json-html-reporter/dist/esm/lib/JSONReporter.js:322-325 | the filter keeps key order: a key appended to the list lands last in the result exactly when the other list lacks it |
| History.ValuesOf | node_modules/wdio-json-html-reporter/dist/esm/lib/JSONReporter.js:323 | `map(k => errors[k])` gives each key's message, position by position |
| History.MissingNothing | node_modules/wdio-json-html-reporter/dist/cjs/lib/JSONReporter.js:448 | against an empty previous list every key is missing |
| History.FirstRunReportsEveryError | node_modules/wdio-json-html-reporter/dist/cjs/lib/JSONReporter.js:445-469 | with no previous errors, every current message is new, in key order, and nothing is resolved |
| History.SameErrorsNoDefects | node_modules/wdio-json-html-reporter/dist/esm/lib/JSONReporter.js:322-325 | the same error keys as before give no new and no resolved defects |
| History.DefectsByKey | node_modules/wdio-json-html-reporter/dist/esm/lib/JSONReporter.js:322-325 | a key only current reports its message as new; a key only previous reports its message as resolved |
| History.DefectsComeFromMissingKeys | node_modules/wdio-json-html-reporter/dist/esm/lib/JSONReporter.js:322-325 | conversely, every new defect is the message of a current key the previous record lacks, and every resolved defect that of a previous key the current run lacks |
| History.PreviousErrors | node_modules/wdio-json-html-reporter/dist/esm/lib/JSONReporter.js:319-321 | previous errors exist only if there is a previous record with suites that has this suite |
| History.Append | node_modules/wdio-json-html-reporter/dist/esm/lib/JSONReporter.js:326 | a new suite entry goes last |
| History.CompareDefects | node_modules/wdio-json-html-reporter/dist/esm/lib/JSONReporter.js:316-330 | every suite of the snapshot, in its order and nothing else, gets its counts, errors and defect comparison with the previous record |
| History.CompareNext | node_modules/wdio-json-html-reporter/dist/esm/lib/JSONReporter.js:316 | each suite is visited once, so one more suite keeps the loop's invariant |
| History.Retain | node_modules/wdio-json-html-reporter/dist/esm/lib/JSONReporter.js:346-348 | the kept log is the suffix of length `min(length, maxHistory)`; it is empty for a bound of zero or less |
| History.NextRunComparesWithThisRecord | node_modules/wdio-json-html-reporter/dist/esm/lib/JSONReporter.js:313-348 | for `maxHistory >= 1` the appended record is the last of the written log, so the next run, loading that log (`Report.LoadHistory`), takes it as its previous record (`Report.LastRecord`) |
| History.ShortLogOnlyGrows | node_modules/wdio-json-html-reporter/dist/esm/lib/JSONReporter.js:346 | below the bound nothing is dropped |
| History.GenerateAggregateHistory | node_modules/wdio-json-html-reporter/dist/esm/lib/JSONReporter.js:224-363 | the returned record carries the fold over all directories (times, counts, suites in order with their defect comparisons against the last record of the loaded log) and the time of the call; the written log is the retained `log ++ [record]`, ending with the record when `maxHistory >= 1` |
| History.NewRecord | node_modules/wdio-json-html-reporter/dist/esm/lib/JSONReporter.js:332-341 | the record is built from the aggregate and the previous record |
| History.RerunFindsNoDefects | node_modules/wdio-json-html-reporter/dist/esm/lib/JSONReporter.js:313-348 | comparing the aggregate of the same reports again with the record a run made of it finds no new and no resolved defects in any suite |
| HtmlEscape.ReplaceChar | node_modules/wdio-json-html-reporter/dist/esm/lib/HTMLReportGenerator.js:17 | a replacement whose entity lacks the character removes it |
| HtmlEscape.EscapeHtml | node_modules/wdio-json-html-reporter/dist/esm/lib/HTMLReportGenerator.js:14-22 | an absent or empty input gives `''` |
| HtmlEscape.ReplaceCharAppend | node_modules/wdio-json-html-reporter/dist/esm/lib/HTMLReportGenerator.js:17-21 | a global replace distributes over concatenation |
| HtmlEscape.ChainAppend | node_modules/wdio-json-html-reporter/dist/esm/lib/HTMLReportGenerator.js:16-21 | the chain of five replacements distributes over concatenation |
| HtmlEscape.ChainOfChar | node_modules/wdio-json-html-reporter/dist/esm/lib/HTMLReportGenerator.js:16-21 | on one character the chain gives its entity, because `&` is replaced first and later steps leave entities alone |
| HtmlEscape.ChainIsPerCharacter | node_modules/wdio-json-html-reporter/dist/esm/lib/HTMLReportGenerator.js:16-21 | the chain escapes each character on its own |
| HtmlEscape.EscapedHasNoMarkup | node_modules/wdio-json-html-reporter/dist/esm/lib/HTMLReportGenerator.js:14-22 | escaped text has no `<`, `>`, `"` or `'` |
| HtmlEscape.EscapeRoundTrip | node_modules/wdio-json-html-reporter/dist/esm/lib/HTMLReportGenerator.js:14-22 | decoding the five entities gives back the input |
| HtmlStats.SummaryStats | node_modules/wdio-json-html-reporter/dist/esm/lib/HTMLReportGenerator.js:1682-1687 | total is the number of results, passed and failed are their status counts, and passed + failed <= total |
| HtmlStats.CountStatusPositive | node_modules/wdio-json-html-reporter/dist/esm/lib/HTMLReportGenerator.js:123 | a count is positive if and only if some result has the status |
| HtmlStats.OfSuite | node_modules/wdio-json-html-reporter/dist/esm/lib/HTMLReportGenerator.js:111 | a result is shown under suite `k` exactly when its label is `k` |
| HtmlStats.SuiteTallies | node_modules/wdio-json-html-reporter/dist/esm/lib/HTMLReportGenerator.js:109-121 | each suite's figures count exactly its results (a missing name means `Unknown`): total, passed, failed; a suite is listed if and only if some result carries its name |
| HtmlStats.SuiteFailsIffAResultFailed | node_modules/wdio-json-html-reporter/dist/esm/lib/HTMLReportGenerator.js:123 | a suite counts as failed if and only if one of its results failed |
| HtmlStats.SuiteStats | node_modules/wdio-json-html-reporter/dist/esm/lib/HTMLReportGenerator.js:109-121 | the `forEach` computes the suite statistics |
| HtmlStats.CountResult | node_modules/wdio-json-html-reporter/dist/esm/lib/HTMLReportGenerator.js:110-120 | one result's step of it |
| HtmlStats.FailedSuites | node_modules/wdio-json-html-reporter/dist/esm/lib/HTMLReportGenerator.js:123 | exactly the suites with a failure |
| HtmlStats.CleanSuites | node_modules/wdio-json-html-reporter/dist/esm/lib/HTMLReportGenerator.js:124 | exactly the suites without a failure |
| HtmlStats.FailedAndCleanPartition | node_modules/wdio-json-html-reporter/dist/esm/lib/HTMLReportGenerator.js:122-124 | the failed and the clean suites together are all suites |
| HtmlStats.PassedSuitesHaveNoFailure | node_modules/wdio-json-html-reporter/dist/esm/lib/HTMLReportGenerator.js:122-124 | `passedSuiteCount` is the number of suites without a failure, so it is never negative, and passed + failed suites = all suites |
| HtmlStats.CountMessagesAppend | node_modules/wdio-json-html-reporter/dist/esm/lib/HTMLReportGenerator.js:138-146 | counting over `a ++ b` is counting `b` after `a` |
| HtmlStats.CountTestsFlattens | node_modules/wdio-json-html-reporter/dist/esm/lib/HTMLReportGenerator.js:138-146 | the `reduce` over the tests counts the concatenation of all their errors |
| HtmlStats.BumpCounts | node_modules/wdio-json-html-reporter/dist/esm/lib/HTMLReportGenerator.js:142 | `acc[msg] = (acc[msg] \|\| 0) + 1` adds one to that message only |
| HtmlStats.CountMessagesCounts | node_modules/wdio-json-html-reporter/dist/esm/lib/HTMLReportGenerator.js:140-143 | each message's count grows by its occurrences, and it is listed if and only if it occurs |
| HtmlStats.CountMessagesSum | node_modules/wdio-json-html-reporter/dist/esm/lib/HTMLReportGenerator.js:140-143 | the counts grow in total by the number of errors |
| HtmlStats.ErrorCountsAreOccurrences | node_modules/wdio-json-html-reporter/dist/esm/lib/HTMLReportGenerator.js:138-146 | `errorCounts[m]` is the number of error entries with message `m` across all tests, `m` is listed if and only if it occurs, and the counts sum to the number of errors |
| HtmlStats.ErrorCounts | node_modules/wdio-json-html-reporter/dist/esm/lib/HTMLReportGenerator.js:138-146 | the `reduce` computes the error counts |
| HtmlStats.CountErrors | node_modules/wdio-json-html-reporter/dist/esm/lib/HTMLReportGenerator.js:140-143 | one test's step of it |
| HtmlHistory.Insert | node_modules/wdio-json-html-reporter/dist/esm/lib/HTMLReportGenerator.js:160 | inserting adds one record |
| HtmlHistory.InsertPermutes | node_modules/wdio-json-html-reporter/dist/esm/lib/HTMLReportGenerator.js:160 | inserting adds exactly that record and loses none |
| HtmlHistory.SortByTimestamp | node_modules/wdio-json-html-reporter/dist/esm/lib/HTMLReportGenerator.js:160 | sorting is a permutation of the log |
| HtmlHistory.InsertSorted | node_modules/wdio-json-html-reporter/dist/esm/lib/HTMLReportGenerator.js:160 | inserting into a sorted log keeps it sorted |
| HtmlHistory.SortIsSorted | node_modules/wdio-json-html-reporter/dist/esm/lib/HTMLReportGenerator.js:160 | the sorted log is oldest first |
| HtmlHistory.InsertStampedAt | node_modules/wdio-json-html-reporter/dist/esm/lib/HTMLReportGenerator.js:160 | insertion puts a record before the records of its own timestamp that came later |
| HtmlHistory.SortIsStable | node_modules/wdio-json-html-reporter/dist/esm/lib/HTMLReportGenerator.js:160 | records with equal timestamps keep their relative order |
| HtmlHistory.AddPointSeries | node_modules/wdio-json-html-reporter/dist/esm/lib/HTMLReportGenerator.js:168-171 | a push extends only the named suite's series, creating it if needed |
| HtmlHistory.GroupSuitesSeries | node_modules/wdio-json-html-reporter/dist/esm/lib/HTMLReportGenerator.js:164-181 | one record's suites each add their point to their own series |
| HtmlHistory.GroupSuitesKeys | node_modules/wdio-json-html-reporter/dist/esm/lib/HTMLReportGenerator.js:164-181 | and list exactly those suites |
| HtmlHistory.GroupRecordSeries | node_modules/wdio-json-html-reporter/dist/esm/lib/HTMLReportGenerator.js:163-182 | a record adds its point for a suite if it has that suite, and a record without suites adds nothing |
| HtmlHistory.GroupRecordKeys | node_modules/wdio-json-html-reporter/dist/esm/lib/HTMLReportGenerator.js:163-182 | a suite is listed after a record if it was before or the record has it |
| HtmlHistory.GroupRecordsSeries | node_modules/wdio-json-html-reporter/dist/esm/lib/HTMLReportGenerator.js:161-183 | the records each add their point, in log order |
| HtmlHistory.GroupRecordsKeys | node_modules/wdio-json-html-reporter/dist/esm/lib/HTMLReportGenerator.js:161-183 | a suite is listed if and only if some record has it |
| HtmlHistory.HistoricalBySuiteSeries | node_modules/wdio-json-html-reporter/dist/esm/lib/HTMLReportGenerator.js:157-184 | each suite's series is one point per record containing that suite, in sorted order, and only suites some record names are listed |
| HtmlHistory.OneRecordSeries | node_modules/wdio-json-html-reporter/dist/esm/lib/HTMLReportGenerator.js:157-184 | a log of one record gives each of its suites exactly the point it contributes |
| HtmlHistory.PointsForBounded | node_modules/wdio-json-html-reporter/dist/esm/lib/HTMLReportGenerator.js:171-172 | points keep their record's timestamp bounds |
| HtmlHistory.PointsForInOrder | node_modules/wdio-json-html-reporter/dist/esm/lib/HTMLReportGenerator.js:160-172 | a sorted log gives every series in time order |
| HtmlHistory.SeriesOldestFirst | node_modules/wdio-json-html-reporter/dist/esm/lib/HTMLReportGenerator.js:157-184 | every suite's series runs oldest first |
| HtmlHistory.HistoricalBySuite | node_modules/wdio-json-html-reporter/dist/esm/lib/HTMLReportGenerator.js:157-184 | the loops compute the grouping of the sorted log |
| HtmlHistory.AddRecord | node_modules/wdio-json-html-reporter/dist/esm/lib/HTMLReportGenerator.js:161-183 | one record's step of it |
| HtmlReport.MergeClean | node_modules/wdio-json-html-reporter/dist/esm/lib/HTMLReportGenerator.js:28-43 | with no broken file, the merge appends the results of every object with a result array or bare array and the metadata of every such object that has it, in file order; other files and shapes add nothing |
| HtmlReport.MergeBroken | node_modules/wdio-json-html-reporter/dist/esm/lib/HTMLReportGenerator.js:31-32 | a file that throws ends the merge: files before it stay merged and the conversion is marked failed |
| HtmlReport.WrittenReportIsMerged | node_modules/wdio-json-html-reporter/dist/esm/lib/HTMLReportGenerator.js:29-38 | a report the recorder wrote is merged with all its results and its metadata |
| HtmlReport.OverallTimes | node_modules/wdio-json-html-reporter/dist/esm/lib/HTMLReportGenerator.js:45-62 | the loop yields the earliest present start and the latest present end, each absent (`N/A`) if and only if no metadata has one |
| HtmlReport.OverallIsExtreme | node_modules/wdio-json-html-reporter/dist/esm/lib/HTMLReportGenerator.js:63-71 | the overall metadata: the first browser or `N/A` (`HtmlReport.BrowserNameOf`), the extreme times, and an elapsed time (`HtmlReport.Elapsed`) exactly when both are known, equal to end minus start |
| HtmlReport.ReportReadsWrittenHistory | node_modules/wdio-json-html-reporter/dist/esm/lib/HTMLReportGenerator.js:73-84 | with a configured path the HTML report (`HtmlReport.HistoryLog`) reads back exactly the log the aggregator wrote |
| HtmlReport.ReportShowsRecordedSuite | node_modules/wdio-json-html-reporter/dist/esm/lib/HTMLReportGenerator.js:157-184 | read back, a suite of the aggregator's record becomes a point (`HtmlHistory.PointOf`) with that suite's counts and the new and resolved defects found against the previous record |
| HtmlReport.HtmlReportGenerator.constructor | node_modules/wdio-json-html-reporter/dist/esm/lib/HTMLReportGenerator.js:5-11 | empty results and metadata lists |
| HtmlReport.HtmlReportGenerator.ConvertJsonFolderToHtml | node_modules/wdio-json-html-reporter/dist/esm/lib/HTMLReportGenerator.js:24-89 | a missing folder changes nothing and gives no page. Otherwise the lists become the merge of the folder onto what was there. A broken file gives no page and leaves `metadata` as it was. Without one, `metadata` is the overall metadata and the page figures are computed from the merged results and the history log |
| HtmlReport.HtmlReportGenerator.MergeFolder | node_modules/wdio-json-html-reporter/dist/esm/lib/HTMLReportGenerator.js:28-43 | the loop over the entries computes the merge, stopping at a throw |
| HtmlReport.HtmlReportGenerator.MergeEntry | node_modules/wdio-json-html-reporter/dist/esm/lib/HTMLReportGenerator.js:29-41 | one entry's step of it |
| HtmlReport.HtmlReportGenerator.GenerateReport | node_modules/wdio-json-html-reporter/dist/esm/lib/HTMLReportGenerator.js:91-184 | the summary, suite statistics and counts, error counts and history series are those of the merged results and the log |

## Left out

- File system calls (`readdirSync`, `readFileSync`, `writeFileSync`, `mkdirSync`, `existsSync`) are inputs and outputs. A directory is a value with its listing. A file is its parsed content. The written history log and the run report are returned values.
- A failure to write the history file or the HTML page is not modelled. It is only logged.
- `path.join` normalisation is not modelled. Paths are joined with `/`, and the history directory substring is not computed.
- Date handling (`new Date`, `toISOString`, `toUTCString`, parsing of date strings) is left out. Times are opaque integers, and an invalid or missing date is an absent time. Because of that, the `NaN` results of the sort comparator and of comparisons with invalid dates are not modelled.
- Floating-point figures are left out: `totalTimeInMinutes` (`toFixed`), and the pass and fail rates and percentages of the HTML page.
- HtmlReport.Elapsed: it keeps the elapsed time in the same integer time units as the inputs. The division into minutes and the `toFixed(2)` formatting are left out.
- Browser calls (`takeScreenshot`, `getLogs`, `capabilities`, base64 writing) are inputs. These are the capture outcome, the fetched logs and the reported browser name. Only the decision rule and the fall-back to `''` and `[]` are modelled.
- The HTML, CSS and client-side script template of `generateHTMLReport` is left out. That covers rendering, charts, filters, pagination and Excel export.
- `embedScreenshot` is left out. So is the replacement of screenshot paths by data URLs: it is file reading and base64 encoding.
- The command-line entry points (`dist/cjs/index.js`, `dist/esm/index.js`) are left out. They only parse arguments.
- The Babel runtime helpers and the regenerator state machine of the CommonJS build are left out. That build is the same class as the ES module build, and its lines are cited where they state the same rules.
- `async`/`await` is left out. The handlers are sequential method calls.
- The process-wide `globalExecutionId` is left out. The execution id is a constructor input.
- `console` logging is left out.
- A report path that exists but cannot be listed (a regular file, or one without read permission) is left out. There `readdirSync` throws outside the per-file `try`, so `generateAggregateHistory` ends with that error: it returns no record and writes no history. A `Report.ReportDir` is either missing or listable, so the model cannot express this case.
- An overall start or end that is an invalid date is left out. There `toISOString()` throws a `RangeError` inside the `try` of `convertJSONFolderToHTML`, so no page is made. The model's times are integers and always give a page.
- Keys named like `Object.prototype` members (a suite called `constructor`, say) are left out. So are integer-like keys, which `Object.keys` lists first in numeric order. Dictionaries keep plain insertion order.
- A `reportPaths` value that is not an array (wrapped into one) is left out. The model takes the list of directories.
- Values of other shapes in the documents are left out:
  - a `testResults` that is not an array in the aggregator;
  - history items that are not records;
  - error entries without a `message`;
  - result objects missing `status` or `testName`.
- Aggregate.ErrorKey: the key `testName + "-" + message` is kept as the source builds it. Two different test and message pairs can share a key (test `a-b` with message `c`, and test `a` with message `b-c`), and they then collapse into one entry. The model reproduces this rather than correcting it, because stored history files contain these keys.
- Recorder.UidOf: its contract states only that the uid is never empty. Which of `test.uid` and `title-timestamp` it is is left to its definition, which has no independent statement to be proved against.
- Recorder.JsonReporter.AddTestResult: the timestamp and the UTC date are inputs. So is the outcome of the screenshot capture. The model does not derive `HH:MM:SS` from an ISO date.
- Sanitize.StripColours: its own contract states only that characters are deleted and that non-sequence characters are all kept. That each colour sequence is deleted and every other character kept in place is `Sanitize.StripColoursDropsInnerSequence`, `Sanitize.StripColoursDropsSequence` and `Sanitize.StripColoursKeepsOther`.
- Sanitize.SanitizeErrorMessage: its own contract states only the absent or empty case. Removal and trimming are `Sanitize.SanitizeUnwrapsColouredText`, and the absence of truncation is `Sanitize.SanitizeKeepsPlainMessage`.
- Recorder.MarkerLength: its own contract states only the length and alphabet of a match. That it is the longest `/suite\d+/i` marker is `Recorder.MarkerLengthIsLongestMarker`.
- Recorder.StripSuiteMarkers: its own contract states only that characters are deleted. Marker deletion is `Recorder.StripSuiteMarkersDropsInnerMarker`, and keeping is `Recorder.StripSuiteMarkersKeepsChar` and `Recorder.StripSuiteMarkersKeepsPlainText`.
- Recorder.SuiteNameOf: its own contract states only the default and that the name is trimmed. Marker removal is `Recorder.SuiteNameOfMarkedParent`.
- FileName.RemoveCommas: its own contract states only that no comma is left. Order and keeping are `FileName.RemoveCommasAppend`.
- FileName.CollapseSpaces: its own contract states only that no white space is left. Runs becoming one `_` is `FileName.CollapseSpacesRun`, with `FileName.CollapseSpacesKeeps` and `FileName.CollapseSpacesAppend`.
- FileName.FormatDateForFilename: its own contract states only which characters are absent. The character-by-character meaning is `FileName.FormatAppend`, `FileName.FormatDropsComma`, `FileName.FormatSpaceRun` and `FileName.FormatOneChar`.
- History.Missing: its own contract states membership only. Key order is `History.MissingAppend`.
- HtmlHistory.Insert: its own contract states only the length. That it adds exactly one record is `HtmlHistory.InsertPermutes`, and that it keeps the order is `HtmlHistory.InsertSorted` and `HtmlHistory.InsertStampedAt`.
- HtmlHistory.SortByTimestamp: the language's array sort is modelled as a stable insertion sort. The ECMAScript standard leaves the algorithm to the engine but requires stability, so only the sorted, stable result is modelled, not the engine's comparisons.
