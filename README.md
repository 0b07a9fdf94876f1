# puppeteer-tests in Dafny

This project models the measurement and bookkeeping logic of a set of Node
scripts that load-test a web front end with a headless browser.

- **load_test.js** runs a batch. It launches `numRequests` page probes at
  once and collects the timings of the probes that succeed, in the order
  they finish. It averages the DOM-content-loaded and load-event times and
  writes the batch to `<name>.json`.
- **rendertest.js** runs the same batch with a single probe and logs the
  averages instead of writing them.
- **run_all.js** is the sweep. Starting at `INCREMENT_STEP`, it runs
  load_test.js and then draw_graph.js as child processes for each request
  count. It grows the count by the step until the count passes
  `REQUEST_LIMIT`, and stops at the first child process that fails.
- **calc_coverage.js** adds up the bytes of CSS and JS coverage for one page
  load (total text length and used range length) and records the used
  percentage.
- **compare_results.js** reads two results files and reports, per metric,
  file B's average minus file A's. Every read or parse error is caught.
- **draw_graph.js** turns a results file into three chart series. It names
  the image by replacing the first ".json" of the file name with ".png".

The modules follow the scripts:

- `Batch` is the fan-out, collection and averaging shared by load_test.js
  and rendertest.js.
- `LoadTest`, `RenderTest`, `RunAll`, `CalcCoverage`, `CompareResults` and
  `DrawGraph` each model one script.
- `Probe` is the timing arithmetic of `testRender`.
- `Js` models `parseInt` and the decimal numeral of an integer.
- `Env` models the `||` fallbacks for environment variables.
- `Sums` is the `reduce`-style sum and its independence of order.
- `Wrappers` holds `Option` and `Result`.

What the browser, the file system and child processes do enters the model
as parameters:

- A probe's outcome is a `ProbeOutcome`. It is either `Returned(Some(t))`
  with a timing; or `Returned(None)`, the `null` that `testRender` returns
  when `goto` or `evaluate` threw; or `Rejected`, when `puppeteer.launch`,
  `newPage` or `browser.close` threw outside the `catch`. One rejected probe
  rejects `Promise.all`, and the batch then ends with an error and writes
  nothing.
- The completion order of the concurrent probes is `order`, a permutation
  of the launch indices.
- Whether a child process succeeds is a predicate `succeeds`.
- The browser's coverage report is `Option<…>`; `None` means navigation,
  the browser start-up or a coverage call threw.
- A parsed results file is `Result<ResultsFile, ReadError>`.

JavaScript's NaN is `None` throughout, for example the mean of an empty
batch. A coverage percentage with `totalBytes` 0 is `None` as well: it is
NaN when `usedBytes` is also 0, and ±Infinity otherwise.

`Promise.all` over the probes becomes a loop (`Batch.Collect`). The loop
takes the settled probes in completion order and appends an entry for each
success. Its result is tied to the specification function `Collected`; the
lemmas about `Collected` show that the entries are exactly the successful
probes, each probe's request number appears once, and a different
completion order gives the same entries in another order with the same
averages.

## Model

| member | source | states |
|---|---|---|
| Js.TrimStart | load_test.js:88 | the result is what is left after the leading white space and line terminators, all of which are skipped, and it starts with a non-space |
| Js.DigitPrefix | load_test.js:88 | the longest prefix made of decimal digits |
| Js.ParseDigits | load_test.js:88 | NaN exactly when the text does not start with a decimal digit |
| Js.NatToString | run_all.js:21 | a non-empty run of digits with no leading zero except for 0 itself |
| Js.NatToStringValue | run_all.js:21 | the decimal numeral of `n` denotes `n` |
| Js.ParseIntOfIntToString | run_all.js:21 | `parseInt` of an integer's numeral followed by any non-digit text gives back the integer, negative ones included |
| Js.ParseIntRoundTrip | load_test.js:88 | `parseInt(String(n), 10) == n` for every integer `n` |
| Js.ParseIntOfDigits | load_test.js:88 | a non-empty run of decimal digits, leading zeros included, parses as the number it denotes |
| Js.ParseInt | load_test.js:88 | defined as `parseInt(s, 10)`: trim, optional sign, digits; `ParseIntRoundTrip`, `ParseIntOfDigits` and `ParseIntUnsigned` state what it reads |
| Js.IntToString | run_all.js:21 | defined as `String(n)` for an integer; `ParseIntRoundTrip` states that `parseInt` reads it back |
| Js.ParseIntUnsigned | load_test.js:88 | text starting with a digit is read from its first character, with no white space or sign skipped |
| Env.UndefinedIsNaN | load_test.js:88 | `parseInt("undefined", 10)` is NaN |
| Env.ParseIntEnv | load_test.js:88 | a set variable parses as `parseInt` of its text; an unset one gives NaN |
| Env.ParseIntEnvOfText | load_test.js:88 | for every variable, set or not, the result equals `parseInt` of its ToString text, which is "undefined" when unset |
| Env.NumberOr | load_test.js:88 | the fallback of a number: a non-zero number is kept, NaN and 0 give the default, and the result is never 0 for a non-zero default |
| Env.StringOr | load_test.js:89 | the fallback of a string: a non-empty string is kept, an unset or empty one gives the default, never empty for a non-empty default |
| Env.FrontendEndpoint | calc_coverage.js:9 | a set, non-empty FRONTEND_ENDPOINT is used as it is; otherwise "http://localhost:3000" |
| Sums.SumOf | load_test.js:68-71 | defined as the `reduce` sum from the start; the lemmas below state its properties |
| Sums.SumOfAppend | load_test.js:68-71 | the sum over a concatenation is the sum of the sums |
| Sums.SumOfPermutation | load_test.js:68-71 | summing the same elements in another order gives the same total |
| Sums.SumOfBounds | load_test.js:68-71 | per-element bounds bound the total by length times bound |
| Probe.MeasuredTiming | load_test.js:12-29 | a timing exactly when `goto` and `evaluate` succeeded; navigation start is kept, and navigation start plus each duration is the raw event time |
| Probe.TestRender | load_test.js:8-33 | the probe rejects iff launching the browser, opening the page or closing the browser threw; otherwise it returns what the `try`/`catch` measured |
| Probe.NullOnlyFromPage | load_test.js:8-33 | the probe returns `null` iff its browser worked and the page failed to load or report |
| Probe.TimingIgnoresClockOrigin | load_test.js:21-22 | shifting all three raw timestamps by the same amount changes no duration |
| Probe.TimingOrder | load_test.js:21-22 | DOM-content-loaded before load event iff the durations are in that order; an event before navigation start gives a negative duration |
| Batch.LaunchIndices | load_test.js:47 | `Array.from({length: n}, (_, i) => …)` passes the indices 0 … n-1 in order |
| Batch.Collected | load_test.js:47-59 | defined as the `results` the mapper callbacks push, in settle order; the `Collected…` lemmas state its properties |
| Batch.SuccessCount | load_test.js:50 | at most one success per probe |
| Batch.Collect | load_test.js:47-59 | over any completion order: the entries are `Collected(order, outcomes)`, one per successful probe, each carrying its probe's timings and number i+1, request numbers unique, and probe i succeeded iff number i+1 is present |
| Batch.LaunchIndicesDistinct | load_test.js:47 | no launch index repeats |
| Batch.CompletionOrderFacts | load_test.js:59 | a completion order settles each of the n probes exactly once |
| Batch.CollectedAppend | load_test.js:51 | collecting a longer order appends to what was collected so far |
| Batch.CollectedPermutation | load_test.js:59 | orders that are permutations of each other collect the same entries |
| Batch.CollectedSound | load_test.js:50-55 | every entry records a successful probe, with that probe's timings and number |
| Batch.CollectedComplete | load_test.js:50-55 | every settled, successful probe has its entry |
| Batch.CollectedUnique | load_test.js:52 | with no index settled twice, no request number is repeated |
| Batch.CollectedInLaunchOrderLength | load_test.js:47-57 | in launch order, the first k probes yield one entry per success among them |
| Batch.CollectedLength | load_test.js:47-59 | over a completion order, one entry per successful probe |
| Batch.CollectedCoversSuccesses | load_test.js:47-59 | probe i succeeded iff request number i+1 is among the entries |
| Batch.CollectedProperties | load_test.js:47-59 | the four facts together, for any completion order |
| Batch.CollectedOrderIndependent | load_test.js:59 | two completion orders give the same entries up to order |
| Batch.Mean | load_test.js:68-71 | the mean exists iff there is a sample (else NaN), and mean times count is the sum |
| Batch.BatchAverages | load_test.js:68-71 | no averages iff no samples; each average times the count is that metric's sum |
| Batch.MeanWithinBounds | load_test.js:68-71 | the mean lies between the smallest and largest possible value |
| Batch.MeanOrderIndependent | load_test.js:68-71 | the mean does not depend on the order of the samples |
| Batch.AveragesOrderIndependent | load_test.js:59-71 | the averages do not depend on the order in which probes finished |
| Batch.MeanExample | load_test.js:68-71 | samples 100/150, 200/250 and 300/500 average to 200 and 300 |
| Batch.LaunchCount | load_test.js:47 | a non-negative length launches that many probes, and a negative one launches none |
| Batch.FirstRejection | load_test.js:59 | the position, in settle order, of the first probe to reject, with none before it; none at all when no settled probe rejected |
| Batch.ReturnedResults | load_test.js:49 | one value per probe, the value each returning probe returned |
| Batch.RejectionFound | load_test.js:59 | over a completion order, a first rejection exists iff some probe rejects |
| Batch.RunBatch | load_test.js:41-71 | RangeError iff `numRequests` is at least 2^32; otherwise an error iff some probe rejects, naming the first to reject in settle order; otherwise the collected entries (count, numbers within 1..numRequests, timings, uniqueness) and their averages |
| LoadTest.ConfigFromEnv | load_test.js:87-90 | the count is the parse when it is non-zero, else 20, so never 0; the name is "render_test_results_" + the raw text when it is non-empty, else + "20" |
| LoadTest.ResultsFileName | load_test.js:36 | the file name always ends in ".json" |
| LoadTest.ConfigFallback | load_test.js:88 | a set value that parses to NaN or 0 gives 20 probes |
| LoadTest.ResultsFileNameShape | load_test.js:36 | an absent or empty name gives "test_results.json", otherwise name + ".json" |
| LoadTest.ConfigDefaults | load_test.js:87-90 | with NUM_REQUESTS unset or empty: 20 probes, name "render_test_results_20" |
| LoadTest.ConfigForCount | load_test.js:87-90 | NUM_REQUESTS set to a positive count's numeral: that many probes, file "render_test_results_<n>.json" |
| LoadTest.ConfigLeadingZero | load_test.js:88-89 | "010" runs 10 probes but keeps "010" in the name |
| LoadTest.ConfigNotANumber | load_test.js:88-89 | "abc" runs 20 probes yet names the file after "abc" |
| LoadTest.ConfigOfParsed | load_test.js:87-90 | a value parsing to a non-zero `n` gives `n` probes and the name "render_test_results_" + the raw value |
| LoadTest.LoadTest | load_test.js:41-85 | nothing written iff the array length is invalid or a probe rejects, with the first rejection named; otherwise the batch of `RunBatch`, written under `ResultsFileName(config.name)` |
| RenderTest.LoadTestConfigured | rendertest.js:30-69 | with one probe: an error iff it rejects (request 1), no entry iff it returned `null`, otherwise the single entry numbered 1, whose timings are the averages |
| RunAll.CommandLine | run_all.js:21 | defined as the `exec` string; `CommandCarriesCount` states what it carries |
| RunAll.RequestLimit | run_all.js:8 | a non-zero parse is kept, NaN or 0 gives 100, so never 0; 100 when unset |
| RunAll.RequestLimitOfNumeral | run_all.js:8 | REQUEST_LIMIT set to the numeral of a non-zero n gives the limit n |
| RunAll.IncrementStep | run_all.js:9 | a non-zero parse is kept, NaN or 0 gives 10, so never 0; 10 when unset |
| RunAll.IncrementStepOfNumeral | run_all.js:9 | INCREMENT_STEP set to the numeral of a non-zero n gives the step n |
| RunAll.PlannedCounts | run_all.js:11-50 | the counts the loop visits: one per round, round i at step·(i+1) |
| RunAll.Schedule | run_all.js:15-51 | defined as the commands of the counts in order; `ScheduleOrder` and `SchedulePrefix` state their layout |
| RunAll.RunScripts | run_all.js:7-54 | the commands started are a prefix of the planned schedule, every one before the last succeeded; completed means the whole schedule ran and succeeded, failed means the last command started failed; a negative step above the limit runs nothing and completes |
| RunAll.Sweep | run_all.js:11-51 | the same, for a parsed limit and step |
| RunAll.NextPlannedCount | run_all.js:50 | adding the step leads to the next planned count, or past the limit after the last one |
| RunAll.RoundCountBound | run_all.js:15 | round i runs iff `step·(i+1) <= limit` |
| RunAll.PlannedCountsExact | run_all.js:11-51 | the last count is within the limit and one more step would pass it |
| RunAll.PlannedCountIsMultiple | run_all.js:11-50 | every planned count is a positive multiple of the step within the limit |
| RunAll.MultipleIsPlanned | run_all.js:11-50 | every positive multiple of the step within the limit is planned |
| RunAll.PlannedCountsAreMultiples | run_all.js:11-50 | count c is run iff 0 < c <= limit and step divides c |
| RunAll.PlanExhausted | run_all.js:15 | once the count passes the limit, every planned count has been run |
| RunAll.FirstCountIsStep | run_all.js:11 | the sweep starts at the step, and runs nothing when the step exceeds the limit |
| RunAll.PlannedCountsExample | run_all.js:8-15 | limit 30, step 10 visits 10, 20, 30 |
| RunAll.NegativeStepNeverStops | run_all.js:15-50 | with a negative step within the limit, the loop condition stays true for every round |
| RunAll.ScheduleOrder | run_all.js:19-48 | for each count, load_test.js comes right before draw_graph.js, and counts follow each other in order |
| RunAll.SchedulePrefix | run_all.js:15-51 | the commands of the first rounds are a prefix of the whole schedule |
| RunAll.CommandCarriesCount | run_all.js:21 | the shell command starts "NUM_REQUESTS=", and `parseInt` of the rest is the count |
| RunAll.SweepChildRunsItsCount | run_all.js:21 | every load_test.js the sweep starts runs the sweep's count of probes and writes "render_test_results_<count>.json" |
| CalcCoverage.TotalBytes | calc_coverage.js:37-38 | defined as the sum of the text lengths that the loop adds up |
| CalcCoverage.UsedBytes | calc_coverage.js:37-42 | defined as the sum of all range lengths that the inner loop adds up |
| CalcCoverage.Percentage | calc_coverage.js:44 | defined iff total is not 0, and percentage times total is 100 times used |
| CalcCoverage.CalculateResourceCoverage | calc_coverage.js:33-46 | total is the sum of text lengths, used is the sum of all range lengths, the percentage is their ratio; empty data gives 0/0 and NaN; over well-formed data 0 <= used <= total and the percentage lies in [0, 100] |
| CalcCoverage.EntryOrderIndependent | calc_coverage.js:37-38 | reordering entries changes neither total |
| CalcCoverage.RangeOrderIndependent | calc_coverage.js:39-41 | reordering the ranges inside entries changes neither total |
| CalcCoverage.CoveredSize | calc_coverage.js:39-41 | for disjoint ranges, used bytes equal the number of byte positions covered |
| CalcCoverage.EntryUsedWithinText | calc_coverage.js:38-41 | a well-formed entry uses between none and all of its text |
| CalcCoverage.UsedWithinTotal | calc_coverage.js:37-42 | over well-formed data, 0 <= usedBytes <= totalBytes |
| CalcCoverage.PercentageBounds | calc_coverage.js:44 | used within [0, total] gives a percentage within [0, 100] |
| CalcCoverage.CalculateCoverage | calc_coverage.js:48-69 | a record iff navigation succeeded; it carries the endpoint and, for CSS and JS, the used and total bytes and percentage of that data unchanged |
| CompareResults.Difference | compare_results.js:24-27 | defined iff both values are numbers; A's value plus the difference is B's |
| CompareResults.CompareAverages | compare_results.js:3-35 | the first failing step (reading A, reading B, A's averages, B's averages) names the error; otherwise B minus A on each metric, NaN exactly where either side is NaN |
| CompareResults.SwapNegates | compare_results.js:24-27 | swapping the files negates both differences |
| CompareResults.EqualAveragesGiveZero | compare_results.js:24-27 | equal averages differ by zero |
| CompareResults.ResultsIrrelevant | compare_results.js:10-11 | the `results` arrays play no part |
| CompareResults.CompareStoredBatches | compare_results.js:10-27 | two batches written by load_test.js compare by the difference of their averages, NaN on both metrics iff either batch is empty |
| DrawGraph.Labels | draw_graph.js:6 | one label per result |
| DrawGraph.DomContentLoadedTimes | draw_graph.js:7 | one point per result |
| DrawGraph.LoadEventTimes | draw_graph.js:8 | one point per result |
| DrawGraph.SeriesAligned | draw_graph.js:6-8 | point i of every series is result i: its label is "Request " followed by a numeral that parses back to the request number, and both times are the result's |
| DrawGraph.SeriesAppend | draw_graph.js:6-8 | one more result adds one point to the end of each series and keeps the others |
| DrawGraph.IndexOfFrom | draw_graph.js:35 | the first position at or after `from` where the pattern occurs, or none when it occurs nowhere there |
| DrawGraph.ReplaceFirst | draw_graph.js:35 | `replace` with a string pattern: unchanged when the pattern is absent; otherwise the replacement stands at the first occurrence, and the text before and after that occurrence is kept |
| DrawGraph.OutputFileName | draw_graph.js:35 | a name without ".json" is kept; otherwise ".png" stands where the first ".json" stood, and the rest of the name is kept |
| DrawGraph.SwappedAtFirst | draw_graph.js:35 | at the first ".json" in the file name, the image name is the text before it, then ".png", then the text after it |
| DrawGraph.NoExtensionUnchanged | draw_graph.js:35 | a name without ".json" is kept |
| DrawGraph.SuffixSwapped | draw_graph.js:35 | a name holding ".json" only as its suffix has its extension swapped for ".png" and the rest kept |
| DrawGraph.DotFreeBaseSwapped | draw_graph.js:35 | a base without a dot, followed by ".json", becomes base + ".png" |
| DrawGraph.FirstOccurrenceOnly | draw_graph.js:35 | only the first ".json" is replaced: "a.json.json" becomes "a.png.json" |
| DrawGraph.DigitNameSwapped | draw_graph.js:35 | "render_test_results_<digits>.json" becomes "render_test_results_<digits>.png" |
| DrawGraph.SweepImageName | draw_graph.js:35 | the replacement maps the name load_test.js writes for sweep count n to "render_test_results_<n>.png" (the script itself only charts the count-10 file) |
| DrawGraph.NamedFileChart | draw_graph.js:41 | the file the script names, "render_test_results_10.json", is charted as "render_test_results_10.png" |

## Left out

- The browser (launch, new page, `goto` with its 10 s timeout, `page.evaluate`, starting and stopping coverage, `browser.close`) enters only as its result.
- Reading and writing files, `JSON.stringify`/`JSON.parse`, QuickChart rendering, `exec`, and console logging are left out. These are I/O. The outcomes that decide what the scripts do are parameters: the parsed results files in compare_results.js (`Result<ResultsFile, ReadError>`), each child process's success (`succeeds`), and the browser's coverage report (`Option<…>`).
- LoadTest.LoadTest, CalcCoverage.CalculateCoverage: writing a file is assumed to succeed. The model does not capture a `fs.writeFileSync` that throws. At load_test.js:37 that would reject `loadTest`, and the script would exit with an error. At calc_coverage.js:72 the `catch` at calc_coverage.js:74-75 would log it, and no file would be written.
- `toFixed(2)` formatting is left out, together with the floating-point arithmetic and the string-to-number coercion it causes. Averages, differences and percentages are exact `real`s, and a stored "NaN" is `None`.
- Timings are integers (milliseconds), as `performance.timing` gives them.
- `Date.now()` in the coverage file name is left out: it is a clock.
- The hard-coded file paths in compare_results.js:38-39 and draw_graph.js:41 are wiring. draw_graph.js always charts render_test_results_10.json whatever count the sweep is at; `NamedFileChart` states only that file's image name.
- `performance.timing` values are taken as given and never validated.
- String lengths count Dafny `char`s, not UTF-16 code units, so `text.length` of text outside the Basic Multilingual Plane differs.
- `parseInt` is modelled for decimal numerals of any size. The model does not capture the loss of precision for numerals beyond 2^53, nor exponent notation in `String(n)` for n ≥ 10^21.
- RunAll.RunScripts: requires a positive parsed step or one above the limit. With a negative step within the limit the loop guard never becomes false (`NegativeStepNeverStops`). The run then ends only at a failing child process, and never if every child succeeds, so no terminating method can model that run.
- RunAll.Sweep: requires the same, for the same reason.
- `Batch.Collect` and `RunBatch`: JavaScript runs the probes concurrently. The model takes only the order in which they settle, which is all that affects `results`.
- After `Promise.all` rejects, the other probes still run and push into `results`, but nothing reads it any more; the model stops at the rejection. The unhandled rejection of `loadTest` makes the script exit with an error, which run_all.js sees as a failed child process (`succeeds` false).

`parseInt` gives NaN on an unset variable (the string "undefined") and on a non-numeric value, and `||` replaces NaN and 0 by the default. The name of the results file uses the variable's raw text (`NUM_REQUESTS || 20`), not the parsed count. `LoadTest.ConfigLeadingZero` and `LoadTest.ConfigNotANumber` state the consequences.

Further behaviour of the code that the model keeps:

- A negative duration is returned, not rejected as a failure (`Probe.TimingOrder`).
- A probe measures only the DOM-content-loaded and load-event times.
- An empty batch stores NaN averages.
- The comparison reports only the two differences. A side whose averages field is absent is an error, and a NaN difference is NaN.
- The sweep starts at the step.
- A failing child process ends the sweep through the rejected promise, which the top-level `catch` logs.
