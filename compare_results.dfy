/**
 * compare_results.js: reads two results files written by load_test.js and
 * reports, per metric, how much larger file B's average is than file A's.
 *
 * Reading and parsing a file is an input: `Err` when `readFileSync` or
 * `JSON.parse` threw.  The averages are stored as `toFixed(2)` strings; the
 * model keeps their numeric value, with `None` for the string "NaN" that an
 * empty batch writes, which JavaScript's subtraction turns into NaN.
 */
module CompareResults {
  import opened Wrappers
  import Batch

  /** The `averages` object of a parsed results file; `None` for a value that reads as NaN. */
  datatype StoredAverages = StoredAverages(averageDOMContentLoaded: Option<real>, averageLoadEvent: Option<real>)

  /** A parsed results file; `averages` is `None` when the file has no such field. */
  datatype ResultsFile = ResultsFile(results: seq<Batch.Sample>, averages: Option<StoredAverages>)

  /** Why `readFileSync` or `JSON.parse` threw. */
  datatype ReadError = Unreadable | NotJson

  datatype FileId = FileA | FileB

  /** The error `compareAverages` catches and logs. */
  datatype CompareError =
    | ReadFailed(file: FileId, reason: ReadError)
    | MissingAverages(file: FileId)  // reading a field of `undefined` throws a TypeError

  /** What `compareAverages` reports; a difference is `None` where it is NaN. */
  datatype Comparison =
    | Compared(domDifference: Option<real>, loadDifference: Option<real>)
    | Failed(error: CompareError)

  /** `b - a` on numbers that may be NaN. */
  function Difference(a: Option<real>, b: Option<real>): (d: Option<real>)
    ensures d.Some? <==> a.Some? && b.Some?
    ensures d.Some? ==> a.value + d.value == b.value
  {
    if a.Some? && b.Some? then Some(b.value - a.value) else None
  }

  /**
   * `compareAverages(filePathA, filePathB)`: file A is read, then file B,
   * then A's averages are logged before B's, so the first of these steps
   * that throws names the error; nothing escapes the `catch`.
   */
  function CompareAverages(fileA: Result<ResultsFile, ReadError>, fileB: Result<ResultsFile, ReadError>)
    : (c: Comparison)
    ensures fileA.Err? ==> c == Failed(ReadFailed(FileA, fileA.error))
    ensures fileA.Ok? && fileB.Err? ==> c == Failed(ReadFailed(FileB, fileB.error))
    ensures fileA.Ok? && fileB.Ok? && fileA.value.averages.None? ==> c == Failed(MissingAverages(FileA))
    ensures fileA.Ok? && fileB.Ok? && fileA.value.averages.Some? && fileB.value.averages.None? ==>
      c == Failed(MissingAverages(FileB))
    ensures c.Compared? <==> fileA.Ok? && fileB.Ok? && fileA.value.averages.Some? && fileB.value.averages.Some?
    ensures c.Compared? ==>
      var a, b := fileA.value.averages.value, fileB.value.averages.value;
      && (c.domDifference.Some? <==> a.averageDOMContentLoaded.Some? && b.averageDOMContentLoaded.Some?)
      && (c.domDifference.Some? ==>
          c.domDifference.value == b.averageDOMContentLoaded.value - a.averageDOMContentLoaded.value)
      && (c.loadDifference.Some? <==> a.averageLoadEvent.Some? && b.averageLoadEvent.Some?)
      && (c.loadDifference.Some? ==>
          c.loadDifference.value == b.averageLoadEvent.value - a.averageLoadEvent.value)
  {
    match (fileA, fileB)
    case (Err(e), _) => Failed(ReadFailed(FileA, e))
    case (Ok(_), Err(e)) => Failed(ReadFailed(FileB, e))
    case (Ok(dataA), Ok(dataB)) =>
      match (dataA.averages, dataB.averages)
      case (None, _) => Failed(MissingAverages(FileA))
      case (Some(_), None) => Failed(MissingAverages(FileB))
      case (Some(averagesA), Some(averagesB)) =>
        Compared(
          Difference(averagesA.averageDOMContentLoaded, averagesB.averageDOMContentLoaded),
          Difference(averagesA.averageLoadEvent, averagesB.averageLoadEvent))
  }

  function Negate(d: Option<real>): Option<real> {
    if d.Some? then Some(-d.value) else None
  }

  /** Swapping the files negates both differences. */
  lemma SwapNegates(a: ResultsFile, b: ResultsFile)
    requires a.averages.Some? && b.averages.Some?
    ensures var ab, ba := CompareAverages(Ok(a), Ok(b)), CompareAverages(Ok(b), Ok(a));
      ab.Compared? && ba.Compared?
      && ba.domDifference == Negate(ab.domDifference)
      && ba.loadDifference == Negate(ab.loadDifference)
  {
  }

  /** Two files with the same numeric averages differ by zero on both metrics. */
  lemma EqualAveragesGiveZero(a: ResultsFile, b: ResultsFile, dom: real, load: real)
    requires a.averages == Some(StoredAverages(Some(dom), Some(load)))
    requires b.averages == a.averages
    ensures CompareAverages(Ok(a), Ok(b)) == Compared(Some(0.0), Some(0.0))
  {
  }

  /** Only the `averages` objects are read: the `results` arrays change nothing. */
  lemma ResultsIrrelevant(a: ResultsFile, b: ResultsFile, resultsA: seq<Batch.Sample>, resultsB: seq<Batch.Sample>)
    ensures CompareAverages(Ok(a), Ok(b)) ==
      CompareAverages(Ok(a.(results := resultsA)), Ok(b.(results := resultsB)))
  {
  }

  // ---------------------------------------------------------------------
  // Comparing what load_test.js wrote

  /** The file load_test.js writes for a batch: an empty batch stores "NaN" for both averages. */
  function Stored(record: Batch.BatchRecord): ResultsFile {
    ResultsFile(record.results, Some(
      match record.averages
      case None => StoredAverages(None, None)
      case Some(av) => StoredAverages(Some(av.averageDOMContentLoaded), Some(av.averageLoadEvent))))
  }

  /**
   * Two batches' files compare by the difference of their averages, which
   * is NaN on both metrics when either batch collected no sample.
   */
  lemma CompareStoredBatches(recordA: Batch.BatchRecord, recordB: Batch.BatchRecord)
    requires recordA.averages == Batch.BatchAverages(recordA.results)
    requires recordB.averages == Batch.BatchAverages(recordB.results)
    ensures var c := CompareAverages(Ok(Stored(recordA)), Ok(Stored(recordB)));
      && c.Compared?
      && (c.domDifference.None? <==> recordA.results == [] || recordB.results == [])
      && (c.loadDifference.None? <==> recordA.results == [] || recordB.results == [])
      && (c.domDifference.Some? ==>
          c.domDifference.value == recordB.averages.value.averageDOMContentLoaded
            - recordA.averages.value.averageDOMContentLoaded)
      && (c.loadDifference.Some? ==>
          c.loadDifference.value == recordB.averages.value.averageLoadEvent - recordA.averages.value.averageLoadEvent)
  {
  }
}
