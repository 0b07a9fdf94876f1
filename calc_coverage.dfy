/**
 * calc_coverage.js: byte accounting over the CSS and JS coverage that the
 * browser reports for one page load.  Each coverage entry is a resource's
 * text with the byte ranges that ran; `calculateResourceCoverage` adds up
 * the text lengths and the range lengths, and the percentage is their
 * ratio.
 *
 * The browser session (launch, navigation, starting and stopping coverage)
 * is outside this module: its result is an input, `None` when navigation,
 * the browser start-up or a coverage call threw.
 */
module CalcCoverage {
  import opened Wrappers
  import opened Sums
  import opened Env

  /** A used byte range `[start, end)` of a resource's text. */
  datatype CoverageRange = CoverageRange(start: int, end: int)

  /** One resource: its text and the ranges of it that were used. */
  datatype CoverageEntry = CoverageEntry(text: string, ranges: seq<CoverageRange>)

  /**
   * What `calculateResourceCoverage` returns.  The percentage is `None`
   * where JavaScript's `usedBytes / totalBytes` has no finite value
   * (`totalBytes` is 0).
   */
  datatype CoverageStats = CoverageStats(totalBytes: int, usedBytes: int, coveragePercentage: Option<real>)

  /** One of the two objects under `cssCoverage` and `jsCoverage` in the written record. */
  datatype ResourceCoverage = ResourceCoverage(percentage: Option<real>, usedBytes: int, totalBytes: int)

  /** The record written to `coverage_results_<timestamp>.json`. */
  datatype CoverageResults = CoverageResults(url: string, cssCoverage: ResourceCoverage, jsCoverage: ResourceCoverage)

  // ---------------------------------------------------------------------
  // The totals, as sums

  function RangeLength(r: CoverageRange): int {
    r.end - r.start
  }

  function TextLength(e: CoverageEntry): int {
    |e.text|
  }

  /** The bytes an entry's ranges cover, counted range by range. */
  function EntryUsedBytes(e: CoverageEntry): int {
    SumOf(e.ranges, RangeLength)
  }

  function TotalBytes(data: seq<CoverageEntry>): int {
    SumOf(data, TextLength)
  }

  function UsedBytes(data: seq<CoverageEntry>): int {
    SumOf(data, EntryUsedBytes)
  }

  /** `(usedBytes / totalBytes) * 100`, defined exactly when `totalBytes` is not 0. */
  function Percentage(used: int, total: int): (p: Option<real>)
    ensures p.Some? <==> total != 0
    ensures p.Some? ==> p.value * (total as real) == (used as real) * 100.0
  {
    if total == 0 then None else Some((used as real) / (total as real) * 100.0)
  }

  /** What coverage data the browser can report: ranges inside the text, no byte counted twice. */
  ghost predicate WellFormedEntry(e: CoverageEntry) {
    && (forall i :: 0 <= i < |e.ranges| ==> 0 <= e.ranges[i].start <= e.ranges[i].end <= |e.text|)
    && Disjoint(e.ranges)
  }

  ghost predicate Disjoint(rs: seq<CoverageRange>) {
    forall i, j :: 0 <= i < j < |rs| ==> rs[i].end <= rs[j].start || rs[j].end <= rs[i].start
  }

  // ---------------------------------------------------------------------
  // calculateResourceCoverage

  /** `calculateResourceCoverage(coverageData)`: the two nested accumulation loops and the percentage. */
  method CalculateResourceCoverage(coverageData: seq<CoverageEntry>) returns (stats: CoverageStats)
    ensures stats.totalBytes == TotalBytes(coverageData)
    ensures stats.usedBytes == UsedBytes(coverageData)
    ensures stats.coveragePercentage == Percentage(stats.usedBytes, stats.totalBytes)
    ensures coverageData == [] ==> stats == CoverageStats(0, 0, None)
    ensures (forall i :: 0 <= i < |coverageData| ==> WellFormedEntry(coverageData[i])) ==>
      0 <= stats.usedBytes <= stats.totalBytes
      && (stats.coveragePercentage.Some? ==> 0.0 <= stats.coveragePercentage.value <= 100.0)
  {
    var totalBytes := 0;
    var usedBytes := 0;
    var i := 0;
    while i < |coverageData|
      invariant 0 <= i <= |coverageData|
      invariant totalBytes == TotalBytes(coverageData[..i])
      invariant usedBytes == UsedBytes(coverageData[..i])
    {
      var entry := coverageData[i];
      assert coverageData[..i + 1][..i] == coverageData[..i];
      totalBytes := totalBytes + |entry.text|;
      var j := 0;
      while j < |entry.ranges|
        invariant 0 <= j <= |entry.ranges|
        invariant usedBytes == UsedBytes(coverageData[..i]) + SumOf(entry.ranges[..j], RangeLength)
      {
        assert entry.ranges[..j + 1][..j] == entry.ranges[..j];
        usedBytes := usedBytes + (entry.ranges[j].end - entry.ranges[j].start);
        j := j + 1;
      }
      assert entry.ranges[..j] == entry.ranges;
      i := i + 1;
    }
    assert coverageData[..i] == coverageData;
    stats := CoverageStats(totalBytes, usedBytes, Percentage(usedBytes, totalBytes));
    if forall k :: 0 <= k < |coverageData| ==> WellFormedEntry(coverageData[k]) {
      UsedWithinTotal(coverageData);
      PercentageBounds(usedBytes, totalBytes);
    }
  }

  // ---------------------------------------------------------------------
  // The totals ignore order

  /** Reordering the entries changes neither total. */
  lemma EntryOrderIndependent(a: seq<CoverageEntry>, b: seq<CoverageEntry>)
    requires multiset(a) == multiset(b)
    ensures TotalBytes(a) == TotalBytes(b) && UsedBytes(a) == UsedBytes(b)
  {
    SumOfPermutation(a, b, TextLength);
    SumOfPermutation(a, b, EntryUsedBytes);
  }

  /** Reordering the ranges inside each entry changes neither total. */
  lemma {:induction false} RangeOrderIndependent(a: seq<CoverageEntry>, b: seq<CoverageEntry>)
    requires |a| == |b|
    requires forall i :: 0 <= i < |a| ==> a[i].text == b[i].text && multiset(a[i].ranges) == multiset(b[i].ranges)
    ensures TotalBytes(a) == TotalBytes(b) && UsedBytes(a) == UsedBytes(b)
  {
    if a != [] {
      var n := |a| - 1;
      RangeOrderIndependent(a[..n], b[..n]);
      SumOfPermutation(a[n].ranges, b[n].ranges, RangeLength);
    }
  }

  // ---------------------------------------------------------------------
  // Well-formed data: used bytes never exceed total bytes

  /** The positions `lo, lo + 1, …, hi - 1`. */
  ghost function Interval(lo: int, hi: int): set<int>
    decreases hi - lo
  {
    if lo >= hi then {} else Interval(lo, hi - 1) + {hi - 1}
  }

  /** The byte positions the ranges cover. */
  ghost function Covered(rs: seq<CoverageRange>): set<int> {
    if rs == [] then {} else Covered(rs[..|rs| - 1]) + Interval(rs[|rs| - 1].start, rs[|rs| - 1].end)
  }

  lemma {:induction false} IntervalMembers(lo: int, hi: int, k: int)
    ensures k in Interval(lo, hi) <==> lo <= k < hi
    decreases hi - lo
  {
    if lo < hi {
      IntervalMembers(lo, hi - 1, k);
    }
  }

  lemma {:induction false} IntervalSize(lo: int, hi: int)
    requires lo <= hi
    ensures |Interval(lo, hi)| == hi - lo
    decreases hi - lo
  {
    if lo < hi {
      IntervalSize(lo, hi - 1);
      IntervalMembers(lo, hi - 1, hi - 1);
    }
  }

  /** A covered position lies in one of the ranges. */
  lemma {:induction false} CoveredByRange(rs: seq<CoverageRange>, k: int)
    requires k in Covered(rs)
    ensures exists i :: 0 <= i < |rs| && rs[i].start <= k < rs[i].end
  {
    var n := |rs| - 1;
    IntervalMembers(rs[n].start, rs[n].end, k);
    if k !in Interval(rs[n].start, rs[n].end) {
      CoveredByRange(rs[..n], k);
      var i :| 0 <= i < n && rs[..n][i].start <= k < rs[..n][i].end;
      assert rs[i] == rs[..n][i];
    }
  }

  lemma DisjointPrefix(rs: seq<CoverageRange>, n: nat)
    requires n <= |rs| && Disjoint(rs)
    ensures Disjoint(rs[..n])
  {
    forall i, j | 0 <= i < j < n
      ensures rs[..n][i].end <= rs[..n][j].start || rs[..n][j].end <= rs[..n][i].start
    {
      assert rs[..n][i] == rs[i] && rs[..n][j] == rs[j];
    }
  }

  /** Under disjointness the last range shares no position with the ones before it. */
  lemma LastRangeApart(rs: seq<CoverageRange>)
    requires rs != [] && Disjoint(rs)
    ensures Covered(rs[..|rs| - 1]) * Interval(rs[|rs| - 1].start, rs[|rs| - 1].end) == {}
  {
    var n := |rs| - 1;
    var front, last := rs[..n], rs[n];
    forall k | k in Covered(front)
      ensures k !in Interval(last.start, last.end)
    {
      CoveredByRange(front, k);
      var i :| 0 <= i < |front| && front[i].start <= k < front[i].end;
      assert front[i] == rs[i];
      IntervalMembers(last.start, last.end, k);
    }
  }

  /** Disjoint ranges cover exactly as many positions as their lengths add up to. */
  lemma {:induction false} CoveredSize(rs: seq<CoverageRange>)
    requires forall i :: 0 <= i < |rs| ==> rs[i].start <= rs[i].end
    requires Disjoint(rs)
    ensures |Covered(rs)| == SumOf(rs, RangeLength)
  {
    if rs != [] {
      var n := |rs| - 1;
      DisjointPrefix(rs, n);
      CoveredSize(rs[..n]);
      IntervalSize(rs[n].start, rs[n].end);
      LastRangeApart(rs);
    }
  }

  lemma SubsetSize(a: set<int>, b: set<int>)
    requires a <= b
    ensures |a| <= |b|
  {
    assert b == a + (b - a);
    assert a * (b - a) == {};
  }

  /** Ranges inside `[0, n)` cover only positions of `[0, n)`. */
  lemma {:induction false} CoveredWithinText(rs: seq<CoverageRange>, n: int)
    requires forall i :: 0 <= i < |rs| ==> 0 <= rs[i].start && rs[i].end <= n
    ensures Covered(rs) <= Interval(0, n)
  {
    if rs != [] {
      var last := rs[|rs| - 1];
      CoveredWithinText(rs[..|rs| - 1], n);
      forall k | k in Interval(last.start, last.end)
        ensures k in Interval(0, n)
      {
        IntervalMembers(last.start, last.end, k);
        IntervalMembers(0, n, k);
      }
    }
  }

  /** A well-formed entry uses between none and all of its text. */
  lemma EntryUsedWithinText(e: CoverageEntry)
    requires WellFormedEntry(e)
    ensures 0 <= EntryUsedBytes(e) <= |e.text|
  {
    CoveredSize(e.ranges);
    CoveredWithinText(e.ranges, |e.text|);
    IntervalSize(0, |e.text|);
    SubsetSize(Covered(e.ranges), Interval(0, |e.text|));
  }

  /** Over well-formed data `usedBytes` lies between 0 and `totalBytes`. */
  lemma {:induction false} UsedWithinTotal(data: seq<CoverageEntry>)
    requires forall i :: 0 <= i < |data| ==> WellFormedEntry(data[i])
    ensures 0 <= UsedBytes(data) <= TotalBytes(data)
  {
    if data != [] {
      var n := |data| - 1;
      UsedWithinTotal(data[..n]);
      EntryUsedWithinText(data[n]);
    }
  }

  /** Used bytes between 0 and the total give a percentage between 0 and 100. */
  lemma PercentageBounds(used: int, total: int)
    requires 0 <= used <= total
    ensures Percentage(used, total).Some? ==> 0.0 <= Percentage(used, total).value <= 100.0
  {
    if total != 0 {
      var p := Percentage(used, total).value;
      assert p * (total as real) == (used as real) * 100.0;
      assert p * (total as real) <= 100.0 * (total as real);
    }
  }

  // ---------------------------------------------------------------------
  // calculateCoverage

  function Report(stats: CoverageStats): ResourceCoverage {
    ResourceCoverage(stats.coveragePercentage, stats.usedBytes, stats.totalBytes)
  }

  /**
   * `calculateCoverage()` from the browser's report on: the record it
   * writes, or `None` when navigation, the browser start-up or a coverage
   * call threw and the error was logged instead.
   */
  method CalculateCoverage(endpointEnv: Option<string>, capture: Option<(seq<CoverageEntry>, seq<CoverageEntry>)>)
    returns (written: Option<CoverageResults>)
    ensures written.Some? <==> capture.Some?
    ensures written.Some? ==>
      var css, js := capture.value.0, capture.value.1;
      && written.value.url == FrontendEndpoint(endpointEnv)
      && written.value.cssCoverage ==
        ResourceCoverage(Percentage(UsedBytes(css), TotalBytes(css)), UsedBytes(css), TotalBytes(css))
      && written.value.jsCoverage ==
        ResourceCoverage(Percentage(UsedBytes(js), TotalBytes(js)), UsedBytes(js), TotalBytes(js))
  {
    var frontendEndpoint := FrontendEndpoint(endpointEnv);
    if capture.None? {
      return None;
    }
    var (cssCoverage, jsCoverage) := capture.value;
    var cssStats := CalculateResourceCoverage(cssCoverage);
    var jsStats := CalculateResourceCoverage(jsCoverage);
    written := Some(CoverageResults(frontendEndpoint, Report(cssStats), Report(jsStats)));
  }
}
