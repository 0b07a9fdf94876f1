/**
 * draw_graph.js: turns a results file into the three series of a line
 * chart (labels, DOM-content-loaded times, load-event times) and names the
 * image after the file, with its first ".json" replaced by ".png".
 *
 * Rendering the chart and writing the image are outside this module.
 */
module DrawGraph {
  import opened Wrappers
  import opened Js
  import Batch
  import LoadTest

  // ---------------------------------------------------------------------
  // The chart's series

  const LabelPrefix := "Request "

  /** `results.map((r) => \`Request ${r.requestNumber}\`)`. */
  function Labels(results: seq<Batch.Sample>): (labels: seq<string>)
    ensures |labels| == |results|
  {
    seq(|results|, i requires 0 <= i < |results| => LabelPrefix + IntToString(results[i].requestNumber))
  }

  /** `results.map((r) => r.domContentLoaded)`. */
  function DomContentLoadedTimes(results: seq<Batch.Sample>): (times: seq<int>)
    ensures |times| == |results|
  {
    seq(|results|, i requires 0 <= i < |results| => results[i].domContentLoaded)
  }

  /** `results.map((r) => r.loadEvent)`. */
  function LoadEventTimes(results: seq<Batch.Sample>): (times: seq<int>)
    ensures |times| == |results|
  {
    seq(|results|, i requires 0 <= i < |results| => results[i].loadEvent)
  }

  /**
   * The three series line up with the results, in results order: point
   * `i` of the chart is sample `i`, and its label reads back as that
   * sample's request number.
   */
  lemma SeriesAligned(results: seq<Batch.Sample>, i: nat)
    requires i < |results|
    ensures Labels(results)[i][..|LabelPrefix|] == LabelPrefix
    ensures ParseInt(Labels(results)[i][|LabelPrefix|..]) == Some(results[i].requestNumber)
    ensures DomContentLoadedTimes(results)[i] == results[i].domContentLoaded
    ensures LoadEventTimes(results)[i] == results[i].loadEvent
  {
    var shown := Labels(results)[i];
    assert shown[|LabelPrefix|..] == IntToString(results[i].requestNumber);
    ParseIntRoundTrip(results[i].requestNumber);
  }

  /** Extending the results extends every series by the new point and keeps the earlier ones. */
  lemma SeriesAppend(results: seq<Batch.Sample>, s: Batch.Sample)
    ensures Labels(results + [s]) == Labels(results) + [LabelPrefix + IntToString(s.requestNumber)]
    ensures DomContentLoadedTimes(results + [s]) == DomContentLoadedTimes(results) + [s.domContentLoaded]
    ensures LoadEventTimes(results + [s]) == LoadEventTimes(results) + [s.loadEvent]
  {
  }

  // ---------------------------------------------------------------------
  // The output file name

  predicate OccursAt(s: string, pat: string, i: nat) {
    i + |pat| <= |s| && s[i..i + |pat|] == pat
  }

  /** `s.indexOf(pat, from)`: the first position at or after `from` where `pat` occurs. */
  function IndexOfFrom(s: string, pat: string, from: nat): (r: Option<nat>)
    requires from <= |s|
    ensures r.Some? ==> from <= r.value && OccursAt(s, pat, r.value)
    ensures r.Some? ==> forall j :: from <= j < r.value ==> !OccursAt(s, pat, j)
    ensures r.None? ==> forall j :: from <= j <= |s| ==> !OccursAt(s, pat, j)
    decreases |s| - from
  {
    if OccursAt(s, pat, from) then Some(from)
    else if from == |s| then None
    else IndexOfFrom(s, pat, from + 1)
  }

  function IndexOf(s: string, pat: string): Option<nat> {
    IndexOfFrom(s, pat, 0)
  }

  /**
   * `s.replace(pat, rep)` with a string pattern: only the first occurrence is
   * replaced; the text before it and the text after it are kept.
   */
  function ReplaceFirst(s: string, pat: string, rep: string): (r: string)
    ensures IndexOf(s, pat).None? ==> r == s
    ensures IndexOf(s, pat).Some? ==> var i := IndexOf(s, pat).value;
      && |r| + |pat| == |s| + |rep|
      && r[..i] == s[..i]
      && r[i..i + |rep|] == rep
      && r[i + |rep|..] == s[i + |pat|..]
  {
    match IndexOf(s, pat)
    case None => s
    case Some(i) => s[..i] + rep + s[i + |pat|..]
  }

  /** `fileName.replace('.json', '.png')`: ".png" stands where the first ".json" stood. */
  function OutputFileName(fileName: string): (image: string)
    ensures IndexOf(fileName, ".json").None? ==> image == fileName
    ensures IndexOf(fileName, ".json").Some? ==> var i := IndexOf(fileName, ".json").value;
      && |image| + 1 == |fileName|
      && image[..i] == fileName[..i]
      && image[i..i + 4] == ".png"
      && image[i + 4..] == fileName[i + 5..]
  {
    ReplaceFirst(fileName, ".json", ".png")
  }

  /** At the first ".json", the name is cut in two and ".png" is put between the parts. */
  lemma SwappedAtFirst(fileName: string, i: nat)
    requires IndexOf(fileName, ".json") == Some(i)
    ensures OutputFileName(fileName) == fileName[..i] + ".png" + fileName[i + 5..]
  {
    var image := OutputFileName(fileName);
    assert image == image[..i] + image[i..i + 4] + image[i + 4..];
  }

  /** A name with no ".json" in it is kept as it is. */
  lemma NoExtensionUnchanged(fileName: string)
    requires forall j :: 0 <= j <= |fileName| ==> !OccursAt(fileName, ".json", j)
    ensures OutputFileName(fileName) == fileName
  {
    assert IndexOf(fileName, ".json").None?;
  }

  /** Where ".json" occurs only as the suffix, the extension is swapped and the rest is kept. */
  lemma SuffixSwapped(base: string)
    requires forall j :: 0 <= j < |base| ==> !OccursAt(base + ".json", ".json", j)
    ensures OutputFileName(base + ".json") == base + ".png"
  {
    var s := base + ".json";
    assert OccursAt(s, ".json", |base|) by {
      assert s[|base|..|base| + 5] == ".json";
    }
    var i := IndexOf(s, ".json").value;
    assert i == |base|;
    assert s[..i] == base;
  }

  /** A name without a dot before its ".json" suffix satisfies the condition of `SuffixSwapped`. */
  lemma DotFreeBaseSwapped(base: string)
    requires forall k :: 0 <= k < |base| ==> base[k] != '.'
    ensures OutputFileName(base + ".json") == base + ".png"
  {
    var s := base + ".json";
    forall j | 0 <= j < |base|
      ensures !OccursAt(s, ".json", j)
    {
      if j + 5 <= |s| {
        assert s[j..j + 5][0] == s[j] == base[j];
      }
    }
    SuffixSwapped(base);
  }

  /** Only the first ".json" is replaced: "a.json.json" becomes "a.png.json". */
  lemma FirstOccurrenceOnly(s: string)
    requires s == "a.json.json"
    ensures OutputFileName(s) == "a.png.json"
  {
    FirstJsonAtOne(s);
    SwappedAtFirst(s, 1);
    assert s[..1] == "a" && s[6..] == ".json";
  }

  lemma FirstJsonAtOne(s: string)
    requires s == "a.json.json"
    ensures IndexOf(s, ".json") == Some(1)
  {
    assert !OccursAt(s, ".json", 0) by {
      assert s[0] != '.';
    }
    assert OccursAt(s, ".json", 1) by {
      assert s[1..6] == ".json";
    }
  }

  /**
   * The name load_test.js writes for the sweep's count `n`,
   * "render_test_results_<n>.json", maps under this replacement to
   * "render_test_results_<n>.png".  The script itself always charts the
   * file for 10 (`NamedFileChart`).
   */
  lemma SweepImageName(n: int)
    requires n > 0
    ensures OutputFileName(LoadTest.ResultsFileName(LoadTest.ConfigFromEnv(Some(IntToString(n))).name))
      == "render_test_results_" + IntToString(n) + ".png"
  {
    LoadTest.ConfigForCount(n);
    DigitNameSwapped(IntToString(n));
  }

  lemma DigitNameSwapped(digits: string)
    requires AllDigits(digits)
    ensures OutputFileName("render_test_results_" + digits + ".json") == "render_test_results_" + digits + ".png"
  {
    var base := "render_test_results_" + digits;
    forall k | 0 <= k < |base|
      ensures base[k] != '.'
    {
      if k >= 20 {
        assert base[k] == digits[k - 20];
      }
    }
    DotFreeBaseSwapped(base);
  }

  /** The chart drawn for the file the script names, "render_test_results_10.json". */
  lemma NamedFileChart(fileName: string)
    requires fileName == "render_test_results_10.json"
    ensures OutputFileName(fileName) == "render_test_results_10.png"
  {
    DigitNameSwapped("10");
    NamedFileParts(fileName);
    NamedImageParts();
  }

  lemma NamedFileParts(fileName: string)
    requires fileName == "render_test_results_10.json"
    ensures fileName == "render_test_results_" + "10" + ".json"
  {
  }

  lemma NamedImageParts()
    ensures "render_test_results_" + "10" + ".png" == "render_test_results_10.png"
  {
  }
}
