/**
 * load_test.js: the configuration read from the environment, the batch of
 * `loadTest`, and the file it writes the batch to.
 */
module LoadTest {
  import opened Wrappers
  import opened Js
  import opened Env
  import opened Probe
  import opened Batch

  /** `config`: how many probes to launch and the name of the results file. */
  datatype Config = Config(numRequests: int, name: Option<string>)

  /** A results file as `writeResultsToFile` leaves it (formatting by `JSON.stringify` and `toFixed(2)` aside). */
  datatype Written = Written(fileName: string, contents: BatchRecord)

  /**
   * The module-level `config`: `numRequests` is `parseInt(NUM_REQUESTS, 10) || 20`,
   * while `name` interpolates the raw variable, `NUM_REQUESTS || 20`.
   */
  function ConfigFromEnv(numRequestsEnv: Option<string>): (c: Config)
    ensures c.numRequests != 0
    ensures var p := ParseIntEnv(numRequestsEnv); p.Some? && p.value != 0 ==> c.numRequests == p.value
    ensures var p := ParseIntEnv(numRequestsEnv); p.None? || p.value == 0 ==> c.numRequests == 20
    ensures numRequestsEnv.Some? && numRequestsEnv.value != [] ==>
      c.name == Some("render_test_results_" + numRequestsEnv.value)
    ensures numRequestsEnv.None? || numRequestsEnv.value == [] ==> c.name == Some("render_test_results_" + "20")
  {
    Config(NumberOr(ParseIntEnv(numRequestsEnv), 20), Some("render_test_results_" + StringOr(numRequestsEnv, "20")))
  }

  /** `${config.name || 'test_results'}.json`. */
  function ResultsFileName(name: Option<string>): (fileName: string)
    ensures |fileName| > 5 && fileName[|fileName| - 5..] == ".json"
  {
    StringOr(name, "test_results") + ".json"
  }

  /** The file name is the configured name with ".json" appended, or "test_results.json" when there is no name. */
  lemma ResultsFileNameShape(name: Option<string>)
    ensures name.None? || name.value == [] ==> ResultsFileName(name) == "test_results.json"
    ensures name.Some? && name.value != [] ==> ResultsFileName(name) == name.value + ".json"
  {
  }

  /** With NUM_REQUESTS unset or empty, the script runs 20 probes and names its file after 20. */
  lemma ConfigDefaults(numRequestsEnv: Option<string>)
    requires numRequestsEnv.None? || numRequestsEnv.value == []
    ensures ConfigFromEnv(numRequestsEnv) == Config(20, Some("render_test_results_20"))
  {
    assert ParseIntEnv(numRequestsEnv) == None by {
      if numRequestsEnv.Some? {
        assert TrimStart([]) == [];
        assert ParseDigits([]) == None;
      }
    }
    assert StringOr(numRequestsEnv, "20") == "20";
    assert "render_test_results_" + "20" == "render_test_results_20";
  }

  /**
   * For the value the sweep passes (`NUM_REQUESTS=${n}` with n > 0) the
   * number of probes is n and the name carries the same numeral.
   */
  lemma ConfigForCount(n: int)
    requires n > 0
    ensures ConfigFromEnv(Some(IntToString(n))) == Config(n, Some("render_test_results_" + IntToString(n)))
    ensures ResultsFileName(ConfigFromEnv(Some(IntToString(n))).name) == "render_test_results_" + IntToString(n) + ".json"
  {
    ParseIntRoundTrip(n);
  }

  /**
   * The name is built from the raw string, the count from its parse, so the
   * two can disagree: "010" runs 10 probes into "render_test_results_010".
   */
  lemma ConfigLeadingZero(s: string)
    requires s == "010"
    ensures ConfigFromEnv(Some(s)) == Config(10, Some("render_test_results_010"))
  {
    LeadingZeroParse(s);
    ConfigOfParsed(s, 10);
    LeadingZeroName(s);
  }

  lemma LeadingZeroName(s: string)
    requires s == "010"
    ensures "render_test_results_" + s == "render_test_results_010"
  {
  }

  /** A variable that parses to a non-zero `n` gives `n` probes and a name built from its raw text. */
  lemma ConfigOfParsed(v: string, n: int)
    requires v != [] && ParseIntEnv(Some(v)) == Some(n) && n != 0
    ensures ConfigFromEnv(Some(v)) == Config(n, Some("render_test_results_" + v))
  {
  }

  lemma LeadingZeroParse(s: string)
    requires s == "010"
    ensures ParseIntEnv(Some(s)) == Some(10)
  {
    LeadingZeroValue(s);
    ParseIntOfDigits(s);
  }

  lemma LeadingZeroValue(s: string)
    requires s == "010"
    ensures AllDigits(s) && DigitsValue(s) == 10
  {
    assert s[..2] == "01";
    assert DigitsValue("01") == 1;
    assert DigitsValue(s) == 10 * DigitsValue(s[..2]) + DigitValue(s[2]);
  }

  /** A set value that parses to NaN or 0 ("0", " ", "x1") falls back to 20 probes. */
  lemma ConfigFallback(v: string)
    requires ParseIntEnv(Some(v)) == None || ParseIntEnv(Some(v)) == Some(0)
    ensures ConfigFromEnv(Some(v)).numRequests == 20
  {
  }

  /** "abc" is NaN, so the script runs 20 probes, yet writes "render_test_results_abc". */
  lemma ConfigNotANumber(t: string)
    requires t == "abc"
    ensures ConfigFromEnv(Some(t)) == Config(20, Some("render_test_results_abc"))
  {
    TrimStartAtNonSpace(t);
    assert ParseDigits(t) == None;
    assert ParseInt(t) == None;
    assert ParseIntEnv(Some(t)) == None;
    assert StringOr(Some(t), "20") == t;
    assert "render_test_results_" + t == "render_test_results_abc";
  }

  /**
   * `loadTest(url, config)` followed by `writeResultsToFile`: the batch is
   * written under the configured name.  Nothing is written when `Array.from`
   * throws or a probe rejects; the rejection of `loadTest` is not handled
   * at the call site, so the script then ends with an error.
   */
  method LoadTest(config: Config, order: seq<nat>, probes: seq<ProbeOutcome>) returns (r: Result<Written, BatchError>)
    requires config.numRequests < ArrayLengthLimit ==>
      |probes| == LaunchCount(config.numRequests) && IsCompletionOrder(order, |probes|)
    ensures r == Err(InvalidArrayLength) <==> config.numRequests >= ArrayLengthLimit
    ensures r.Err? <==> config.numRequests >= ArrayLengthLimit || SomeRejected(probes)
    ensures r.Err? && r.error.ProbeRejected? ==>
      exists k: nat :: FirstToReject(order, probes, k) && r.error.requestNumber == order[k] + 1
    ensures r.Ok? ==> r.value.fileName == ResultsFileName(config.name)
    ensures r.Ok? ==> r.value.contents.results == Collected(order, ReturnedResults(probes))
    ensures r.Ok? ==> r.value.contents.averages == BatchAverages(r.value.contents.results)
    ensures r.Ok? ==> |r.value.contents.results| == SuccessCount(ReturnedResults(probes)) <= LaunchCount(config.numRequests)
    ensures r.Ok? ==> forall k :: 0 <= k < |r.value.contents.results| ==>
      1 <= r.value.contents.results[k].requestNumber <= config.numRequests
    ensures r.Ok? ==> UniqueRequestNumbers(r.value.contents.results)
  {
    var batch := RunBatch(config.numRequests, order, probes);
    match batch
    case Err(e) =>
      r := Err(e);
    case Ok(record) =>
      r := Ok(Written(ResultsFileName(config.name), record));
  }
}
