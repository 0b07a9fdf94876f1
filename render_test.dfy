/**
 * rendertest.js: the same batch as load_test.js (see `Batch.RunBatch`),
 * logged instead of written, with `numRequests` fixed at 1.
 */
module RenderTest {
  import opened Wrappers
  import opened Probe
  import opened Batch
  import opened Sums

  /** `config.numRequests`. */
  const ConfiguredNumRequests: int := 1

  /**
   * The script's single run: with one probe, the run fails exactly when the
   * probe rejects; otherwise the results hold nothing or one entry numbered
   * 1, and the averages are that entry's timings.
   */
  method LoadTestConfigured(probe: ProbeOutcome) returns (r: Result<BatchRecord, BatchError>)
    ensures r.Err? <==> probe.Rejected?
    ensures r.Err? ==> r.error == ProbeRejected(1)
    ensures r.Ok? ==> (r.value.results == [] <==> probe.result.None?)
    ensures r.Ok? && probe.result.Some? ==>
      var t := probe.result.value;
      r.value.results == [Sample(1, t.domContentLoaded, t.loadEvent)]
      && r.value.averages == Some(Averages(t.domContentLoaded as real, t.loadEvent as real))
    ensures r.Ok? && probe.result.None? ==> r.value.averages.None?
  {
    SingleProbeOrder();
    SingleProbeRejection(probe);
    var outcome := ReturnedResults([probe])[0];
    SingleProbeCollected(probe);
    r := RunBatch(ConfiguredNumRequests, [0], [probe]);
    if r.Ok? && outcome.Some? {
      SingleSampleAverages(r.value.results[0]);
    }
  }

  lemma SingleProbeOrder()
    ensures LaunchCount(1) == 1 && IsCompletionOrder([0], 1)
  {
    assert LaunchIndices(1) == [0];
  }

  /** With one probe, some probe rejects iff that one does, and it is then the first to reject. */
  lemma SingleProbeRejection(probe: ProbeOutcome)
    ensures SomeRejected([probe]) <==> probe.Rejected?
    ensures probe.Rejected? ==> FirstToReject([0], [probe], 0)
    ensures forall k: nat :: FirstToReject([0], [probe], k) ==> k == 0
  {
    if probe.Rejected? {
      assert [probe][0].Rejected?;
    }
  }

  lemma SingleProbeCollected(probe: ProbeOutcome)
    ensures Collected([0], ReturnedResults([probe])) == Entry(0, ReturnedResults([probe])[0])
  {
    assert [0][..0] == [];
  }

  /** A batch of one sample averages to that sample's timings. */
  lemma SingleSampleAverages(s: Sample)
    ensures BatchAverages([s]) == Some(Averages(s.domContentLoaded as real, s.loadEvent as real))
  {
    assert [s][..0] == [];
    assert SumOf([s], DomContentLoadedOf) == s.domContentLoaded;
    assert SumOf([s], LoadEventOf) == s.loadEvent;
  }
}
