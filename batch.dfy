/**
 * The batch runner shared by load_test.js and rendertest.js (`loadTest`):
 * launch `numRequests` probes, let each one push its entry into `results`
 * when it settles, then average the two timings.
 *
 * `Promise.all` is modelled by a completion order: the probes settle one
 * at a time, `order[k]` being the launch index of the k-th to settle, and
 * `order` is any permutation of the launch indices.  The outcome of the
 * probe with launch index `i` is `outcomes[i]`.
 */
module Batch {
  import opened Wrappers
  import opened Probe
  import opened Sums

  /** One entry of `results`. */
  datatype Sample = Sample(requestNumber: int, domContentLoaded: int, loadEvent: int)

  /** The two averages, before `toFixed(2)`. */
  datatype Averages = Averages(averageDOMContentLoaded: real, averageLoadEvent: real)

  /** What `loadTest` computes: the collected entries and, unless there are none, their averages. */
  datatype BatchRecord = BatchRecord(results: seq<Sample>, averages: Option<Averages>)

  /** Why `loadTest` rejects before it reaches the averages. */
  datatype BatchError =
    | InvalidArrayLength              // `Array.from` throws a RangeError for a length of 2^32 or more
    | ProbeRejected(requestNumber: int) // `Promise.all` rejects with the first probe to reject

  const ArrayLengthLimit: int := 0x1_0000_0000

  /** The launch indices `0, 1, …, n - 1` of `Array.from({ length: n }, …)`. */
  function LaunchIndices(n: nat): (r: seq<nat>)
    ensures |r| == n
    ensures forall i :: 0 <= i < n ==> r[i] == i
  {
    if n == 0 then [] else LaunchIndices(n - 1) + [n - 1]
  }

  /** `order` lists every launch index below `n` exactly once. */
  ghost predicate IsCompletionOrder(order: seq<nat>, n: nat) {
    multiset(order) == multiset(LaunchIndices(n))
  }

  /** The probe outcome for launch index `i`; an index that was never launched has none. */
  function OutcomeOf(outcomes: seq<Option<Timing>>, i: nat): Option<Timing> {
    if i < |outcomes| then outcomes[i] else None
  }

  /** What the mapper callback with launch index `i` pushes once its probe settles: nothing for `null`. */
  function Entry(i: nat, outcome: Option<Timing>): seq<Sample> {
    match outcome
    case None => []
    case Some(t) => [Sample(i + 1, t.domContentLoaded, t.loadEvent)]
  }

  /** `results` after the probes listed in `order` have settled, in that order. */
  function Collected(order: seq<nat>, outcomes: seq<Option<Timing>>): seq<Sample> {
    if order == [] then []
    else
      var i := order[|order| - 1];
      Collected(order[..|order| - 1], outcomes) + Entry(i, OutcomeOf(outcomes, i))
  }

  /** The number of probes that did not return `null`. */
  function SuccessCount(outcomes: seq<Option<Timing>>): (c: nat)
    ensures c <= |outcomes|
  {
    if outcomes == [] then 0
    else SuccessCount(outcomes[..|outcomes| - 1]) + (if outcomes[|outcomes| - 1].Some? then 1 else 0)
  }

  /** `s` is the entry of the probe numbered `s.requestNumber`, with that probe's timings unchanged. */
  ghost predicate RecordsProbe(s: Sample, outcomes: seq<Option<Timing>>) {
    && 1 <= s.requestNumber <= |outcomes|
    && outcomes[s.requestNumber - 1].Some?
    && outcomes[s.requestNumber - 1].value.domContentLoaded == s.domContentLoaded
    && outcomes[s.requestNumber - 1].value.loadEvent == s.loadEvent
  }

  ghost predicate UniqueRequestNumbers(results: seq<Sample>) {
    forall j, k :: 0 <= j < k < |results| ==> results[j].requestNumber != results[k].requestNumber
  }

  ghost predicate HasRequestNumber(results: seq<Sample>, n: int) {
    exists k :: 0 <= k < |results| && results[k].requestNumber == n
  }

  ghost predicate Distinct(order: seq<nat>) {
    forall j, k :: 0 <= j < k < |order| ==> order[j] != order[k]
  }

  // ---------------------------------------------------------------------
  // Collection

  /**
   * The fan-out of `loadTest` (load_test.js and rendertest.js): the probes
   * settle in the order `order`, and each success is pushed as it settles.
   */
  method Collect(order: seq<nat>, outcomes: seq<Option<Timing>>) returns (results: seq<Sample>)
    requires IsCompletionOrder(order, |outcomes|)
    ensures results == Collected(order, outcomes)
    ensures |results| == SuccessCount(outcomes) <= |outcomes|
    ensures forall k :: 0 <= k < |results| ==> RecordsProbe(results[k], outcomes)
    ensures UniqueRequestNumbers(results)
    ensures forall i :: 0 <= i < |outcomes| ==> (outcomes[i].Some? <==> HasRequestNumber(results, i + 1))
  {
    CompletionOrderBounds(order, |outcomes|);
    results := [];
    var k := 0;
    while k < |order|
      invariant 0 <= k <= |order|
      invariant results == Collected(order[..k], outcomes)
    {
      var i := order[k];
      var outcome := outcomes[i];
      CollectedStep(order, k, outcomes);
      assert OutcomeOf(outcomes, i) == outcome;
      if outcome.Some? {
        results := results + [Sample(i + 1, outcome.value.domContentLoaded, outcome.value.loadEvent)];
      } else {
        assert Entry(i, outcome) == [];
      }
      k := k + 1;
    }
    assert order[..k] == order;
    CollectedProperties(order, outcomes);
  }

  // ---------------------------------------------------------------------
  // Facts about completion orders

  /** Settling one more probe appends its entry. */
  lemma CollectedStep(order: seq<nat>, k: nat, outcomes: seq<Option<Timing>>)
    requires k < |order|
    ensures Collected(order[..k + 1], outcomes) == Collected(order[..k], outcomes) + Entry(order[k], OutcomeOf(outcomes, order[k]))
  {
    assert order[..k + 1][..k] == order[..k];
  }

  lemma CompletionOrderBounds(order: seq<nat>, n: nat)
    requires IsCompletionOrder(order, n)
    ensures |order| == n
    ensures forall k :: 0 <= k < |order| ==> order[k] < n
  {
    CompletionOrderFacts(order, n);
  }

  lemma {:induction false} DistinctMultiplicity(s: seq<nat>, x: nat)
    requires Distinct(s)
    ensures multiset(s)[x] <= 1
  {
    if s != [] {
      var s' := s[..|s| - 1];
      assert s == s' + [s[|s| - 1]];
      DistinctMultiplicity(s', x);
      if x == s[|s| - 1] {
        assert x !in s';
      }
    }
  }

  lemma RepeatedMultiplicity(s: seq<nat>, j: nat, k: nat)
    requires j < k < |s| && s[j] == s[k]
    ensures multiset(s)[s[k]] >= 2
  {
    assert s == s[..k] + [s[k]] + s[k + 1..];
    assert s[j] in s[..k];
  }

  lemma {:induction false} LaunchIndicesDistinct(n: nat)
    ensures Distinct(LaunchIndices(n))
  {
  }

  /** A completion order has length `n`, stays below `n`, repeats no index and omits none. */
  lemma CompletionOrderFacts(order: seq<nat>, n: nat)
    requires IsCompletionOrder(order, n)
    ensures |order| == n
    ensures forall k :: 0 <= k < |order| ==> order[k] < n
    ensures Distinct(order)
    ensures forall i :: 0 <= i < n ==> i in order
  {
    var ids := LaunchIndices(n);
    assert |order| == |multiset(order)| == |multiset(ids)| == n;
    forall k | 0 <= k < |order|
      ensures order[k] < n
    {
      assert order[k] in multiset(ids);
    }
    forall i | 0 <= i < n
      ensures i in order
    {
      assert ids[i] == i;
      assert i in multiset(order);
    }
    forall j, k | 0 <= j < k < |order|
      ensures order[j] != order[k]
    {
      if order[j] == order[k] {
        RepeatedMultiplicity(order, j, k);
        LaunchIndicesDistinct(n);
        DistinctMultiplicity(ids, order[k]);
        assert false;
      }
    }
  }

  // ---------------------------------------------------------------------
  // Facts about Collected

  lemma {:induction false} CollectedAppend(a: seq<nat>, b: seq<nat>, outcomes: seq<Option<Timing>>)
    ensures Collected(a + b, outcomes) == Collected(a, outcomes) + Collected(b, outcomes)
  {
    if b == [] {
      assert a + b == a;
    } else {
      var b' := b[..|b| - 1];
      assert (a + b)[..|a + b| - 1] == a + b';
      CollectedAppend(a, b', outcomes);
    }
  }

  /** Probes settling in another order push the same entries, only in another order. */
  lemma {:induction false} CollectedPermutation(a: seq<nat>, b: seq<nat>, outcomes: seq<Option<Timing>>)
    requires multiset(a) == multiset(b)
    ensures multiset(Collected(a, outcomes)) == multiset(Collected(b, outcomes))
  {
    if a == [] {
      assert |b| == |multiset(b)| == 0;
    } else {
      var x := a[|a| - 1];
      var a' := a[..|a| - 1];
      LastRemoved(a);
      assert x in b;
      var j :| 0 <= j < |b| && b[j] == x;
      var b' := b[..j] + b[j + 1..];
      RemoveAtMultiset(b, j);
      assert multiset(a') == multiset(b');
      CollectedPermutation(a', b', outcomes);
      CollectedRemoveAt(b, j, outcomes);
    }
  }

  /** Leaving one probe out of the order leaves exactly its entry out of what is collected. */
  lemma CollectedRemoveAt(b: seq<nat>, j: nat, outcomes: seq<Option<Timing>>)
    requires j < |b|
    ensures multiset(Collected(b, outcomes)) ==
      multiset(Collected(b[..j] + b[j + 1..], outcomes)) + multiset(Entry(b[j], OutcomeOf(outcomes, b[j])))
  {
    var p, x, q := b[..j], b[j], b[j + 1..];
    SplitAt(b, j);
    CollectedAppend(p, [x] + q, outcomes);
    CollectedAppend([x], q, outcomes);
    CollectedAppend(p, q, outcomes);
    CollectedSingleton(x, outcomes);
  }

  lemma CollectedSingleton(x: nat, outcomes: seq<Option<Timing>>)
    ensures Collected([x], outcomes) == Entry(x, OutcomeOf(outcomes, x))
  {
    assert [x][..0] == [];
  }

  /** Every collected entry comes from a settled probe that succeeded, with its timings unchanged. */
  lemma {:induction false} CollectedSound(order: seq<nat>, outcomes: seq<Option<Timing>>)
    ensures forall k :: 0 <= k < |Collected(order, outcomes)| ==>
      RecordsProbe(Collected(order, outcomes)[k], outcomes)
      && Collected(order, outcomes)[k].requestNumber - 1 in order
  {
    if order != [] {
      var order' := order[..|order| - 1];
      CollectedSound(order', outcomes);
    }
  }

  /** The probe at position `p` of `order`, if it succeeded, has its entry among the collected ones. */
  lemma {:induction false} CollectedComplete(order: seq<nat>, outcomes: seq<Option<Timing>>, p: nat)
    requires p < |order| && OutcomeOf(outcomes, order[p]).Some?
    ensures HasRequestNumber(Collected(order, outcomes), order[p] + 1)
  {
    var order' := order[..|order| - 1];
    var prefix := Collected(order', outcomes);
    if p < |order| - 1 {
      CollectedComplete(order', outcomes, p);
      var k :| 0 <= k < |prefix| && prefix[k].requestNumber == order[p] + 1;
      assert Collected(order, outcomes)[k] == prefix[k];
    } else {
      assert Collected(order, outcomes)[|prefix|].requestNumber == order[p] + 1;
    }
  }

  /** With no launch index repeated, no request number is repeated. */
  lemma {:induction false} CollectedUnique(order: seq<nat>, outcomes: seq<Option<Timing>>)
    requires Distinct(order)
    ensures UniqueRequestNumbers(Collected(order, outcomes))
  {
    if order != [] {
      var order' := order[..|order| - 1];
      var x := order[|order| - 1];
      CollectedUnique(order', outcomes);
      CollectedSound(order', outcomes);
      assert x !in order';
    }
  }

  lemma {:induction false} CollectedInLaunchOrderLength(k: nat, outcomes: seq<Option<Timing>>)
    requires k <= |outcomes|
    ensures |Collected(LaunchIndices(k), outcomes)| == SuccessCount(outcomes[..k])
  {
    if k > 0 {
      CollectedInLaunchOrderLength(k - 1, outcomes);
      LaunchIndicesStep(k);
      SuccessCountStep(outcomes, k);
      var o := OutcomeOf(outcomes, k - 1);
      assert |Collected(LaunchIndices(k), outcomes)| == |Collected(LaunchIndices(k - 1), outcomes)| + |Entry(k - 1, o)|;
    }
  }

  lemma LaunchIndicesStep(k: nat)
    requires k > 0
    ensures LaunchIndices(k)[..k - 1] == LaunchIndices(k - 1)
    ensures LaunchIndices(k)[k - 1] == k - 1
  {
  }

  lemma SuccessCountStep(outcomes: seq<Option<Timing>>, k: nat)
    requires 0 < k <= |outcomes|
    ensures SuccessCount(outcomes[..k]) == SuccessCount(outcomes[..k - 1]) + (if outcomes[k - 1].Some? then 1 else 0)
  {
    assert outcomes[..k][..k - 1] == outcomes[..k - 1];
  }

  /** A completion order collects one entry per successful probe. */
  lemma CollectedLength(order: seq<nat>, outcomes: seq<Option<Timing>>)
    requires IsCompletionOrder(order, |outcomes|)
    ensures |Collected(order, outcomes)| == SuccessCount(outcomes)
  {
    var n := |outcomes|;
    CollectedPermutation(order, LaunchIndices(n), outcomes);
    CollectedInLaunchOrderLength(n, outcomes);
    assert outcomes[..n] == outcomes;
    assert |Collected(order, outcomes)| == |multiset(Collected(order, outcomes))|;
    assert |Collected(LaunchIndices(n), outcomes)| == |multiset(Collected(LaunchIndices(n), outcomes))|;
  }

  /** A completion order collects an entry numbered `i + 1` exactly when probe `i` succeeded. */
  lemma CollectedCoversSuccesses(order: seq<nat>, outcomes: seq<Option<Timing>>, i: nat)
    requires IsCompletionOrder(order, |outcomes|)
    requires i < |outcomes|
    ensures outcomes[i].Some? <==> HasRequestNumber(Collected(order, outcomes), i + 1)
  {
    var results := Collected(order, outcomes);
    if outcomes[i].Some? {
      CompletionOrderFacts(order, |outcomes|);
      assert i in order;
      var p :| 0 <= p < |order| && order[p] == i;
      CollectedComplete(order, outcomes, p);
    }
    if HasRequestNumber(results, i + 1) {
      var k :| 0 <= k < |results| && results[k].requestNumber == i + 1;
      CollectedSound(order, outcomes);
      assert RecordsProbe(results[k], outcomes);
    }
  }

  /**
   * Whatever the completion order: one entry per successful probe, each
   * carrying that probe's number and timings, no number twice, none for a
   * probe that returned `null`.
   */
  lemma CollectedProperties(order: seq<nat>, outcomes: seq<Option<Timing>>)
    requires IsCompletionOrder(order, |outcomes|)
    ensures |Collected(order, outcomes)| == SuccessCount(outcomes)
    ensures forall k :: 0 <= k < |Collected(order, outcomes)| ==> RecordsProbe(Collected(order, outcomes)[k], outcomes)
    ensures UniqueRequestNumbers(Collected(order, outcomes))
    ensures forall i :: 0 <= i < |outcomes| ==> (outcomes[i].Some? <==> HasRequestNumber(Collected(order, outcomes), i + 1))
  {
    CollectedLength(order, outcomes);
    CollectedSound(order, outcomes);
    CompletionOrderFacts(order, |outcomes|);
    CollectedUnique(order, outcomes);
    forall i | 0 <= i < |outcomes|
      ensures outcomes[i].Some? <==> HasRequestNumber(Collected(order, outcomes), i + 1)
    {
      CollectedCoversSuccesses(order, outcomes, i);
    }
  }

  /** Two completion orders of the same probes collect the same entries. */
  lemma CollectedOrderIndependent(order1: seq<nat>, order2: seq<nat>, outcomes: seq<Option<Timing>>)
    requires IsCompletionOrder(order1, |outcomes|) && IsCompletionOrder(order2, |outcomes|)
    ensures multiset(Collected(order1, outcomes)) == multiset(Collected(order2, outcomes))
  {
    CollectedPermutation(order1, order2, outcomes);
  }

  // ---------------------------------------------------------------------
  // Averages

  function DomContentLoadedOf(s: Sample): int {
    s.domContentLoaded
  }

  function LoadEventOf(s: Sample): int {
    s.loadEvent
  }

  /** `results.reduce((sum, r) => sum + field(r), 0) / results.length`; `None` is the NaN of 0 / 0. */
  function Mean(results: seq<Sample>, field: Sample -> int): (r: Option<real>)
    ensures r.Some? <==> |results| > 0
    ensures r.Some? ==> r.value * (|results| as real) == SumOf(results, field) as real
  {
    if |results| == 0 then None else Some(SumOf(results, field) as real / |results| as real)
  }

  /** `averageDOMContentLoaded` and `averageLoadEvent`; both are NaN (`None`) for an empty batch. */
  function BatchAverages(results: seq<Sample>): (r: Option<Averages>)
    ensures r.None? <==> results == []
    ensures r.Some? ==> r.value.averageDOMContentLoaded * (|results| as real) == SumOf(results, DomContentLoadedOf) as real
    ensures r.Some? ==> r.value.averageLoadEvent * (|results| as real) == SumOf(results, LoadEventOf) as real
  {
    match (Mean(results, DomContentLoadedOf), Mean(results, LoadEventOf))
    case (Some(dom), Some(load)) => Some(Averages(dom, load))
    case _ => None
  }

  /** The mean lies between the smallest and the largest value. */
  lemma MeanWithinBounds(results: seq<Sample>, field: Sample -> int, lo: int, hi: int)
    requires results != []
    requires forall k :: 0 <= k < |results| ==> lo <= field(results[k]) <= hi
    ensures lo as real <= Mean(results, field).value <= hi as real
  {
    SumOfBounds(results, field, lo, hi);
    QuotientBounds(Mean(results, field).value, |results|, SumOf(results, field), lo, hi);
  }

  lemma QuotientBounds(m: real, n: int, total: int, lo: int, hi: int)
    requires n > 0 && n * lo <= total <= n * hi && m * (n as real) == total as real
    ensures lo as real <= m <= hi as real
  {
    var x, l, h := n as real, lo as real, hi as real;
    assert (n * lo) as real == x * l && (n * hi) as real == x * h;
    assert (m - l) * x == m * x - l * x;
    assert (h - m) * x == h * x - m * x;
    NonNegativeFactor(m - l, x);
    NonNegativeFactor(h - m, x);
  }

  lemma NonNegativeFactor(a: real, x: real)
    requires x > 0.0 && a * x >= 0.0
    ensures a >= 0.0
  {
  }

  /** The mean does not depend on the order of the entries. */
  lemma MeanOrderIndependent(a: seq<Sample>, b: seq<Sample>, field: Sample -> int)
    requires multiset(a) == multiset(b)
    ensures Mean(a, field) == Mean(b, field)
  {
    SumOfPermutation(a, b, field);
    assert |a| == |multiset(a)| == |multiset(b)| == |b|;
  }

  /** The averages of a batch are the same whichever order its probes settled in. */
  lemma AveragesOrderIndependent(order1: seq<nat>, order2: seq<nat>, outcomes: seq<Option<Timing>>)
    requires IsCompletionOrder(order1, |outcomes|) && IsCompletionOrder(order2, |outcomes|)
    ensures BatchAverages(Collected(order1, outcomes)) == BatchAverages(Collected(order2, outcomes))
  {
    var r1, r2 := Collected(order1, outcomes), Collected(order2, outcomes);
    CollectedOrderIndependent(order1, order2, outcomes);
    MeanOrderIndependent(r1, r2, DomContentLoadedOf);
    MeanOrderIndependent(r1, r2, LoadEventOf);
  }

  /** Entries with DOM times 100, 200 and 300 ms average 200 ms. */
  lemma MeanExample()
    ensures BatchAverages([Sample(1, 100, 150), Sample(2, 200, 250), Sample(3, 300, 500)]) == Some(Averages(200.0, 300.0))
  {
    var rs := [Sample(1, 100, 150), Sample(2, 200, 250), Sample(3, 300, 500)];
    var two, one := rs[..2], rs[..1];
    assert two[..1] == one && one[..0] == [];
    assert SumOf(one, DomContentLoadedOf) == 100 && SumOf(one, LoadEventOf) == 150;
    assert SumOf(two, DomContentLoadedOf) == 300 && SumOf(two, LoadEventOf) == 400;
    assert SumOf(rs, DomContentLoadedOf) == 600 && SumOf(rs, LoadEventOf) == 900;
  }

  // ---------------------------------------------------------------------
  // The whole batch

  /** `Array.from({ length: n })` launches no callback for a negative length (ToLength clamps it to 0). */
  function LaunchCount(numRequests: int): (n: nat)
    ensures numRequests >= 0 ==> n == numRequests
    ensures numRequests < 0 ==> n == 0
  {
    if numRequests < 0 then 0 else numRequests
  }

  // ---------------------------------------------------------------------
  // Rejected probes

  /** The probe with launch index `i` rejected. */
  predicate IsRejected(probes: seq<ProbeOutcome>, i: nat) {
    i < |probes| && probes[i].Rejected?
  }

  predicate SomeRejected(probes: seq<ProbeOutcome>) {
    exists i :: 0 <= i < |probes| && probes[i].Rejected?
  }

  /** Position `k` of `order` holds the first probe to reject, in the order they settle. */
  predicate FirstToReject(order: seq<nat>, probes: seq<ProbeOutcome>, k: nat) {
    k < |order| && IsRejected(probes, order[k]) && forall j :: 0 <= j < k ==> !IsRejected(probes, order[j])
  }

  /** The position in `order` of the first probe to reject, which is the rejection `Promise.all` reports. */
  function FirstRejection(order: seq<nat>, probes: seq<ProbeOutcome>): (k: Option<nat>)
    ensures k.Some? ==> FirstToReject(order, probes, k.value)
    ensures k.None? ==> forall j :: 0 <= j < |order| ==> !IsRejected(probes, order[j])
  {
    if order == [] then None
    else if IsRejected(probes, order[0]) then Some(0)
    else
      match FirstRejection(order[1..], probes)
      case None => None
      case Some(k) => Some(k + 1)
  }

  /** What each callback's `await` yields once no probe rejected. */
  function ReturnedResults(probes: seq<ProbeOutcome>): (outcomes: seq<Option<Timing>>)
    ensures |outcomes| == |probes|
    ensures forall i :: 0 <= i < |probes| && probes[i].Returned? ==> outcomes[i] == probes[i].result
  {
    seq(|probes|, i requires 0 <= i < |probes| => if probes[i].Returned? then probes[i].result else None)
  }

  /** Over a completion order, some probe rejects exactly when the first rejection exists. */
  lemma RejectionFound(order: seq<nat>, probes: seq<ProbeOutcome>)
    requires IsCompletionOrder(order, |probes|)
    ensures FirstRejection(order, probes).Some? <==> SomeRejected(probes)
  {
    CompletionOrderFacts(order, |probes|);
    var first := FirstRejection(order, probes);
    if first.Some? {
      assert probes[order[first.value]].Rejected?;
    } else {
      forall i | 0 <= i < |probes|
        ensures !probes[i].Rejected?
      {
        assert i in order;
        var j :| 0 <= j < |order| && order[j] == i;
        assert !IsRejected(probes, order[j]);
      }
    }
  }

  /**
   * `loadTest(url, config)` up to its output: the fan-out, the wait for
   * every probe, and the averages.  `Array.from` throws before any probe
   * starts; otherwise the first probe to reject, in the order they settle,
   * rejects `Promise.all` and nothing after the `await` runs.
   */
  method RunBatch(numRequests: int, order: seq<nat>, probes: seq<ProbeOutcome>) returns (r: Result<BatchRecord, BatchError>)
    requires numRequests < ArrayLengthLimit ==> |probes| == LaunchCount(numRequests) && IsCompletionOrder(order, |probes|)
    ensures r == Err(InvalidArrayLength) <==> numRequests >= ArrayLengthLimit
    ensures r.Err? <==> numRequests >= ArrayLengthLimit || SomeRejected(probes)
    ensures r.Err? && r.error.ProbeRejected? ==>
      exists k: nat :: FirstToReject(order, probes, k) && r.error.requestNumber == order[k] + 1
    ensures r.Ok? ==> r.value.results == Collected(order, ReturnedResults(probes))
    ensures r.Ok? ==> r.value.averages == BatchAverages(r.value.results)
    ensures r.Ok? ==> |r.value.results| == SuccessCount(ReturnedResults(probes)) <= LaunchCount(numRequests)
    ensures r.Ok? ==> forall k :: 0 <= k < |r.value.results| ==>
      1 <= r.value.results[k].requestNumber <= numRequests && RecordsProbe(r.value.results[k], ReturnedResults(probes))
    ensures r.Ok? ==> UniqueRequestNumbers(r.value.results)
  {
    if numRequests >= ArrayLengthLimit {
      return Err(InvalidArrayLength);
    }
    RejectionFound(order, probes);
    var first := FirstRejection(order, probes);
    if first.Some? {
      return Err(ProbeRejected(order[first.value] + 1));
    }
    var results := Collect(order, ReturnedResults(probes));
    r := Ok(BatchRecord(results, BatchAverages(results)));
  }
}
