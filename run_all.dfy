/**
 * run_all.js: the sweep.  Starting at `incrementStep`, each request count
 * runs load_test.js and then draw_graph.js as child processes; the count
 * then grows by `incrementStep` until it passes `requestLimit`.  The first
 * child process that fails ends the sweep.
 *
 * Whether a child process succeeds is an input, `succeeds`: the scripts it
 * runs are outside this module.
 */
module RunAll {
  import opened Wrappers
  import opened Js
  import opened Env
  import LoadTest

  datatype Script = LoadTestScript | DrawGraphScript

  /** One `exec` call: which script, with which `NUM_REQUESTS`. */
  datatype Command = Command(script: Script, numRequests: int)

  /** How `runScripts` ends: after the last count, or rejected by the first failing child process. */
  datatype SweepOutcome = Completed | Failed(command: Command)

  function ScriptFile(s: Script): string {
    match s
    case LoadTestScript => "load_test.js"
    case DrawGraphScript => "draw_graph.js"
  }

  /** The shell command handed to `exec`: `NUM_REQUESTS=${currentRequests} node <script>`. */
  function CommandLine(c: Command): string {
    "NUM_REQUESTS=" + IntToString(c.numRequests) + " node " + ScriptFile(c.script)
  }

  /** `parseInt(process.env.REQUEST_LIMIT, 10) || 100`. */
  function RequestLimit(env: Option<string>): (limit: int)
    ensures limit != 0
    ensures env.None? ==> limit == 100
    ensures var p := ParseIntEnv(env); p.Some? && p.value != 0 ==> limit == p.value
    ensures var p := ParseIntEnv(env); p.None? || p.value == 0 ==> limit == 100
  {
    NumberOr(ParseIntEnv(env), 100)
  }

  /** REQUEST_LIMIT set to the numeral of a non-zero `n` sweeps up to `n`. */
  lemma RequestLimitOfNumeral(n: int)
    requires n != 0
    ensures RequestLimit(Some(IntToString(n))) == n
  {
    ParseIntRoundTrip(n);
  }

  /** `parseInt(process.env.INCREMENT_STEP, 10) || 10`; a negative step is kept as it is. */
  function IncrementStep(env: Option<string>): (step: int)
    ensures step != 0
    ensures env.None? ==> step == 10
    ensures var p := ParseIntEnv(env); p.Some? && p.value != 0 ==> step == p.value
    ensures var p := ParseIntEnv(env); p.None? || p.value == 0 ==> step == 10
  {
    NumberOr(ParseIntEnv(env), 10)
  }

  /** INCREMENT_STEP set to the numeral of a non-zero `n` steps by `n`. */
  lemma IncrementStepOfNumeral(n: int)
    requires n != 0
    ensures IncrementStep(Some(IntToString(n))) == n
  {
    ParseIntRoundTrip(n);
  }

  /** How many counts the sweep runs: the number of multiples of `step` in `1..limit`. */
  function RoundCount(limit: int, step: int): nat
    requires step > 0
  {
    if limit < 0 then 0 else limit / step
  }

  /** The request counts of a sweep, as a closed form: `step, 2·step, …, k·step`. */
  function PlannedCounts(limit: int, step: int): (counts: seq<int>)
    requires step > 0
    ensures |counts| == RoundCount(limit, step)
    ensures forall i :: 0 <= i < |counts| ==> counts[i] == step * (i + 1)
  {
    seq(RoundCount(limit, step), i => step * (i + 1))
  }

  /** The child processes for `counts`, in order: load_test.js then draw_graph.js for each count. */
  function Schedule(counts: seq<int>): seq<Command> {
    if counts == [] then []
    else
      var c := counts[|counts| - 1];
      Schedule(counts[..|counts| - 1]) + [Command(LoadTestScript, c), Command(DrawGraphScript, c)]
  }

  // ---------------------------------------------------------------------
  // The loop

  /**
   * `runScripts()`, ending either `Completed` after every planned command,
   * or `Failed` at the first command whose child process failed, which is
   * the last one run; `executed` lists the commands started, in order.
   */
  method RunScripts(limitEnv: Option<string>, stepEnv: Option<string>, succeeds: Command -> bool)
    returns (executed: seq<Command>, outcome: SweepOutcome)
    requires IncrementStep(stepEnv) > 0 || IncrementStep(stepEnv) > RequestLimit(limitEnv)
    ensures IncrementStep(stepEnv) > 0 ==>
      executed <= Schedule(PlannedCounts(RequestLimit(limitEnv), IncrementStep(stepEnv)))
    ensures forall k :: 0 <= k < |executed| - 1 ==> succeeds(executed[k])
    ensures IncrementStep(stepEnv) > 0 && outcome == Completed ==>
      executed == Schedule(PlannedCounts(RequestLimit(limitEnv), IncrementStep(stepEnv)))
      && forall k :: 0 <= k < |executed| ==> succeeds(executed[k])
    ensures outcome.Failed? ==>
      executed != [] && outcome.command == executed[|executed| - 1] && !succeeds(outcome.command)
    ensures IncrementStep(stepEnv) <= 0 ==> executed == [] && outcome == Completed
  {
    executed, outcome := Sweep(RequestLimit(limitEnv), IncrementStep(stepEnv), succeeds);
  }

  /** The loop of `runScripts()`, once `requestLimit` and `incrementStep` are read. */
  method Sweep(requestLimit: int, incrementStep: int, succeeds: Command -> bool)
    returns (executed: seq<Command>, outcome: SweepOutcome)
    requires incrementStep > 0 || incrementStep > requestLimit
    ensures incrementStep > 0 ==> executed <= Schedule(PlannedCounts(requestLimit, incrementStep))
    ensures forall k :: 0 <= k < |executed| - 1 ==> succeeds(executed[k])
    ensures incrementStep > 0 && outcome == Completed ==>
      executed == Schedule(PlannedCounts(requestLimit, incrementStep))
      && forall k :: 0 <= k < |executed| ==> succeeds(executed[k])
    ensures outcome.Failed? ==>
      executed != [] && outcome.command == executed[|executed| - 1] && !succeeds(outcome.command)
    ensures incrementStep <= 0 ==> executed == [] && outcome == Completed
  {
    // A step that is not positive starts above the limit, so no round runs.
    ghost var plan := if incrementStep > 0 then PlannedCounts(requestLimit, incrementStep) else [];
    var currentRequests := incrementStep;
    executed, outcome := [], Completed;
    ghost var round: nat := 0;
    if incrementStep > 0 {
      FirstCountIsStep(requestLimit, incrementStep);
    }
    while currentRequests <= requestLimit
      invariant round <= |plan|
      invariant round < |plan| ==> currentRequests == plan[round]
      invariant round == |plan| ==> currentRequests > requestLimit
      invariant executed == Schedule(plan[..round])
      invariant forall k :: 0 <= k < |executed| ==> succeeds(executed[k])
      decreases requestLimit - currentRequests
    {
      var load := Command(LoadTestScript, currentRequests);
      var draw := Command(DrawGraphScript, currentRequests);
      RoundScheduled(plan, round);
      executed := executed + [load];
      if !succeeds(load) {
        outcome := Failed(load);
        return;
      }
      executed := executed + [draw];
      if !succeeds(draw) {
        outcome := Failed(draw);
        return;
      }
      NextPlannedCount(requestLimit, incrementStep, round);
      currentRequests := currentRequests + incrementStep;
      round := round + 1;
    }
    if incrementStep > 0 {
      PlanExhausted(requestLimit, incrementStep, round, currentRequests);
    }
    assert plan[..round] == plan;
  }

  lemma ScheduleStep(counts: seq<int>, j: nat)
    requires j < |counts|
    ensures Schedule(counts[..j + 1]) ==
      Schedule(counts[..j]) + [Command(LoadTestScript, counts[j]), Command(DrawGraphScript, counts[j])]
  {
    assert counts[..j + 1][..j] == counts[..j];
  }

  /** Round `j` appends its two commands, and the schedule so far, with or without them, leads the whole one. */
  lemma RoundScheduled(counts: seq<int>, j: nat)
    requires j < |counts|
    ensures var load, draw := Command(LoadTestScript, counts[j]), Command(DrawGraphScript, counts[j]);
      && Schedule(counts[..j + 1]) == Schedule(counts[..j]) + [load, draw]
      && Schedule(counts[..j]) + [load, draw] <= Schedule(counts)
      && Schedule(counts[..j]) + [load] <= Schedule(counts)
  {
    ScheduleStep(counts, j);
    SchedulePrefix(counts, j + 1);
    ExtensionPrefix(Schedule(counts[..j]), Command(LoadTestScript, counts[j]), Command(DrawGraphScript, counts[j]),
      Schedule(counts));
  }

  lemma ExtensionPrefix<T>(a: seq<T>, x: T, y: T, c: seq<T>)
    requires a + [x, y] <= c
    ensures a + [x] <= c
  {
    assert a + [x] == (a + [x, y])[..|a| + 1];
  }

  // ---------------------------------------------------------------------
  // Facts about the plan

  /** Advancing by the step leads from one planned count to the next, or past the limit after the last. */
  lemma NextPlannedCount(limit: int, step: int, i: nat)
    requires step > 0 && i < |PlannedCounts(limit, step)|
    ensures var counts := PlannedCounts(limit, step);
      if i + 1 < |counts| then counts[i + 1] == counts[i] + step else counts[i] + step > limit
  {
    var counts := PlannedCounts(limit, step);
    assert step * (i + 2) == step * (i + 1) + step;
    RoundCountBound(limit, step, i + 1);
  }

  lemma MultiplyMonotone(a: int, b: int, c: int)
    requires a > 0 && b <= c
    ensures a * b <= a * c
  {
  }

  /** The loop guard holds at count `step·(i+1)` exactly when fewer than `RoundCount` rounds are done. */
  lemma RoundCountBound(limit: int, step: int, i: nat)
    requires step > 0
    ensures step * (i + 1) <= limit <==> i < RoundCount(limit, step)
  {
    MultiplyMonotone(step, 1, i + 1);
    if limit >= 0 {
      var q, r := limit / step, limit % step;
      assert limit == step * q + r && 0 <= r < step;
      if i < q {
        MultiplyMonotone(step, i + 1, q);
      } else {
        MultiplyMonotone(step, q + 1, i + 1);
        assert step * (q + 1) == step * q + step;
      }
    }
  }

  /** The counts are step, 2·step, …, k·step with k·step ≤ limit < (k+1)·step. */
  lemma PlannedCountsExact(limit: int, step: int)
    requires step > 0
    ensures var k := |PlannedCounts(limit, step)|;
      limit < step * (k + 1) && (k > 0 ==> step * k <= limit)
    ensures forall i :: 0 <= i < |PlannedCounts(limit, step)| ==> PlannedCounts(limit, step)[i] <= limit
  {
    var k := RoundCount(limit, step);
    RoundCountBound(limit, step, k);
    if k > 0 {
      RoundCountBound(limit, step, k - 1);
    }
    forall i | 0 <= i < k
      ensures PlannedCounts(limit, step)[i] <= limit
    {
      RoundCountBound(limit, step, i);
    }
  }

  lemma PlannedCountIsMultiple(limit: int, step: int, i: nat)
    requires step > 0 && i < |PlannedCounts(limit, step)|
    ensures 0 < PlannedCounts(limit, step)[i] <= limit && PlannedCounts(limit, step)[i] % step == 0
  {
    var c := PlannedCounts(limit, step)[i];
    RoundCountBound(limit, step, i);
    MultiplyMonotone(step, 1, i + 1);
    assert c == step * (i + 1);
    ModOfMultiple(step, i + 1);
  }

  lemma ModOfMultiple(step: int, q: int)
    requires step > 0
    ensures (step * q) % step == 0 && (step * q) / step == q
  {
    var d, m := (step * q) / step, (step * q) % step;
    assert step * q == step * d + m && 0 <= m < step;
    assert step * (q - d) == m;
    if q - d >= 1 {
      MultiplyMonotone(step, 1, q - d);
    } else if q - d <= -1 {
      MultiplyMonotone(step, q - d, -1);
    }
  }

  lemma MultipleIsPlanned(limit: int, step: int, c: int)
    requires step > 0 && 0 < c <= limit && c % step == 0
    ensures c in PlannedCounts(limit, step)
  {
    var q := c / step;
    assert c == step * q;
    assert q >= 1 by {
      if q <= 0 {
        MultiplyMonotone(step, q, 0);
      }
    }
    RoundCountBound(limit, step, q - 1);
    assert PlannedCounts(limit, step)[q - 1] == step * q;
  }

  /** A count is run exactly when it is a positive multiple of the step not above the limit. */
  lemma PlannedCountsAreMultiples(limit: int, step: int, c: int)
    requires step > 0
    ensures c in PlannedCounts(limit, step) <==> 0 < c <= limit && c % step == 0
  {
    var counts := PlannedCounts(limit, step);
    if c in counts {
      var i :| 0 <= i < |counts| && counts[i] == c;
      PlannedCountIsMultiple(limit, step, i);
    }
    if 0 < c <= limit && c % step == 0 {
      MultipleIsPlanned(limit, step, c);
    }
  }

  /** A count past the limit is past every planned count: the sweep has run them all. */
  lemma PlanExhausted(limit: int, step: int, round: nat, current: int)
    requires step > 0 && round <= |PlannedCounts(limit, step)|
    requires round < |PlannedCounts(limit, step)| ==> current == PlannedCounts(limit, step)[round]
    requires current > limit
    ensures round == |PlannedCounts(limit, step)|
  {
    if round < |PlannedCounts(limit, step)| {
      RoundCountBound(limit, step, round);
    }
  }

  /** The first count run is the step itself, when it does not exceed the limit; otherwise nothing runs. */
  lemma FirstCountIsStep(limit: int, step: int)
    requires step > 0
    ensures step <= limit ==> PlannedCounts(limit, step) != [] && PlannedCounts(limit, step)[0] == step
    ensures step > limit ==> PlannedCounts(limit, step) == []
  {
    RoundCountBound(limit, step, 0);
  }

  /** Ceiling 30 and step 10 give the counts 10, 20, 30. */
  lemma PlannedCountsExample()
    ensures PlannedCounts(30, 10) == [10, 20, 30]
  {
    assert RoundCount(30, 10) == 3;
  }

  /**
   * With a negative step and a first count within the limit, every later
   * count is within the limit too: the loop never ends.
   */
  lemma NegativeStepNeverStops(limit: int, step: int, rounds: nat)
    requires step < 0 && step <= limit
    ensures step + rounds * step <= limit
  {
    assert rounds * step <= 0;
  }

  // ---------------------------------------------------------------------
  // Facts about the schedule

  /** Each count contributes load_test.js at position 2j and draw_graph.js at 2j+1, so counts never interleave. */
  lemma {:induction false} ScheduleOrder(counts: seq<int>)
    ensures |Schedule(counts)| == 2 * |counts|
    ensures forall j :: 0 <= j < |counts| ==>
      Schedule(counts)[2 * j] == Command(LoadTestScript, counts[j])
      && Schedule(counts)[2 * j + 1] == Command(DrawGraphScript, counts[j])
  {
    if counts != [] {
      ScheduleOrder(counts[..|counts| - 1]);
    }
  }

  lemma {:induction false} SchedulePrefix(counts: seq<int>, j: nat)
    requires j <= |counts|
    ensures Schedule(counts[..j]) <= Schedule(counts)
  {
    if j < |counts| {
      var counts' := counts[..|counts| - 1];
      SchedulePrefix(counts', j);
      assert counts'[..j] == counts[..j];
    } else {
      assert counts[..j] == counts;
    }
  }

  /** The shell command carries the count: `parseInt` of what follows "NUM_REQUESTS=" is that count. */
  lemma CommandCarriesCount(c: Command)
    ensures CommandLine(c)[..13] == "NUM_REQUESTS="
    ensures ParseInt(CommandLine(c)[13..]) == Some(c.numRequests)
  {
    var rest := " node " + ScriptFile(c.script);
    assert CommandLine(c) == "NUM_REQUESTS=" + (IntToString(c.numRequests) + rest);
    ParseIntOfIntToString(c.numRequests, rest);
  }

  /**
   * Every load_test.js the sweep starts runs exactly the sweep's count of
   * probes and writes `render_test_results_<count>.json`.
   */
  lemma SweepChildRunsItsCount(limit: int, step: int, i: nat)
    requires step > 0 && i < |PlannedCounts(limit, step)|
    ensures var c := PlannedCounts(limit, step)[i];
      LoadTest.ConfigFromEnv(Some(IntToString(c))).numRequests == c
      && LoadTest.ResultsFileName(LoadTest.ConfigFromEnv(Some(IntToString(c))).name)
         == "render_test_results_" + IntToString(c) + ".json"
  {
    var c := PlannedCounts(limit, step)[i];
    MultiplyMonotone(step, 1, i + 1);
    LoadTest.ConfigForCount(c);
  }
}
