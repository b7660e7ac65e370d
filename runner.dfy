/** `run_simple_test`: the batch scheduler loop and the final report.

    The wall clock is not modelled; what a run reads from it, and what the
    network does to each request, is an `Env` given from outside. */
module Runner {
  import opened Wrappers
  import opened Outcomes
  import opened Aggregate
  import opened Stats
  import opened Pacing

  /** One time slice as it happened: how each coroutine of the batch ended,
      and the time the batch took (`time.time() - batch_start`). */
  datatype Round = Round(fates: seq<Resolution>, elapsed: real)

  /** What the outside world contributes to one run: `checks[i]` is the value
      of `time.time() - start_time` at the i-th test of the `while`
      condition, `rounds[i]` is the i-th slice, and `finalElapsed` is
      `actual_duration`. Rounds past the first check that reaches the
      duration are never used. */
  datatype Env = Env(checks: seq<real>, rounds: seq<Round>, finalElapsed: real)

  /** The final report of one run. `latency` is `None` when there is no
      latency sample, as the report then omits those lines. */
  datatype Summary = Summary(
    totalRequests: nat,
    successfulRequests: nat,
    successRate: real,
    actualRps: real,
    achievement: real,
    latency: Option<LatencyStats>)

  /** The environment is a possible one for this configuration: the clock
      reaches the duration by the check after the last supplied slice, and
      `gather` yields one result per task of each slice. */
  predicate Fits(targetRps: int, duration: int, env: Env)
  {
    && |env.checks| == |env.rounds| + 1
    && env.checks[|env.rounds|] >= duration as real
    && forall i :: 0 <= i < |env.rounds| ==> |env.rounds[i].fates| == BatchSize(targetRps)
  }

  /** Number of times the `while` condition holds before it first fails. */
  function SlicesRun(checks: seq<real>, duration: real): (k: nat)
    ensures k <= |checks|
    ensures forall j :: 0 <= j < k ==> checks[j] < duration
    ensures k < |checks| ==> checks[k] >= duration
  {
    if checks == [] || checks[0] >= duration then 0
    else
      var k := 1 + SlicesRun(checks[1..], duration);
      assert forall j :: 1 <= j < k ==> checks[j] == checks[1..][j - 1];
      k
  }

  /** The first index where the clock reached the duration is unique. */
  lemma SlicesRunIs(checks: seq<real>, duration: real, i: nat)
    requires i < |checks|
    requires forall j :: 0 <= j < i ==> checks[j] < duration
    requires checks[i] >= duration
    ensures SlicesRun(checks, duration) == i
  {
  }

  /** The counters after the given slices. */
  function After(rounds: seq<Round>): (c: Counters)
    ensures Consistent(c)
  {
    if rounds == [] then Initial
    else Absorb(After(rounds[..|rounds| - 1]), ResolveAll(rounds[|rounds| - 1].fates))
  }

  /** The `asyncio.sleep` calls made after the given slices. */
  function Sleeps(rounds: seq<Round>): (ss: seq<real>)
    ensures |ss| <= |rounds|
    ensures forall k :: 0 <= k < |ss| ==> ss[k] > 0.0
    ensures (forall i :: 0 <= i < |rounds| ==> rounds[i].elapsed >= 0.0) ==>
      forall k :: 0 <= k < |ss| ==> ss[k] <= BatchInterval
  {
    if rounds == [] then []
    else
      var init := rounds[..|rounds| - 1];
      assert forall i :: 0 <= i < |init| ==> init[i] == rounds[i];
      Sleeps(init) + SliceSleep(rounds[|rounds| - 1])
  }

  /** The pacing sleep after one slice, if there is one. */
  function SliceSleep(r: Round): (ss: seq<real>)
    ensures |ss| <= 1
    ensures ss == [] <==> r.elapsed >= BatchInterval
    ensures forall k :: 0 <= k < |ss| ==> r.elapsed + ss[k] == BatchInterval
  {
    var s := SleepTime(BatchInterval, r.elapsed);
    if s > 0.0 then [s] else []
  }

  /** Number of slices dispatched: all those the clock allows, except that
      the progress check raises after the first one when `target_rps < 2`. */
  function SlicesStarted(targetRps: int, duration: int, env: Env): (n: nat)
    requires Fits(targetRps, duration, env)
    ensures n <= |env.rounds|
    ensures n <= SlicesRun(env.checks, duration as real)
  {
    var k := SlicesRun(env.checks, duration as real);
    if k > 0 && ProgressDue(BatchSize(targetRps), targetRps).Err? then 1 else k
  }

  /** The end of a run: `actual_rps`, the success rate, the target
      achievement and, when there are samples, the latency statistics. */
  function Report(c: Counters, targetRps: int, finalElapsed: real): (r: Result<Summary, RunError>)
    requires Consistent(c)
    ensures r.Err? <==> finalElapsed == 0.0 || targetRps == 0
    ensures finalElapsed == 0.0 ==> r == Err(ZeroDivision(AtActualRps))
    ensures r.Ok? ==>
      var s := r.value;
      && s.totalRequests == c.total
      && s.successfulRequests == c.successful
      && s.successfulRequests <= s.totalRequests
      && (s.latency.Some? <==> s.successfulRequests > 0)
      && 0.0 <= s.successRate <= 100.0
    ensures r.Ok? ==> ActualRps(c.total, finalElapsed) == Ok(r.value.actualRps)
    ensures r.Ok? ==>
      && r.value.successRate == SuccessRate(c.successful, c.total)
      && TargetAchievement(r.value.actualRps, targetRps) == Ok(r.value.achievement)
      && r.value.latency == Summarize(c.latencies)
  {
    var rps := ActualRps(c.total, finalElapsed);
    if rps.Err? then Err(rps.error)
    else
      var achievement := TargetAchievement(rps.value, targetRps);
      if achievement.Err? then Err(achievement.error)
      else
        var rate := SuccessRate(c.successful, c.total);
        assert 0.0 <= rate <= 100.0;
        Ok(Summary(c.total, c.successful, rate, rps.value, achievement.value, Summarize(c.latencies)))
  }

  /** What one run of `run_simple_test` ends with: the exception it raises,
      or the final report over every slice the clock allowed. */
  function RunResult(targetRps: int, duration: int, env: Env): (r: Result<Summary, RunError>)
    requires Fits(targetRps, duration, env)
    ensures env.finalElapsed == 0.0 ==> r.Err?
    ensures r.Ok? ==> r.value.successfulRequests <= r.value.totalRequests
  {
    var k := SlicesRun(env.checks, duration as real);
    if k > 0 && ProgressDue(BatchSize(targetRps), targetRps).Err? then Err(ZeroDivision(AtProgressCheck))
    else
      assert k <= |env.rounds|;
      Report(After(env.rounds[..k]), targetRps, env.finalElapsed)
  }

  /** How a run ends. It raises exactly when the progress check divides by
      zero after a first slice, when no time elapsed, or when the target is
      0, and the first of these in program order is the one raised.
      Otherwise the report counts one batch per slice, never more successes
      than requests, a success rate within [0, 100], and latency statistics
      exactly when some request succeeded. */
  lemma RunOutcome(targetRps: int, duration: int, env: Env)
    requires Fits(targetRps, duration, env)
    ensures var r := RunResult(targetRps, duration, env);
      var k := SlicesRun(env.checks, duration as real);
      && (r.Err? <==> (k > 0 && 0 <= targetRps < 2) || env.finalElapsed == 0.0 || targetRps == 0)
      && (k > 0 && 0 <= targetRps < 2 ==> r == Err(ZeroDivision(AtProgressCheck)))
      && (!(k > 0 && 0 <= targetRps < 2) && env.finalElapsed == 0.0 ==> r == Err(ZeroDivision(AtActualRps)))
      && (!(k > 0 && 0 <= targetRps < 2) && env.finalElapsed != 0.0 && targetRps == 0 ==>
            r == Err(ZeroDivision(AtAchievement)))
      && (r.Ok? ==>
            && r.value.totalRequests == k * BatchSize(targetRps)
            && r.value.successfulRequests <= r.value.totalRequests
            && (r.value.latency.Some? <==> r.value.successfulRequests > 0)
            && 0.0 <= r.value.successRate <= 100.0)
  {
    var k := SlicesRun(env.checks, duration as real);
    if !(k > 0 && 0 <= targetRps < 2) {
      AfterTotal(env.rounds[..k], BatchSize(targetRps));
    }
  }

  /** `run_simple_test`: slices of `BatchSize(target_rps)` concurrent requests,
      folded into the counters, each followed by a pacing sleep and the
      progress check, until the clock reaches the duration; then the report.
      Also returns the lengths of the pacing sleeps it asked for. */
  method RunSimpleTest(url: string, targetRps: int, duration: int, env: Env)
    returns (r: Result<Summary, RunError>, sleeps: seq<real>)
    requires Fits(targetRps, duration, env)
    ensures r == RunResult(targetRps, duration, env)
    ensures sleeps == Sleeps(env.rounds[..SlicesStarted(targetRps, duration, env)])
  {
    var batchSize := BatchSize(targetRps);
    var state := Initial;
    sleeps := [];
    var i := 0;
    while env.checks[i] < duration as real
      invariant 0 <= i <= |env.rounds|
      invariant forall j :: 0 <= j < i ==> env.checks[j] < duration as real
      invariant i > 0 ==> ProgressDue(batchSize, targetRps).Ok?
      invariant state == After(env.rounds[..i])
      invariant sleeps == Sleeps(env.rounds[..i])
      decreases |env.rounds| - i
    {
      var slept;
      AfterStep(env.rounds, i);
      state, slept := RunSlice(url, batchSize, state, env.rounds[i]);
      sleeps := sleeps + slept;
      var due := ProgressDue(state.total, targetRps);
      if due.Err? {
        StopsAtProgressCheck(targetRps, duration, env);
        r := Err(due.error);
        return;
      }
      assert forall j :: 0 <= j < i + 1 ==> env.checks[j] < duration as real;
      i := i + 1;
    }
    EndsWithReport(targetRps, duration, env, i);
    r := Finish(state, targetRps, env.finalElapsed);
  }

  /** One slice: create the batch's tasks, `gather` them, fold the results
      into the counters, and sleep out the rest of the slice. */
  method RunSlice(url: string, batchSize: nat, state: Counters, round: Round)
    returns (state': Counters, slept: seq<real>)
    requires |round.fates| == batchSize
    ensures state' == Absorb(state, ResolveAll(round.fates))
    ensures slept == SliceSleep(round)
  {
    var tasks := BuildTasks(url, batchSize);
    var results := Gather(tasks, round.fates);
    assert results == ResolveAll(round.fates);
    state' := Collect(state, results);
    var sleepTime := SleepTime(BatchInterval, round.elapsed);
    slept := if sleepTime > 0.0 then [sleepTime] else [];
  }

  lemma AfterStep(rounds: seq<Round>, i: nat)
    requires i < |rounds|
    ensures After(rounds[..i + 1]) == Absorb(After(rounds[..i]), ResolveAll(rounds[i].fates))
    ensures Sleeps(rounds[..i + 1]) == Sleeps(rounds[..i]) + SliceSleep(rounds[i])
  {
    assert rounds[..i + 1][..i] == rounds[..i];
  }

  /** When the progress check divides by zero, the run raises after its
      first slice. */
  lemma StopsAtProgressCheck(targetRps: int, duration: int, env: Env)
    requires Fits(targetRps, duration, env)
    requires env.checks[0] < duration as real
    requires 0 <= targetRps < 2
    ensures RunResult(targetRps, duration, env) == Err(ZeroDivision(AtProgressCheck))
    ensures SlicesStarted(targetRps, duration, env) == 1
  {
    assert SlicesRun(env.checks, duration as real) > 0;
  }

  /** When the loop ends because the clock reached the duration, the run
      ends with the report over the slices dispatched. */
  lemma EndsWithReport(targetRps: int, duration: int, env: Env, i: nat)
    requires Fits(targetRps, duration, env)
    requires i <= |env.rounds|
    requires forall j :: 0 <= j < i ==> env.checks[j] < duration as real
    requires env.checks[i] >= duration as real
    requires i > 0 ==> ProgressDue(BatchSize(targetRps), targetRps).Ok?
    ensures SlicesStarted(targetRps, duration, env) == i
    ensures RunResult(targetRps, duration, env) == Report(After(env.rounds[..i]), targetRps, env.finalElapsed)
  {
    SlicesRunIs(env.checks, duration as real, i);
  }

  /** The block after the loop: `actual_rps`, the success rate, the target
      achievement and the latency statistics. */
  method Finish(state: Counters, targetRps: int, finalElapsed: real) returns (r: Result<Summary, RunError>)
    requires Consistent(state)
    ensures r == Report(state, targetRps, finalElapsed)
  {
    var actualRps := ActualRps(state.total, finalElapsed);
    if actualRps.Err? {
      r := Err(actualRps.error);
      return;
    }
    var successRate := SuccessRate(state.successful, state.total);
    var achievement := TargetAchievement(actualRps.value, targetRps);
    if achievement.Err? {
      r := Err(achievement.error);
      return;
    }
    var latency := Summarize(state.latencies);
    r := Ok(Summary(state.total, state.successful, successRate, actualRps.value, achievement.value, latency));
  }

  lemma MulSucc(n: nat, b: nat)
    ensures n * b + b == (n + 1) * b
  {
  }

  /** Every slice adds exactly one batch to `total_requests`. */
  lemma {:induction false} AfterTotal(rounds: seq<Round>, batchSize: nat)
    requires forall i :: 0 <= i < |rounds| ==> |rounds[i].fates| == batchSize
    ensures After(rounds).total == |rounds| * batchSize
  {
    if rounds != [] {
      var init := rounds[..|rounds| - 1];
      assert forall i :: 0 <= i < |init| ==> init[i] == rounds[i];
      AfterTotal(init, batchSize);
      assert After(rounds).total == |init| * batchSize + batchSize;
      MulSucc(|init|, batchSize);
    }
  }

  /** The counters only grow and `latencies` is only appended to: the state
      after a prefix of the slices is below the state after all of them. */
  lemma {:induction false} AfterGrows(rounds: seq<Round>, j: nat)
    requires j <= |rounds|
    ensures After(rounds[..j]).total <= After(rounds).total
    ensures After(rounds[..j]).successful <= After(rounds).successful
    ensures After(rounds[..j]).latencies <= After(rounds).latencies
    decreases |rounds|
  {
    if j < |rounds| {
      var init := rounds[..|rounds| - 1];
      assert init[..j] == rounds[..j];
      AfterGrows(init, j);
    } else {
      assert rounds[..j] == rounds;
    }
  }

  /** Recording two orderings of one batch into counters that agree up to
      the order of samples gives counters that still agree. */
  lemma AbsorbPermutation(c1: Counters, c2: Counters, o1: seq<Outcome>, o2: seq<Outcome>)
    requires c1.total == c2.total && c1.successful == c2.successful
    requires multiset(c1.latencies) == multiset(c2.latencies)
    requires multiset(o1) == multiset(o2)
    ensures Absorb(c1, o1).total == Absorb(c2, o2).total
    ensures Absorb(c1, o1).successful == Absorb(c2, o2).successful
    ensures multiset(Absorb(c1, o1).latencies) == multiset(Absorb(c2, o2).latencies)
  {
    SamplesPermutation(o1, o2);
    assert |o1| == |multiset(o1)| == |multiset(o2)| == |o2|;
  }

  /** Reordering the results within any slice changes neither counter and
      leaves the same multiset of latency samples. */
  lemma {:induction false} AfterPermutation(rs1: seq<Round>, rs2: seq<Round>)
    requires |rs1| == |rs2|
    requires forall i :: 0 <= i < |rs1| ==> multiset(rs1[i].fates) == multiset(rs2[i].fates)
    ensures After(rs1).total == After(rs2).total
    ensures After(rs1).successful == After(rs2).successful
    ensures multiset(After(rs1).latencies) == multiset(After(rs2).latencies)
    decreases |rs1|
  {
    if rs1 != [] {
      var n := |rs1| - 1;
      var init1, init2 := rs1[..n], rs2[..n];
      assert forall i :: 0 <= i < n ==> init1[i] == rs1[i] && init2[i] == rs2[i];
      AfterPermutation(init1, init2);
      ResolveAllPermutation(rs1[n].fates, rs2[n].fates);
      AbsorbPermutation(After(init1), After(init2), ResolveAll(rs1[n].fates), ResolveAll(rs2[n].fates));
    }
  }

  /** The order in which `gather` lists the results of a slice does not
      affect how a run ends. */
  lemma RunPermutation(targetRps: int, duration: int, env1: Env, env2: Env)
    requires Fits(targetRps, duration, env1) && Fits(targetRps, duration, env2)
    requires env1.checks == env2.checks && env1.finalElapsed == env2.finalElapsed
    requires |env1.rounds| == |env2.rounds|
    requires forall i :: 0 <= i < |env1.rounds| ==> multiset(env1.rounds[i].fates) == multiset(env2.rounds[i].fates)
    ensures RunResult(targetRps, duration, env1) == RunResult(targetRps, duration, env2)
  {
    var k := SlicesRun(env1.checks, duration as real);
    var ran1, ran2 := env1.rounds[..k], env2.rounds[..k];
    assert forall i :: 0 <= i < k ==> ran1[i] == env1.rounds[i] && ran2[i] == env2.rounds[i];
    AfterPermutation(ran1, ran2);
    ReportPermutation(After(ran1), After(ran2), targetRps, env1.finalElapsed);
  }

  /** The report depends on the latency samples only as a multiset. */
  lemma ReportPermutation(c1: Counters, c2: Counters, targetRps: int, finalElapsed: real)
    requires Consistent(c1) && Consistent(c2)
    requires c1.total == c2.total && c1.successful == c2.successful
    requires multiset(c1.latencies) == multiset(c2.latencies)
    ensures Report(c1, targetRps, finalElapsed) == Report(c2, targetRps, finalElapsed)
  {
    SummarizePermutation(c1.latencies, c2.latencies);
  }

  /** True when the request behind this fate did not get a response. */
  predicate Failed(x: Resolution)
  {
    x.Escaped? || x.attempt.Threw?
  }

  lemma {:induction false} AfterNoSuccess(rounds: seq<Round>)
    requires forall i, j :: 0 <= i < |rounds| && 0 <= j < |rounds[i].fates| ==> Failed(rounds[i].fates[j])
    ensures After(rounds).successful == 0 && After(rounds).latencies == []
  {
    if rounds != [] {
      var n := |rounds| - 1;
      var init := rounds[..n];
      assert forall i :: 0 <= i < n ==> init[i] == rounds[i];
      AfterNoSuccess(init);
      NoSuccessNoSamples(ResolveAll(rounds[n].fates));
    }
  }

  /** The counters after the slices a run dispatched, when every request
      failed. */
  lemma RanNoSuccess(targetRps: int, duration: int, env: Env)
    requires Fits(targetRps, duration, env)
    requires forall i, j :: 0 <= i < |env.rounds| && 0 <= j < |env.rounds[i].fates| ==> Failed(env.rounds[i].fates[j])
    ensures var c := After(env.rounds[..SlicesRun(env.checks, duration as real)]);
      c.successful == 0 && c.latencies == []
  {
    var k := SlicesRun(env.checks, duration as real);
    var ran := env.rounds[..k];
    assert forall i :: 0 <= i < k ==> ran[i] == env.rounds[i];
    AfterNoSuccess(ran);
  }

  /** Against a service that never answers, a run that completes reports
      no success, a success rate of 0, no latency statistics, and still
      counts every request it sent. */
  lemma NothingSucceeds(targetRps: int, duration: int, env: Env)
    requires Fits(targetRps, duration, env)
    requires forall i, j :: 0 <= i < |env.rounds| && 0 <= j < |env.rounds[i].fates| ==> Failed(env.rounds[i].fates[j])
    requires RunResult(targetRps, duration, env).Ok?
    ensures RunResult(targetRps, duration, env).value.successfulRequests == 0
    ensures RunResult(targetRps, duration, env).value.successRate == 0.0
    ensures RunResult(targetRps, duration, env).value.latency == None
    ensures SlicesRun(env.checks, duration as real) > 0 ==> RunResult(targetRps, duration, env).value.totalRequests > 0
  {
    var k := SlicesRun(env.checks, duration as real);
    RunOutcome(targetRps, duration, env);
    RanNoSuccess(targetRps, duration, env);
    var c := After(env.rounds[..k]);
    assert RunResult(targetRps, duration, env) == Report(c, targetRps, env.finalElapsed);
    ReportNoSuccess(c, targetRps, env.finalElapsed);
  }

  lemma ReportNoSuccess(c: Counters, targetRps: int, finalElapsed: real)
    requires Consistent(c) && c.successful == 0
    requires Report(c, targetRps, finalElapsed).Ok?
    ensures Report(c, targetRps, finalElapsed).value.successRate == 0.0
    ensures Report(c, targetRps, finalElapsed).value.latency == None
  {
  }
}
