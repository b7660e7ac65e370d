/** `simple_extreme_test`: the fixed list of configurations, each run to
    completion and followed by a cool-down pause. */
module Orchestrator {
  import opened Wrappers
  import opened Pacing
  import opened Runner

  /** One entry of `test_configs`. */
  datatype Config = Config(rps: int, duration: int, name: string)

  const TargetUrl: string := "http://localhost:8000/"

  const TestConfigs: seq<Config> := [
    Config(800, 15, "Test 800 RPS"),
    Config(1200, 20, "Test 1200 RPS"),
    Config(1600, 20, "Test 1600 RPS")
  ]

  /** The pause after each configuration, in seconds. */
  const CooldownSeconds: real := 3.0

  /** One possible environment per configuration. */
  predicate FitsAll(configs: seq<Config>, envs: seq<Env>)
  {
    |envs| == |configs| &&
    forall i :: 0 <= i < |envs| ==> Fits(configs[i].rps, configs[i].duration, envs[i])
  }

  /** The configured targets are far from the values that break the
      progress check, and slice into 40, 60 and 80 requests per 50 ms. */
  lemma ConfigsAreSafe()
    ensures forall c :: c in TestConfigs ==> c.rps >= 2
    ensures BatchSize(TestConfigs[0].rps) == 40
    ensures BatchSize(TestConfigs[1].rps) == 60
    ensures BatchSize(TestConfigs[2].rps) == 80
  {
  }

  /** A target of at least 2 requests per second can only make a run raise
      the division by a zero elapsed time. */
  lemma OnlyDurationFails(c: Config, env: Env)
    requires c.rps >= 2
    requires Fits(c.rps, c.duration, env)
    ensures RunResult(c.rps, c.duration, env).Err? ==>
      RunResult(c.rps, c.duration, env) == Err(ZeroDivision(AtActualRps))
  {
    RunOutcome(c.rps, c.duration, env);
  }

  /** The reports are those of the first configurations, in order. */
  predicate Completed(configs: seq<Config>, envs: seq<Env>, reports: seq<Summary>)
    requires FitsAll(configs, envs)
  {
    |reports| <= |configs| &&
    forall j :: 0 <= j < |reports| ==>
      RunResult(configs[j].rps, configs[j].duration, envs[j]) == Ok(reports[j])
  }

  lemma CompletedExtends(configs: seq<Config>, envs: seq<Env>, reports: seq<Summary>, s: Summary)
    requires FitsAll(configs, envs)
    requires Completed(configs, envs, reports) && |reports| < |configs|
    requires RunResult(configs[|reports|].rps, configs[|reports|].duration, envs[|reports|]) == Ok(s)
    ensures Completed(configs, envs, reports + [s])
  {
    var i := |reports|;
    forall j | 0 <= j < i + 1
      ensures RunResult(configs[j].rps, configs[j].duration, envs[j]) == Ok((reports + [s])[j])
    {
      if j < i {
        assert (reports + [s])[j] == reports[j];
      }
    }
  }

  /** The loop of `simple_extreme_test` over any list of configurations:
      each is run in order, an exception from a run ends the whole sequence
      (it reaches the top-level handler), and each completed run is
      followed by one cool-down pause. */
  method RunConfigs(configs: seq<Config>, envs: seq<Env>)
    returns (reports: seq<Summary>, failure: Option<RunError>, pauses: seq<real>)
    requires FitsAll(configs, envs)
    ensures Completed(configs, envs, reports)
    ensures failure.None? <==> |reports| == |configs|
    ensures failure.Some? ==>
      RunResult(configs[|reports|].rps, configs[|reports|].duration, envs[|reports|]) == Err(failure.value)
    ensures |pauses| == |reports|
    ensures forall k :: 0 <= k < |pauses| ==> pauses[k] == CooldownSeconds
  {
    reports, failure, pauses := [], None, [];
    for i := 0 to |configs|
      invariant |reports| == i && |pauses| == i
      invariant Completed(configs, envs, reports)
      invariant forall k :: 0 <= k < i ==> pauses[k] == CooldownSeconds
    {
      var r, _ := RunSimpleTest(TargetUrl, configs[i].rps, configs[i].duration, envs[i]);
      if r.Err? {
        failure := Some(r.error);
        return;
      }
      CompletedExtends(configs, envs, reports, r.value);
      reports := reports + [r.value];
      pauses := pauses + [CooldownSeconds];
    }
  }

  /** `simple_extreme_test`: the loop over the fixed configurations. With
      these configurations the only exception a run can raise is the
      division by a zero duration. */
  method SimpleExtremeTest(envs: seq<Env>)
    returns (reports: seq<Summary>, failure: Option<RunError>, pauses: seq<real>)
    requires FitsAll(TestConfigs, envs)
    ensures |reports| <= |TestConfigs|
    ensures forall i :: 0 <= i < |reports| ==>
      RunResult(TestConfigs[i].rps, TestConfigs[i].duration, envs[i]) == Ok(reports[i])
    ensures failure.None? <==> |reports| == |TestConfigs|
    ensures failure.Some? ==>
      RunResult(TestConfigs[|reports|].rps, TestConfigs[|reports|].duration, envs[|reports|]) == Err(failure.value)
    ensures failure.Some? ==> failure.value == ZeroDivision(AtActualRps)
    ensures |pauses| == |reports|
    ensures forall k :: 0 <= k < |pauses| ==> pauses[k] == CooldownSeconds
  {
    reports, failure, pauses := RunConfigs(TestConfigs, envs);
    if failure.Some? {
      var c := TestConfigs[|reports|];
      assert c.rps >= 2;
      OnlyDurationFails(c, envs[|reports|]);
    }
  }
}
