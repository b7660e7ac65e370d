/** The rate controller's arithmetic in `run_simple_test`: batch sizing,
    the pacing sleep, the progress-report trigger and the ratios of the
    final report, with the `ZeroDivisionError`s they can raise. */
module Pacing {
  import opened Wrappers

  /** Length of one time slice, in seconds (50 ms). */
  const BatchInterval: real := 0.05

  /** Where a `ZeroDivisionError` is raised. */
  datatype Site =
    | AtProgressCheck  // `total_requests % (target_rps // 2)`
    | AtActualRps      // `total_requests / actual_duration`
    | AtAchievement    // `actual_rps / target_rps`

  datatype RunError = ZeroDivision(site: Site)

  /** `max(1, int(target_rps * batch_interval))`: the product truncated
      toward zero, and never less than one request per slice. */
  function BatchSize(targetRps: int): (n: nat)
    ensures n >= 1
    ensures targetRps as real * BatchInterval >= 1.0 ==>
      n as real <= targetRps as real * BatchInterval < n as real + 1.0
    ensures targetRps as real * BatchInterval < 1.0 ==> n == 1
  {
    var q := targetRps / 20;
    assert targetRps == 20 * q + targetRps % 20;
    if q >= 1 then q else 1
  }

  /** The connection pool (`limit=target_rps * 2`) holds a whole batch,
      so a batch is never serialised behind connection acquisition. */
  lemma PoolHoldsBatch(targetRps: int)
    requires targetRps >= 1
    ensures BatchSize(targetRps) <= targetRps * 2
  {
  }

  /** `max(0, batch_interval - elapsed)`: sleep out the rest of the slice,
      or not at all when the batch overran it. */
  function SleepTime(interval: real, elapsed: real): (s: real)
    ensures s >= 0.0
    ensures s > 0.0 <==> elapsed < interval
    ensures s > 0.0 ==> elapsed + s == interval
    ensures elapsed >= 0.0 && interval >= 0.0 ==> s <= interval
  {
    if interval - elapsed > 0.0 then interval - elapsed else 0.0
  }

  /** `successful / total * 100`, or 0 when nothing was sent. */
  function SuccessRate(successful: nat, total: nat): (rate: real)
    ensures total == 0 ==> rate == 0.0
    ensures total > 0 ==> rate * total as real == successful as real * 100.0
    ensures successful <= total ==> 0.0 <= rate <= 100.0
    ensures rate == 0.0 <==> total == 0 || successful == 0
    ensures total > 0 ==> (rate == 100.0 <==> successful == total)
  {
    if total > 0 then successful as real / total as real * 100.0 else 0.0
  }

  /** Whether the progress line is due after a batch:
      `total_requests % (target_rps // 2) == 0`. Python's `//` by 2 floors,
      as Dafny's `/` does for a positive divisor, and `a % d == 0` holds in
      both exactly when `d` divides `a`. The divisor is 0, and the modulo
      raises, exactly when `target_rps` is 0 or 1. */
  function ProgressDue(total: nat, targetRps: int): (r: Result<bool, RunError>)
    ensures r.Err? <==> 0 <= targetRps < 2
    ensures r.Err? ==> r.error == ZeroDivision(AtProgressCheck)
    ensures r.Ok? ==> (r.value <==> (total / (targetRps / 2)) * (targetRps / 2) == total)
    ensures r.Ok? && total == 0 ==> r.value
  {
    var every := targetRps / 2;
    if every == 0 then Err(ZeroDivision(AtProgressCheck)) else Ok(total % every == 0)
  }

  /** `total_requests / actual_duration`, which raises when no time passed. */
  function ActualRps(total: nat, elapsed: real): (r: Result<real, RunError>)
    ensures r.Err? <==> elapsed == 0.0
    ensures r.Err? ==> r.error == ZeroDivision(AtActualRps)
    ensures r.Ok? ==> r.value * elapsed == total as real
  {
    if elapsed == 0.0 then Err(ZeroDivision(AtActualRps)) else Ok(total as real / elapsed)
  }

  /** `actual_rps / target_rps * 100`, which raises when the target is 0. */
  function TargetAchievement(actualRps: real, targetRps: int): (r: Result<real, RunError>)
    ensures r.Err? <==> targetRps == 0
    ensures r.Err? ==> r.error == ZeroDivision(AtAchievement)
    ensures r.Ok? ==> r.value * targetRps as real == actualRps * 100.0
  {
    if targetRps == 0 then Err(ZeroDivision(AtAchievement))
    else Ok(actualRps / targetRps as real * 100.0)
  }
}
