/** The request executor (`send_request`) and the join over one batch
    (`asyncio.gather(*tasks, return_exceptions=True)`).

    The HTTP client itself is not modelled: what it did for one GET is an
    `Attempt`, supplied from outside, carrying the two wall-clock readings
    that bracket the request. */
module Outcomes {
  import Seqs

  /** What the HTTP layer did for one GET: a response whose body was read, or
      any `Exception` (timeout, refused connection, malformed JSON, ...). */
  datatype Attempt =
    | Responded(status: int, startTime: real, endTime: real)
    | Threw(message: string, startTime: real, endTime: real)

  /** One element of the list that `gather` returns: the dict built by
      `send_request` with `success` true or false, or an exception object
      that escaped the coroutine and was returned in its place. */
  datatype Outcome =
    | Success(statusCode: int, latencyMs: real)
    | Failure(error: string, latencyMs: real)
    | Raised(error: string)

  /** How a `send_request` coroutine ended, as seen by `gather`: it returned
      its record, or an exception outside `Exception` (cancellation) escaped
      it and `gather` returns that exception object in its place. */
  datatype Resolution =
    | Returned(attempt: Attempt)
    | Escaped(error: string)

  /** A `send_request(session, url)` coroutine, created but not yet awaited. */
  datatype Task = SendRequestTask(url: string)

  /** Elapsed time in milliseconds between two readings in seconds. */
  function LatencyMs(startTime: real, endTime: real): (ms: real)
    ensures ms / 1000.0 == endTime - startTime
    ensures startTime <= endTime ==> ms >= 0.0
  {
    (endTime - startTime) * 1000.0
  }

  /** `send_request`: any received response is a success whatever its status
      code; any exception becomes a failure record that still carries the
      time to failure. Nothing escapes as an exception. */
  function SendRequest(a: Attempt): (o: Outcome)
    ensures o.Success? <==> a.Responded?
    ensures o.Failure? <==> a.Threw?
    ensures o.latencyMs / 1000.0 == a.endTime - a.startTime
    ensures a.Responded? ==> o.statusCode == a.status
    ensures a.Threw? ==> o.error == a.message
  {
    match a
    case Responded(status, t0, t1) => Success(status, LatencyMs(t0, t1))
    case Threw(message, t0, t1) => Failure(message, LatencyMs(t0, t1))
  }

  /** The element `gather` puts in the result list for one coroutine. */
  function Resolve(x: Resolution): (o: Outcome)
    ensures o.Raised? <==> x.Escaped?
    ensures x.Returned? ==> o.Success? == x.attempt.Responded?
    ensures x.Returned? ==> o == SendRequest(x.attempt)
  {
    match x
    case Returned(a) => SendRequest(a)
    case Escaped(e) => Raised(e)
  }

  /** `isinstance(result, dict) and result.get('success')`. */
  predicate CountsAsSuccess(o: Outcome)
  {
    o.Success?
  }

  /** The results for a list of coroutine fates, in the same order. */
  function ResolveAll(fates: seq<Resolution>): (results: seq<Outcome>)
    ensures |results| == |fates|
    ensures forall i :: 0 <= i < |fates| ==> results[i] == Resolve(fates[i])
  {
    if fates == [] then [] else ResolveAll(fates[..|fates| - 1]) + [Resolve(fates[|fates| - 1])]
  }

  /** Only a coroutine that returned after reading a response yields a
      result that `CountsAsSuccess`; a failure record or a returned
      exception object never does. */
  lemma SuccessMeansResponse(x: Resolution)
    ensures CountsAsSuccess(Resolve(x)) <==> x.Returned? && x.attempt.Responded?
    ensures CountsAsSuccess(Resolve(x)) ==> Resolve(x).latencyMs / 1000.0 == x.attempt.endTime - x.attempt.startTime
  {
  }

  lemma ResolveAllConcat(a: seq<Resolution>, b: seq<Resolution>)
    ensures ResolveAll(a + b) == ResolveAll(a) + ResolveAll(b)
  {
    var l, r := ResolveAll(a + b), ResolveAll(a) + ResolveAll(b);
    assert |l| == |r|;
    forall i | 0 <= i < |l|
      ensures l[i] == r[i]
    {
      if i < |a| {
        assert (a + b)[i] == a[i];
      } else {
        assert (a + b)[i] == b[i - |a|];
      }
    }
  }

  lemma {:induction false} ResolveAllRemove(b: seq<Resolution>, k: nat)
    requires k < |b|
    ensures multiset(ResolveAll(b)) == multiset(ResolveAll(b[..k] + b[k + 1..])) + multiset(ResolveAll([b[k]]))
  {
    var pre, mid, post := b[..k], [b[k]], b[k + 1..];
    assert b == (pre + mid) + post;
    ResolveAllConcat(pre + mid, post);
    ResolveAllConcat(pre, mid);
    ResolveAllConcat(pre, post);
    var rp, rm, rq := ResolveAll(pre), ResolveAll(mid), ResolveAll(post);
    assert ResolveAll(b) == rp + rm + rq;
    assert ResolveAll(pre + post) == rp + rq;
    assert multiset(rp + rm + rq) == multiset(rp) + multiset(rm) + multiset(rq);
    assert multiset(rp + rq) == multiset(rp) + multiset(rq);
  }

  /** Reordering the coroutines reorders their results and nothing else. */
  lemma {:induction false} ResolveAllPermutation(a: seq<Resolution>, b: seq<Resolution>)
    requires multiset(a) == multiset(b)
    ensures multiset(ResolveAll(a)) == multiset(ResolveAll(b))
    decreases |a|
  {
    if a == [] {
      assert |b| == |multiset(b)| == 0;
    } else {
      var x, a' := a[|a| - 1], a[..|a| - 1];
      var k := Seqs.FindLast(a, b);
      var pre, post := b[..k], b[k + 1..];
      Seqs.RemoveMatching(a, b, k);
      ResolveAllPermutation(a', pre + post);
      assert a == a' + [x];
      ResolveAllConcat(a', [x]);
      ResolveAllRemove(b, k);
    }
  }

  /** `asyncio.gather(*tasks, return_exceptions=True)`: one result per task,
      in task order, the i-th being what became of the i-th coroutine. */
  function Gather(tasks: seq<Task>, fates: seq<Resolution>): (results: seq<Outcome>)
    requires |fates| == |tasks|
    ensures |results| == |tasks|
    ensures results == ResolveAll(fates)
  {
    seq(|tasks|, i requires 0 <= i < |tasks| => Resolve(fates[i]))
  }

  /** The loop that fills `tasks`: exactly `batchSize` coroutines, all for
      the same URL. */
  method BuildTasks(url: string, batchSize: nat) returns (tasks: seq<Task>)
    ensures |tasks| == batchSize
    ensures forall i :: 0 <= i < |tasks| ==> tasks[i] == SendRequestTask(url)
  {
    tasks := [];
    for i := 0 to batchSize
      invariant |tasks| == i
      invariant forall k :: 0 <= k < i ==> tasks[k] == SendRequestTask(url)
    {
      var task := SendRequestTask(url);
      tasks := tasks + [task];
    }
  }
}
