/** The metrics aggregator of `run_simple_test`: the three counters
    `total_requests`, `successful_requests` and `latencies`, and the loop
    that folds one batch of `gather` results into them. */
module Aggregate {
  import opened Outcomes
  import Seqs

  /** The run's counters. `latencies` is only ever appended to. */
  datatype Counters = Counters(total: nat, successful: nat, latencies: seq<real>)

  /** The counters at the start of a run. */
  const Initial: Counters := Counters(0, 0, [])

  /** The run state invariant: never more successes than requests, and
      exactly one latency sample per success. */
  predicate Consistent(c: Counters)
  {
    c.successful <= c.total && |c.latencies| == c.successful
  }

  /** Number of results that count as successes. */
  function CountSuccess(rs: seq<Outcome>): (n: nat)
    ensures n <= |rs|
  {
    if rs == [] then 0
    else CountSuccess(rs[..|rs| - 1]) + (if CountsAsSuccess(rs[|rs| - 1]) then 1 else 0)
  }

  /** The latencies of the results that count as successes, in result order. */
  function Samples(rs: seq<Outcome>): (ls: seq<real>)
    ensures |ls| == CountSuccess(rs)
  {
    if rs == [] then []
    else Samples(rs[..|rs| - 1]) + (if CountsAsSuccess(rs[|rs| - 1]) then [rs[|rs| - 1].latencyMs] else [])
  }

  /** One pass of the collect loop's body: count the result, and if it is a
      success count it again and keep its latency. */
  function Record(c: Counters, o: Outcome): (c': Counters)
    ensures c'.total == c.total + 1
    ensures c'.successful > c.successful <==> CountsAsSuccess(o)
    ensures c'.successful - c.successful == |c'.latencies| - |c.latencies| <= 1
    ensures c.latencies <= c'.latencies
    ensures Consistent(c) ==> Consistent(c')
    ensures CountsAsSuccess(o) ==> c'.latencies == c.latencies + [o.latencyMs]
    ensures !CountsAsSuccess(o) ==> c' == c.(total := c.total + 1)
  {
    if CountsAsSuccess(o) then Counters(c.total + 1, c.successful + 1, c.latencies + [o.latencyMs])
    else Counters(c.total + 1, c.successful, c.latencies)
  }

  /** The counters after recording every result of `rs`, in order. */
  function Absorb(c: Counters, rs: seq<Outcome>): (c': Counters)
    ensures c'.total == c.total + |rs|
    ensures c'.successful == c.successful + CountSuccess(rs)
    ensures c'.latencies == c.latencies + Samples(rs)
    ensures Consistent(c) ==> Consistent(c')
  {
    if rs == [] then c else Record(Absorb(c, rs[..|rs| - 1]), rs[|rs| - 1])
  }

  /** The `for result in results` loop, on local copies of the counters. */
  method Collect(c: Counters, results: seq<Outcome>) returns (c': Counters)
    ensures c' == Absorb(c, results)
  {
    var total, successful, latencies := c.total, c.successful, c.latencies;
    for k := 0 to |results|
      invariant Counters(total, successful, latencies) == Absorb(c, results[..k])
    {
      var result := results[k];
      total := total + 1;
      if CountsAsSuccess(result) {
        successful := successful + 1;
        latencies := latencies + [result.latencyMs];
      }
      assert results[..k + 1][..k] == results[..k];
    }
    assert results[..|results|] == results;
    c' := Counters(total, successful, latencies);
  }

  lemma {:induction false} SamplesConcat(a: seq<Outcome>, b: seq<Outcome>)
    ensures Samples(a + b) == Samples(a) + Samples(b)
    ensures CountSuccess(a + b) == CountSuccess(a) + CountSuccess(b)
    decreases |b|
  {
    if b == [] {
      assert a + b == a;
    } else {
      var b' := b[..|b| - 1];
      assert (a + b)[..|a + b| - 1] == a + b';
      SamplesConcat(a, b');
    }
  }

  /** Every latency sample is the latency of some successful result. */
  lemma {:induction false} SampleOrigin(rs: seq<Outcome>, x: real)
    requires x in Samples(rs)
    ensures exists o :: o in rs && o.Success? && o.latencyMs == x
  {
    var last := rs[|rs| - 1];
    var init := rs[..|rs| - 1];
    if x in Samples(init) {
      SampleOrigin(init, x);
      var o :| o in init && o.Success? && o.latencyMs == x;
      assert o in rs;
    } else {
      assert last in rs;
    }
  }

  /** A batch in which nothing succeeded adds no successes and no samples. */
  lemma {:induction false} NoSuccessNoSamples(rs: seq<Outcome>)
    requires forall i :: 0 <= i < |rs| ==> !CountsAsSuccess(rs[i])
    ensures CountSuccess(rs) == 0 && Samples(rs) == []
  {
    if rs != [] {
      NoSuccessNoSamples(rs[..|rs| - 1]);
    }
  }

  lemma {:induction false} SamplesRemove(rs: seq<Outcome>, k: nat)
    requires k < |rs|
    ensures multiset(Samples(rs)) == multiset(Samples(rs[..k] + rs[k + 1..])) + multiset(Samples([rs[k]]))
  {
    var pre, mid, post := rs[..k], [rs[k]], rs[k + 1..];
    assert rs == (pre + mid) + post;
    SamplesConcat(pre + mid, post);
    SamplesConcat(pre, mid);
    SamplesConcat(pre, post);
    assert Samples(rs) == Samples(pre) + Samples(mid) + Samples(post);
    assert Samples(pre + post) == Samples(pre) + Samples(post);
  }

  /** The order of results within a batch does not matter: any reordering
      yields the same multiset of samples, hence the same success count. */
  lemma {:induction false} SamplesPermutation(a: seq<Outcome>, b: seq<Outcome>)
    requires multiset(a) == multiset(b)
    ensures multiset(Samples(a)) == multiset(Samples(b))
    ensures CountSuccess(a) == CountSuccess(b)
    decreases |a|
  {
    if a == [] {
      assert |b| == |multiset(b)| == 0;
    } else {
      var x, a' := a[|a| - 1], a[..|a| - 1];
      var k := Seqs.FindLast(a, b);
      Seqs.RemoveMatching(a, b, k);
      SamplesPermutation(a', b[..k] + b[k + 1..]);
      SamplesRemove(b, k);
      assert a == a' + [x];
      SamplesConcat(a', [x]);
    }
    assert |multiset(Samples(a))| == |multiset(Samples(b))|;
  }
}
