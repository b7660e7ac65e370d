/** The end-of-run latency statistics of `run_simple_test`: `sum`, `min`,
    `max`, `sorted` and the index-based p50 and p95 over the samples. */
module Stats {
  import opened Wrappers
  import Seqs

  predicate IsSorted(s: seq<real>)
  {
    forall i, j :: 0 <= i < j < |s| ==> s[i] <= s[j]
  }

  /** Insert `x` into an ascending sequence. */
  function Insert(x: real, s: seq<real>): (r: seq<real>)
    requires IsSorted(s)
    ensures IsSorted(r)
    ensures multiset(r) == multiset(s) + multiset{x}
  {
    if s == [] || x <= s[0] then [x] + s
    else
      var t := Insert(x, s[1..]);
      assert s == [s[0]] + s[1..];
      HeadBelowInsert(x, s, t);
      [s[0]] + t
  }

  /** What `Insert` puts after the head of `s` is no smaller than it. */
  lemma HeadBelowInsert(x: real, s: seq<real>, t: seq<real>)
    requires IsSorted(s) && s != [] && s[0] < x
    requires multiset(t) == multiset(s[1..]) + multiset{x}
    ensures forall i :: 0 <= i < |t| ==> s[0] <= t[i]
  {
    forall i | 0 <= i < |t|
      ensures s[0] <= t[i]
    {
      assert t[i] in multiset(t);
      if t[i] != x {
        assert t[i] in multiset(s[1..]);
        var k :| 0 <= k < |s[1..]| && s[1..][k] == t[i];
        assert s[k + 1] == t[i];
      }
    }
  }

  /** `sorted(latencies)`: the ascending permutation of the samples. */
  function Sort(s: seq<real>): (r: seq<real>)
    ensures IsSorted(r)
    ensures multiset(r) == multiset(s)
  {
    if s == [] then []
    else
      assert s == s[..|s| - 1] + [s[|s| - 1]];
      Insert(s[|s| - 1], Sort(s[..|s| - 1]))
  }

  /** `min(latencies)`. */
  function Min(s: seq<real>): (m: real)
    requires |s| > 0
    ensures m in s
    ensures forall x :: x in s ==> m <= x
  {
    if |s| == 1 then s[0]
    else
      var t := Min(s[1..]);
      assert s == [s[0]] + s[1..];
      if s[0] <= t then s[0] else t
  }

  /** `max(latencies)`. */
  function Max(s: seq<real>): (m: real)
    requires |s| > 0
    ensures m in s
    ensures forall x :: x in s ==> x <= m
  {
    if |s| == 1 then s[0]
    else
      var t := Max(s[1..]);
      assert s == [s[0]] + s[1..];
      if t <= s[0] then s[0] else t
  }

  /** `sum(latencies)`, added left to right. */
  function Sum(s: seq<real>): real
  {
    if s == [] then 0.0 else Sum(s[..|s| - 1]) + s[|s| - 1]
  }

  /** A sum of `n` values that all lie in `[lo, hi]` lies in `[n*lo, n*hi]`. */
  lemma {:induction false} SumBounds(s: seq<real>, lo: real, hi: real)
    requires forall x :: x in s ==> lo <= x <= hi
    ensures |s| as real * lo <= Sum(s) <= |s| as real * hi
  {
    if s != [] {
      var init := s[..|s| - 1];
      assert forall x :: x in init ==> x in s;
      SumBounds(init, lo, hi);
      assert s[|s| - 1] in s;
    }
  }

  /** Dividing a total that lies in `[n*lo, n*hi]` by `n > 0` gives a
      quotient in `[lo, hi]`. */
  lemma DivideBounds(total: real, n: real, lo: real, hi: real)
    requires n > 0.0 && n * lo <= total <= n * hi
    ensures lo <= total / n <= hi
  {
    var q := total / n;
    assert total == q * n;
  }

  /** `sum(latencies) / len(latencies)`. */
  function Mean(s: seq<real>): (m: real)
    requires |s| > 0
    ensures Min(s) <= m <= Max(s)
  {
    SumBounds(s, Min(s), Max(s));
    DivideBounds(Sum(s), |s| as real, Min(s), Max(s));
    Sum(s) / |s| as real
  }

  /** A quotient by `n > 0` times `n` is the dividend again. */
  lemma DivideTimes(total: real, n: real, q: real)
    requires n > 0.0 && q == total / n
    ensures q * n == total
  {
  }

  /** The mean is the value that, taken once per sample, adds up to the
      samples' sum. */
  lemma MeanTimesCount(s: seq<real>, m: real)
    requires |s| > 0 && m == Mean(s)
    ensures m * |s| as real == Sum(s)
  {
    DivideTimes(Sum(s), |s| as real, m);
  }

  /** Index of p50 in the sorted samples: `len // 2`. */
  function P50Index(n: nat): (i: nat)
    requires n > 0
    ensures i < n
    ensures 2 * i <= n < 2 * i + 2
  {
    n / 2
  }

  /** Index of p95 in the sorted samples: `int(len * 0.95)`, taken here
      in exact arithmetic. It never precedes the p50 index. */
  function P95Index(n: nat): (i: nat)
    requires n > 0
    ensures P50Index(n) <= i < n
    ensures i as real <= n as real * 0.95 < i as real + 1.0
  {
    n * 95 / 100
  }

  /** The latency lines of the final report. */
  datatype LatencyStats = LatencyStats(avg: real, p50: real, p95: real, min: real, max: real)

  /** In a sorted sequence the first element is the least. */
  lemma SortedHeadIsLeast(s: seq<real>)
    requires IsSorted(s) && |s| > 0
    ensures forall x :: x in s ==> s[0] <= x
  {
    forall x | x in s
      ensures s[0] <= x
    {
      var k :| 0 <= k < |s| && s[k] == x;
      if k > 0 {
        assert s[0] <= s[k];
      }
    }
  }

  /** In a sorted sequence the last element is the greatest. */
  lemma SortedLastIsGreatest(s: seq<real>)
    requires IsSorted(s) && |s| > 0
    ensures forall x :: x in s ==> x <= s[|s| - 1]
  {
    forall x | x in s
      ensures x <= s[|s| - 1]
    {
      var k :| 0 <= k < |s| && s[k] == x;
      if k < |s| - 1 {
        assert s[k] <= s[|s| - 1];
      }
    }
  }

  /** The first and last of `sorted(s)` are `min(s)` and `max(s)`. */
  lemma SortedEnds(s: seq<real>)
    requires |s| > 0
    ensures |Sort(s)| == |s|
    ensures Sort(s)[0] == Min(s)
    ensures Sort(s)[|s| - 1] == Max(s)
  {
    var r := Sort(s);
    var lo, hi := Min(s), Max(s);
    assert |r| == |s| by {
      assert |r| == |multiset(r)|;
      assert |s| == |multiset(s)|;
    }
    SortedHeadIsLeast(r);
    SortedLastIsGreatest(r);
    assert lo in r by { assert lo in multiset(s); }
    assert hi in r by { assert hi in multiset(s); }
    assert r[0] in s by { assert r[0] in multiset(r); }
    assert r[|r| - 1] in s by { assert r[|r| - 1] in multiset(r); }
  }

  /** The elements `sorted(s)` picks for min, p50, p95 and max are elements
      of `s`, in ascending order. */
  lemma SortedPicks(s: seq<real>)
    requires |s| > 0
    ensures |Sort(s)| == |s|
    ensures Sort(s)[P50Index(|s|)] in s && Sort(s)[P95Index(|s|)] in s
    ensures Min(s) <= Sort(s)[P50Index(|s|)] <= Sort(s)[P95Index(|s|)] <= Max(s)
  {
    var r := Sort(s);
    var n := |s|;
    SortedEnds(s);
    var i50, i95 := P50Index(n), P95Index(n);
    assert r[i50] in s by { assert r[i50] in multiset(r); }
    assert r[i95] in s by { assert r[i95] in multiset(r); }
    assert r[0] <= r[i50] by { if 0 < i50 {} }
    assert r[i50] <= r[i95] by { if i50 < i95 {} }
    assert r[i95] <= r[n - 1] by { if i95 < n - 1 {} }
  }

  /** The latency part of the summary: omitted when there is no sample;
      otherwise mean, p50 and p95 from the sorted samples, min and max. */
  function Summarize(latencies: seq<real>): (r: Option<LatencyStats>)
    ensures r.Some? <==> |latencies| > 0
    ensures r.Some? ==>
      var st := r.value;
      && st.min <= st.p50 <= st.p95 <= st.max
      && st.min <= st.avg <= st.max
      && st.min in latencies && st.max in latencies
      && st.p50 in latencies && st.p95 in latencies
      && (forall x :: x in latencies ==> st.min <= x <= st.max)
    ensures r.Some? ==>
      && r.value.avg == Mean(latencies)
      && |Sort(latencies)| == |latencies|
      && r.value.p50 == Sort(latencies)[P50Index(|latencies|)]
      && r.value.p95 == Sort(latencies)[P95Index(|latencies|)]
  {
    if latencies == [] then None
    else
      var sorted := Sort(latencies);
      var n := |latencies|;
      SortedPicks(latencies);
      Some(LatencyStats(Mean(latencies), sorted[P50Index(n)], sorted[P95Index(n)], Min(latencies), Max(latencies)))
  }

  /** Two ascending sequences with the same elements are equal: whatever
      order the samples arrived in, `sorted` gives one answer. */
  lemma {:induction false} SortedUnique(a: seq<real>, b: seq<real>)
    requires IsSorted(a) && IsSorted(b)
    requires multiset(a) == multiset(b)
    ensures a == b
    decreases |a|
  {
    assert |a| == |multiset(a)| == |multiset(b)| == |b|;
    if a != [] {
      SortedHeadIsLeast(a);
      SortedHeadIsLeast(b);
      assert a[0] in b by { assert a[0] in multiset(a); }
      assert b[0] in a by { assert b[0] in multiset(b); }
      assert a == [a[0]] + a[1..];
      assert b == [b[0]] + b[1..];
      assert a[0] == b[0];
      assert multiset(a[1..]) == multiset(b[1..]) by {
        assert multiset(a) == multiset{a[0]} + multiset(a[1..]);
        assert multiset(b) == multiset{b[0]} + multiset(b[1..]);
        assert multiset(a[1..]) == multiset(a) - multiset{a[0]};
        assert multiset(b[1..]) == multiset(b) - multiset{b[0]};
      }
      SortedUnique(a[1..], b[1..]);
    }
  }

  /** Sorting leaves an ascending sequence as it is; in particular sorting
      is idempotent. */
  lemma SortOfSorted(s: seq<real>)
    requires IsSorted(s)
    ensures Sort(s) == s
    ensures Sort(Sort(s)) == Sort(s)
  {
    SortedUnique(Sort(s), s);
  }

  lemma {:induction false} SumConcat(a: seq<real>, b: seq<real>)
    ensures Sum(a + b) == Sum(a) + Sum(b)
    decreases |b|
  {
    if b == [] {
      assert a + b == a;
    } else {
      assert (a + b)[..|a + b| - 1] == a + b[..|b| - 1];
      SumConcat(a, b[..|b| - 1]);
    }
  }

  /** `sum` does not depend on the order of the samples. */
  lemma {:induction false} SumPermutation(a: seq<real>, b: seq<real>)
    requires multiset(a) == multiset(b)
    ensures Sum(a) == Sum(b)
    decreases |a|
  {
    if a == [] {
      assert |b| == |multiset(b)| == 0;
    } else {
      var x, a' := a[|a| - 1], a[..|a| - 1];
      var k := Seqs.FindLast(a, b);
      var pre, post := b[..k], b[k + 1..];
      Seqs.RemoveMatching(a, b, k);
      SumPermutation(a', pre + post);
      assert b == (pre + [x]) + post;
      SumConcat(pre + [x], post);
      SumConcat(pre, [x]);
      SumConcat(pre, post);
      assert Sum([x]) == x by { assert [x][..0] == []; }
    }
  }

  /** The latency statistics depend only on the multiset of samples, not on
      the order in which the requests of a batch completed. */
  lemma SummarizePermutation(a: seq<real>, b: seq<real>)
    requires multiset(a) == multiset(b)
    ensures Summarize(a) == Summarize(b)
  {
    assert |a| == |multiset(a)| == |multiset(b)| == |b|;
    if a != [] {
      SortedUnique(Sort(a), Sort(b));
      SortedEnds(a);
      SortedEnds(b);
      SumPermutation(a, b);
    }
  }

  lemma FiveSampleAscending(s: seq<real>)
    requires s == [10.0, 20.0, 30.0, 40.0, 50.0]
    ensures IsSorted(s)
  {
  }

  lemma FiveSampleSorted(s: seq<real>)
    requires s == [10.0, 20.0, 30.0, 40.0, 50.0]
    ensures Sort(s) == s
    ensures Min(s) == 10.0 && Max(s) == 50.0
  {
    FiveSampleAscending(s);
    SortOfSorted(s);
    SortedEnds(s);
  }

  lemma FiveSampleMean(s: seq<real>)
    requires s == [10.0, 20.0, 30.0, 40.0, 50.0]
    ensures Mean(s) == 30.0
  {
    assert Sum(s[..1]) == 10.0 by { assert s[..1][..0] == []; }
    assert Sum(s[..2]) == 30.0 by { assert s[..2][..1] == s[..1]; }
    assert Sum(s[..3]) == 60.0 by { assert s[..3][..2] == s[..2]; }
    assert Sum(s[..4]) == 100.0 by { assert s[..4][..3] == s[..3]; }
    assert s[..4] == s[..|s| - 1];
  }

  /** The worked example: samples 10..50 ms give avg 30, p50 30 (index 2),
      p95 50 (index 4), min 10, max 50. */
  lemma FiveSampleExample(s: seq<real>)
    requires s == [10.0, 20.0, 30.0, 40.0, 50.0]
    ensures P50Index(|s|) == 2 && P95Index(|s|) == 4
    ensures Summarize(s) == Some(LatencyStats(30.0, 30.0, 50.0, 10.0, 50.0))
  {
    FiveSampleSorted(s);
    FiveSampleMean(s);
  }
}
