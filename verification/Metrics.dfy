/**
 The start-up latency histogram of src/metrics.c: one bucket per millisecond, a
 p99 read off the buckets, and the sanity check applied to stored counters.
 Counters are unbounded integers here.
 */
module Metrics {
  import opened Base

  const BUCKETS := 2000                       // METRICS_LAT_BUCKETS
  const MAX_STARTUP_MS := 600000              // MAX_REASONABLE_STARTUP_MS
  const ULONG_MAX := 0xFFFF_FFFF_FFFF_FFFF

  // ---- Statistics of a list of samples ----

  function CountBelow(s: seq<nat>, v: nat): (n: nat)
    ensures n <= |s|
  {
    if s == [] then 0 else CountBelow(s[..|s| - 1], v) + if s[|s| - 1] < v then 1 else 0
  }

  function BucketOf(ms: nat): nat { if ms < BUCKETS then ms else BUCKETS - 1 }

  function InBucket(s: seq<nat>, b: nat): nat {
    if s == [] then 0 else InBucket(s[..|s| - 1], b) + if BucketOf(s[|s| - 1]) == b then 1 else 0
  }

  function Total(s: seq<nat>): nat {
    if s == [] then 0 else Total(s[..|s| - 1]) + s[|s| - 1]
  }

  function Largest(s: seq<nat>): nat {
    if s == [] then 0
    else if s[|s| - 1] > Largest(s[..|s| - 1]) then s[|s| - 1] else Largest(s[..|s| - 1])
  }

  function Smallest(s: seq<nat>): nat {
    if s == [] then ULONG_MAX
    else if s[|s| - 1] < Smallest(s[..|s| - 1]) then s[|s| - 1] else Smallest(s[..|s| - 1])
  }

  ghost predicate Sorted(s: seq<nat>) { forall i, j :: 0 <= i < j < |s| ==> s[i] <= s[j] }

  // ---- Buckets count samples ----

  lemma {:induction false} BucketStep(s: seq<nat>, b: nat)
    requires b < BUCKETS
    ensures CountBelow(s, b) + InBucket(s, b) == if b < BUCKETS - 1 then CountBelow(s, b + 1) else |s|
  {
    if s != [] { BucketStep(s[..|s| - 1], b); }
  }

  lemma {:induction false} NothingBelowZero(s: seq<nat>)
    ensures CountBelow(s, 0) == 0
  {
    if s != [] { NothingBelowZero(s[..|s| - 1]); }
  }

  /** The first n buckets of a faithful histogram hold the samples below n. */
  lemma {:induction false} BucketPrefix(s: seq<nat>, buckets: seq<nat>, n: nat)
    requires |buckets| == BUCKETS && forall b :: 0 <= b < BUCKETS ==> buckets[b] == InBucket(s, b)
    requires n <= BUCKETS
    ensures Total(buckets[..n]) == if n < BUCKETS then CountBelow(s, n) else |s|
  {
    if n == 0 {
      NothingBelowZero(s);
    } else {
      BucketPrefix(s, buckets, n - 1);
      BucketStep(s, n - 1);
      assert buckets[..n][..n - 1] == buckets[..n - 1];
    }
  }

  // ---- Order statistics ----

  lemma {:induction false} CountDropAt(s: seq<nat>, k: nat, v: nat)
    requires k < |s|
    ensures CountBelow(s, v) == CountBelow(s[..k] + s[k + 1..], v) + if s[k] < v then 1 else 0
  {
    var last := |s| - 1;
    if k == last {
      assert s[..k] + s[k + 1..] == s[..last];
    } else {
      CountDropAt(s[..last], k, v);
      var t := s[..k] + s[k + 1..];
      assert t[..|t| - 1] == s[..last][..k] + s[..last][k + 1..];
    }
  }

  /** Counting does not depend on the order of the samples. */
  lemma {:induction false} CountPermuted(s: seq<nat>, t: seq<nat>, v: nat)
    requires multiset(s) == multiset(t)
    ensures CountBelow(s, v) == CountBelow(t, v)
  {
    if s == [] {
      assert |multiset(t)| == 0;
    } else {
      var x := s[|s| - 1];
      assert x in multiset(t);
      var k :| 0 <= k < |t| && t[k] == x;
      var rest := t[..k] + t[k + 1..];
      assert t == t[..k] + [x] + t[k + 1..];
      assert s == s[..|s| - 1] + [x];
      assert multiset(rest) == multiset(t) - multiset{x};
      CountPermuted(s[..|s| - 1], rest, v);
      CountDropAt(t, k, v);
    }
  }

  /** In a sorted list the k-th entry has fewer than k entries below it and at
      least k entries up to it. */
  lemma {:induction false} SortedRank(t: seq<nat>, k: nat)
    requires Sorted(t) && 1 <= k <= |t|
    ensures CountBelow(t, t[k - 1]) < k <= CountBelow(t, t[k - 1] + 1)
  {
    SortedBelow(t, t[k - 1], k);
    SortedUpTo(t, t[k - 1], k);
  }

  lemma {:induction false} SortedBelow(t: seq<nat>, v: nat, k: nat)
    requires Sorted(t) && 1 <= k <= |t| && v <= t[k - 1]
    ensures CountBelow(t, v) < k
  {
    if k < |t| { SortedBelow(t[..|t| - 1], v, k); }
  }

  lemma {:induction false} SortedUpTo(t: seq<nat>, v: nat, k: nat)
    requires Sorted(t) && 1 <= k <= |t| && t[k - 1] <= v
    ensures k <= CountBelow(t, v + 1)
  {
    if k < |t| {
      SortedUpTo(t[..|t| - 1], v, k);
    } else if k > 1 {
      SortedUpTo(t[..|t| - 1], v, k - 1);
    }
  }

  lemma {:induction false} CountMonotone(s: seq<nat>, v: nat, w: nat)
    requires v <= w
    ensures CountBelow(s, v) <= CountBelow(s, w)
  {
    if s != [] { CountMonotone(s[..|s| - 1], v, w); }
  }

  // ---- The module state ----

  class Metrics {
    var count: nat
    var total: nat
    var max: nat
    var min: nat
    var buckets: array<nat>
    ghost var samples: seq<nat>   // accepted since metrics_init

    ghost predicate Valid()
      reads this, buckets
    {
      && buckets.Length == BUCKETS
      && (forall b :: 0 <= b < BUCKETS ==> buckets[b] == InBucket(samples, b))
      && count == |samples| && total == Total(samples)
      && max == Largest(samples) && min == Smallest(samples)
      && forall i :: 0 <= i < |samples| ==> samples[i] <= MAX_STARTUP_MS
    }

    /** metrics_init */
    constructor ()
      ensures Valid() && fresh(buckets) && samples == []
    {
      count, total, max, min, samples := 0, 0, 0, ULONG_MAX, [];
      buckets := new nat[BUCKETS](_ => 0);
    }

    /** metrics_record_startup_ms: a sample above ten minutes is ignored. */
    method Record(ms: nat)
      requires Valid()
      modifies this, buckets
      ensures Valid() && buckets == old(buckets)
      ensures samples == if ms <= 600000 then old(samples) + [ms] else old(samples)
    {
      if ms > MAX_STARTUP_MS { return; }
      count := count + 1;
      total := total + ms;
      if ms > max { max := ms; }
      if ms < min { min := ms; }
      var bucket := if ms < BUCKETS then ms else BUCKETS - 1;
      buckets[bucket] := buckets[bucket] + 1;
      samples := samples + [ms];
      assert samples[..|samples| - 1] == old(samples);
    }

    /** compute_p99: the ceil(0.99 n)-th smallest sample, or 1999 when that is larger. */
    method ComputeP99() returns (p99: nat)
      requires Valid()
      ensures samples == [] ==> p99 == 0
      ensures forall sorted: seq<nat> {:trigger Sorted(sorted)} ::
                samples != [] && Sorted(sorted) && multiset(sorted) == multiset(samples) ==>
                  1 <= Target(|samples|) <= |sorted| && p99 == Min(sorted[Target(|samples|) - 1], BUCKETS - 1)
    {
      if count == 0 { return 0; }
      var target := (count * 99 + 99) / 100;
      TargetIsCeiling(count);
      var cumulative := 0;
      p99 := BUCKETS - 1;
      NothingBelowZero(samples);
      for i := 0 to BUCKETS
        invariant cumulative == if i < BUCKETS then CountBelow(samples, i) else |samples|
        invariant cumulative < target
      {
        BucketStep(samples, i);
        cumulative := cumulative + buckets[i];
        if cumulative >= target {
          P99Found(samples, target, i);
          return i;
        }
      }
      assert false;
    }

    /** Whether the sanity check would throw the counters away. */
    predicate Suspicious()
      reads this
      requires count > 0
    {
      min == ULONG_MAX || min > max || total < max || total / count > MAX_STARTUP_MS
    }

    /** normalize_startup_metrics_locked: counters that came from recorded samples survive it. */
    method Normalize()
      requires buckets.Length == BUCKETS
      modifies this`count, this`total, this`max, this`min, this`samples, buckets
      ensures old(Valid()) ==>
                Valid() && samples == old(samples) && count == old(count) && total == old(total)
                && max == old(max) && min == old(min) && buckets[..] == old(buckets[..])
      ensures count > 0 ==> !Suspicious()
      ensures count == 0 ==> total == 0 && max == 0 && min == ULONG_MAX && forall b :: 0 <= b < BUCKETS ==> buckets[b] == 0
    {
      if Valid() && count > 0 { RecordedIsPlausible(samples); }
      if count == 0 {
        ClearBuckets();
        total, max, min := 0, 0, ULONG_MAX;
        return;
      }
      if min == ULONG_MAX || min > max || total < max || total / count > MAX_STARTUP_MS {
        ClearBuckets();
        count, total, max, min, samples := 0, 0, 0, ULONG_MAX, [];
      }
    }

    method ClearBuckets()
      requires buckets.Length == BUCKETS
      modifies buckets
      ensures forall b :: 0 <= b < BUCKETS ==> buckets[b] == 0
    {
      for i := 0 to BUCKETS
        invariant forall b :: 0 <= b < i ==> buckets[b] == 0
      {
        buckets[i] := 0;
      }
    }
  }

  // ---- The percentile ----

  function Target(n: nat): nat { (n * 99 + 99) / 100 }

  lemma TargetIsCeiling(n: nat)
    requires n > 0
    ensures 1 <= Target(n) <= n
    ensures 100 * (Target(n) - 1) < 99 * n <= 100 * Target(n)
  {
  }

  /** The first bucket at which the running count reaches k is the k-th smallest
      sample, clamped to the last bucket. */
  lemma P99Found(s: seq<nat>, k: nat, i: nat)
    requires 1 <= k <= |s| && i < BUCKETS
    requires CountBelow(s, i) < k
    requires i < BUCKETS - 1 ==> k <= CountBelow(s, i + 1)
    ensures forall sorted: seq<nat> {:trigger Sorted(sorted)} ::
              Sorted(sorted) && multiset(sorted) == multiset(s) ==>
                k <= |sorted| && i == Min(sorted[k - 1], BUCKETS - 1)
  {
    forall sorted: seq<nat> | Sorted(sorted) && multiset(sorted) == multiset(s)
      ensures k <= |sorted| && i == Min(sorted[k - 1], BUCKETS - 1)
    {
      assert |multiset(sorted)| == |multiset(s)|;
      var v := sorted[k - 1];
      SortedRank(sorted, k);
      CountPermuted(sorted, s, v);
      CountPermuted(sorted, s, v + 1);
      if v < i { CountMonotone(s, v + 1, i); }
      if i + 1 <= v { CountMonotone(s, i + 1, v); }
    }
  }

  // ---- The sanity check ----

  /** The counters of one or more accepted samples never look suspicious. */
  lemma {:induction false} RecordedIsPlausible(s: seq<nat>)
    requires s != [] && forall i :: 0 <= i < |s| ==> s[i] <= MAX_STARTUP_MS
    ensures Smallest(s) <= Largest(s) <= MAX_STARTUP_MS
    ensures Largest(s) <= Total(s) <= MAX_STARTUP_MS * |s|
    ensures Total(s) / |s| <= MAX_STARTUP_MS
  {
    if |s| > 1 {
      RecordedIsPlausible(s[..|s| - 1]);
    } else {
      assert s[..0] == [];
    }
    AverageBound(Total(s), |s|);
  }

  lemma AverageBound(total: nat, n: nat)
    requires n > 0 && total <= MAX_STARTUP_MS * n
    ensures total / n <= MAX_STARTUP_MS
  {
    var q := total / n;
    assert total == n * q + total % n;
    QuotientBound(q, MAX_STARTUP_MS, n);
  }

  lemma {:induction false} QuotientBound(q: nat, m: nat, n: nat)
    requires n > 0 && n * q <= m * n
    ensures q <= m
  {
    if q > 0 {
      assert n * q == n * (q - 1) + n;
      if m > 0 {
        assert m * n == (m - 1) * n + n;
        QuotientBound(q - 1, m - 1, n);
      }
    }
  }

  /** The extremes that are kept are a sample each, and bound the others. */
  lemma {:induction false} ExtremesAreExtremes(s: seq<nat>)
    requires s != [] && forall i :: 0 <= i < |s| ==> s[i] <= MAX_STARTUP_MS
    ensures Largest(s) in s && Smallest(s) in s
    ensures forall i :: 0 <= i < |s| ==> Smallest(s) <= s[i] <= Largest(s)
  {
    if |s| == 1 {
      assert s[..0] == [];
    } else {
      var before := s[..|s| - 1];
      ExtremesAreExtremes(before);
      assert forall x :: x in before ==> x in s;
      forall i | 0 <= i < |s| ensures Smallest(s) <= s[i] <= Largest(s) {
        if i < |before| { assert s[i] == before[i]; }
      }
    }
  }

  /** The sum that is kept adds up: of two runs of samples it is the sum of both. */
  lemma {:induction false} TotalAddsUp(s: seq<nat>, t: seq<nat>)
    ensures Total(s + t) == Total(s) + Total(t) && (|s| == 1 ==> Total(s) == s[0])
  {
    if |s| == 1 { assert s[..0] == []; }
    if t == [] {
      assert s + t == s;
    } else {
      assert (s + t)[..|s + t| - 1] == s + t[..|t| - 1];
      TotalAddsUp(s, t[..|t| - 1]);
    }
  }

  /** The bucket sum is the sample count. */
  lemma BucketsSumToCount(m: Metrics)
    requires m.Valid()
    ensures Total(m.buckets[..]) == m.count
  {
    BucketPrefix(m.samples, m.buckets[..], BUCKETS);
    assert m.buckets[..][..BUCKETS] == m.buckets[..];
  }
}
