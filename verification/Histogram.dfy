/**
 The latency histogram from observation to reported quantile: bucketed counting, cumulative export,
 the difference of two scrapes, and the interpolated estimate.  Values are exact reals.
 */
module Histogram {

  /** An upper bound as exported: a finite one, or +Inf. */
  datatype Le = Fin(v: real) | Inf

  predicate Less(a: Le, b: Le) {
    a.Fin? && (b.Inf? || a.v < b.v)
  }

  ghost predicate Ascending(bs: seq<real>) {
    forall i, j :: 0 <= i < j < |bs| ==> bs[i] < bs[j]
  }

  /** The finite bounds of a histogram, ascending. */
  type Bounds = bs: seq<real> | Ascending(bs) witness []

  ghost predicate Sorted(ls: seq<Le>) {
    forall i, j :: 0 <= i < j < |ls| ==> Less(ls[i], ls[j])
  }

  /** The exported bounds: the finite ones, then +Inf. */
  function Les(bs: seq<real>): seq<Le> {
    seq(|bs|, i requires 0 <= i < |bs| => Fin(bs[i])) + [Inf]
  }

  // ---------------------------------------------------------------------------
  // Counting observations

  /** `sort.SearchFloat64s`: the least index whose bound is at least `x`. */
  function Bucket(bs: seq<real>, x: real): (i: nat)
    ensures i <= |bs|
    ensures forall j :: 0 <= j < i ==> bs[j] < x
    ensures i < |bs| ==> x <= bs[i]
  {
    if bs == [] then 0
    else if x <= bs[0] then 0
    else 1 + Bucket(bs[1..], x)
  }

  /** How many observations are at most `le`. */
  function AtMost(obs: seq<real>, le: Le): nat {
    if obs == [] then 0
    else AtMost(obs[..|obs| - 1], le) + if le.Inf? || obs[|obs| - 1] <= le.v then 1 else 0
  }

  /** How many observations fall into bucket `i`, the last one being the overflow. */
  function InBucket(bs: seq<real>, obs: seq<real>, i: nat): nat {
    if obs == [] then 0
    else InBucket(bs, obs[..|obs| - 1], i) + if Bucket(bs, obs[|obs| - 1]) == i then 1 else 0
  }

  /** An observation is at most bound `i` exactly when its bucket is `i` or earlier. */
  lemma BucketBound(bs: Bounds, x: real, i: nat)
    requires i <= |bs|
    ensures Bucket(bs, x) <= i <==> Les(bs)[i].Inf? || x <= Les(bs)[i].v
  {
    var b := Bucket(bs, x);
    if i < |bs| && b <= i {
      assert x <= bs[b] <= bs[i];
    }
  }

  /** The observations at most bound `i` are those at most the bound before, and those in bucket `i`. */
  lemma {:induction false} AtMostSteps(bs: Bounds, obs: seq<real>, i: nat)
    requires i <= |bs|
    ensures AtMost(obs, Les(bs)[i]) == (if i == 0 then 0 else AtMost(obs, Les(bs)[i - 1])) + InBucket(bs, obs, i)
  {
    if obs == [] {
    } else {
      AtMostSteps(bs, obs[..|obs| - 1], i);
      BucketBound(bs, obs[|obs| - 1], i);
      if i > 0 { BucketBound(bs, obs[|obs| - 1], i - 1); }
    }
  }

  lemma {:induction false} AtMostInf(obs: seq<real>)
    ensures AtMost(obs, Inf) == |obs|
  {
    if obs == [] {
    } else {
      AtMostInf(obs[..|obs| - 1]);
    }
  }

  lemma {:induction false} AtMostJoins(a: seq<real>, b: seq<real>, le: Le)
    ensures AtMost(a + b, le) == AtMost(a, le) + AtMost(b, le)
  {
    if b == [] {
      assert a + b == a;
    } else {
      assert (a + b)[..|a + b| - 1] == a + b[..|b| - 1];
      AtMostJoins(a, b[..|b| - 1], le);
    }
  }

  // ---------------------------------------------------------------------------
  // The instrument

  class Instrument {
    const bounds: Bounds
    const counts: array<nat>
    var inf: nat
    var count: nat
    var sum: real
    ghost var obs: seq<real>

    ghost predicate Valid()
      reads this, counts
    {
      && counts.Length == |bounds|
      && (forall i :: 0 <= i < |bounds| ==> counts[i] == InBucket(bounds, obs, i))
      && inf == InBucket(bounds, obs, |bounds|)
      && count == |obs|
      && (forall i :: 0 <= i < |obs| ==> obs[i] >= 0.0)
    }

    constructor (bounds: Bounds)
      ensures Valid() && this.bounds == bounds && obs == [] && fresh(counts)
    {
      this.bounds := bounds;
      counts := new nat[|bounds|](_ => 0);
      inf, count, sum, obs := 0, 0, 0.0, [];
    }

    /** Records a non-negative value; a negative one is ignored. */
    method Observe(x: real)
      requires Valid()
      modifies this, counts
      ensures Valid() && obs == if x < 0.0 then old(obs) else old(obs) + [x]
      ensures sum == if x < 0.0 then old(sum) else old(sum) + x
    {
      if x < 0.0 {
        return;
      }
      var idx := Bucket(bounds, x);
      if idx < |bounds| {
        counts[idx] := counts[idx] + 1;
      } else {
        inf := inf + 1;
      }
      count := count + 1;
      sum := sum + x;
      assert (obs + [x])[..|obs|] == obs;
      obs := obs + [x];
    }

    /** The cumulative export says, for each bound, how many observations are at most it. */
    method Export() returns (cums: seq<nat>)
      requires Valid()
      ensures |cums| == |bounds| + 1
      ensures forall i :: 0 <= i <= |bounds| ==> cums[i] == AtMost(obs, Les(bounds)[i])
      ensures cums[|bounds|] == |obs| == count
    {
      cums := [];
      var cum := 0;
      for i := 0 to |bounds|
        invariant |cums| == i
        invariant cum == if i == 0 then 0 else AtMost(obs, Les(bounds)[i - 1])
        invariant forall j :: 0 <= j < i ==> cums[j] == AtMost(obs, Les(bounds)[j])
      {
        AtMostSteps(bounds, obs, i);
        cum := cum + counts[i];
        cums := cums + [cum];
      }
      AtMostSteps(bounds, obs, |bounds|);
      AtMostInf(obs);
      cum := cum + inf;
      cums := cums + [cum];
    }
  }

  // ---------------------------------------------------------------------------
  // Differencing two scrapes

  /** A scraped histogram: cumulative count by bound. */
  type Snapshot = map<Le, real>

  /** What a scrape of an instrument with these observations holds. */
  function Scrape(bs: seq<real>, obs: seq<real>): Snapshot {
    map le | le in Les(bs) :: AtMost(obs, le) as real
  }

  /** A bound that was not scraped counts as zero. */
  function CountAt(h: Snapshot, le: Le): real {
    if le in h then h[le] else 0.0
  }

  function Growth(h0: Snapshot, h1: Snapshot, le: Le): real {
    CountAt(h1, le) - CountAt(h0, le)
  }

  /** The growth at bound `i` beyond that at the bound before. */
  function Fell(h0: Snapshot, h1: Snapshot, bounds: seq<Le>, i: nat): real
    requires i < |bounds|
  {
    Growth(h0, h1, bounds[i]) - if i == 0 then 0.0 else Growth(h0, h1, bounds[i - 1])
  }

  /** Sorted bounds of the later scrape, and the count that fell into each bucket in between. */
  ghost predicate IsDelta(h0: Snapshot, h1: Snapshot, bounds: seq<Le>, counts: seq<real>) {
    && Sorted(bounds) && (forall le :: le in bounds <==> le in h1)
    && |counts| == |bounds|
    && (forall i :: 0 <= i < |bounds| ==> counts[i] == Fell(h0, h1, bounds, i))
  }

  /** Puts `x` in its place. */
  method Insert(ls: seq<Le>, x: Le) returns (r: seq<Le>)
    requires Sorted(ls) && x !in ls
    ensures Sorted(r) && (forall y :: y in r <==> y == x || y in ls)
  {
    var i := 0;
    while i < |ls| && Less(ls[i], x)
      invariant 0 <= i <= |ls|
      invariant forall j :: 0 <= j < i ==> Less(ls[j], x)
    {
      i := i + 1;
    }
    r := ls[..i] + [x] + ls[i..];
    assert forall j :: i <= j < |ls| ==> Less(x, ls[j]) by {
      forall j | i <= j < |ls| ensures Less(x, ls[j]) {
        assert ls[i] in ls;
      }
    }
  }

  /** The window's histogram: sorted bounds and the count that fell into each bucket. */
  method HistDelta(h0: Snapshot, h1: Snapshot) returns (bounds: seq<Le>, counts: seq<real>)
    ensures IsDelta(h0, h1, bounds, counts)
  {
    bounds := [];
    var keys := h1.Keys;
    while keys != {}
      invariant keys <= h1.Keys && Sorted(bounds)
      invariant forall le :: le in bounds <==> le in h1.Keys - keys
      decreases |keys|
    {
      var le :| le in keys;
      bounds := Insert(bounds, le);
      keys := keys - {le};
    }
    counts := [];
    var prev := 0.0;
    for i := 0 to |bounds|
      invariant |counts| == i
      invariant prev == if i == 0 then 0.0 else Growth(h0, h1, bounds[i - 1])
      invariant forall j :: 0 <= j < i ==> counts[j] == Fell(h0, h1, bounds, j)
    {
      var cum := Growth(h0, h1, bounds[i]);
      counts := counts + [cum - prev];
      prev := cum;
    }
  }

  lemma {:induction false} SortedUnique(a: seq<Le>, b: seq<Le>)
    requires Sorted(a) && Sorted(b) && forall x :: x in a <==> x in b
    ensures a == b
  {
    assert |b| > 0 ==> b[0] in b;
    if a == [] {
    } else {
      assert a[0] in b;
      assert a[0] == b[0];
      forall x ensures x in a[1..] <==> x in b[1..] {
        assert x in a[1..] <==> x in a && x != a[0];
        assert x in b[1..] <==> x in b && x != b[0];
      }
      SortedUnique(a[1..], b[1..]);
    }
  }

  /** Differencing two quiescent scrapes recovers exactly the counts of the observations in between. */
  lemma DeltaRecovers(bs: Bounds, before: seq<real>, window: seq<real>, bounds: seq<Le>, counts: seq<real>)
    requires IsDelta(Scrape(bs, before), Scrape(bs, before + window), bounds, counts)
    ensures bounds == Les(bs)
    ensures forall i :: 0 <= i < |counts| ==> counts[i] == InBucket(bs, window, i) as real
  {
    SortedUnique(bounds, Les(bs));
    forall i | 0 <= i < |counts| ensures counts[i] == InBucket(bs, window, i) as real {
      AtMostJoins(before, window, Les(bs)[i]);
      if i > 0 { AtMostJoins(before, window, Les(bs)[i - 1]); }
      AtMostSteps(bs, window, i);
      assert counts[i] == Fell(Scrape(bs, before), Scrape(bs, before + window), bounds, i);
      assert Les(bs)[i] in Les(bs) && (i > 0 ==> Les(bs)[i - 1] in Les(bs));
    }
  }

  // ---------------------------------------------------------------------------
  // Quantile estimation

  /** The cumulative count up to and including bucket `i`. */
  function Through(counts: seq<real>, i: nat): real
    requires i < |counts|
  {
    (if i == 0 then 0.0 else Through(counts, i - 1)) + counts[i]
  }

  function Sum(counts: seq<real>): real {
    if counts == [] then 0.0 else Through(counts, |counts| - 1)
  }

  function Target(counts: seq<real>, q: real): real {
    q * Sum(counts)
  }

  /** The lower edge of bucket `i`. */
  function Lower(bounds: seq<Le>, i: nat): Le
    requires i <= |bounds|
  {
    if i == 0 then Fin(0.0) else bounds[i - 1]
  }

  /** The estimate once bucket `i` has been picked. */
  function Interpolate(bounds: seq<Le>, counts: seq<real>, i: nat, target: real): (r: Le)
    requires Sorted(bounds) && i < |bounds| == |counts|
  {
    var c, cum := counts[i], Through(counts, i);
    if bounds[i].Inf? then Lower(bounds, i)
    else if c <= 0.0 then bounds[i]
    else
      assert i > 0 ==> Less(bounds[i - 1], bounds[i]);
      var lo := Lower(bounds, i).v;
      Fin(Blend(lo, bounds[i].v, target - (cum - c), c))
  }

  /** The point of a bucket that `part` of its count `c` lies below. */
  function Blend(lo: real, hi: real, part: real, c: real): real
    requires c != 0.0
  {
    lo + (hi - lo) * part / c
  }

  /** Bucket `i` is the first whose cumulative count reaches the target. */
  ghost predicate Picks(counts: seq<real>, target: real, i: nat) {
    i < |counts| && Through(counts, i) >= target && forall j: nat :: j < i ==> Through(counts, j) < target
  }

  /** The highest finite bound, reported when no bucket reaches the target. */
  function Top(bounds: seq<Le>): Le
    requires bounds != []
  {
    var last := bounds[|bounds| - 1];
    if last.Inf? && |bounds| > 1 then bounds[|bounds| - 2] else last
  }

  /** `r` interpolates in the bucket picked for `t`; if none is, it is the top bound. */
  ghost predicate IsEstimate(bounds: seq<Le>, counts: seq<real>, t: real, r: Le)
    requires Sorted(bounds) && |bounds| == |counts| && bounds != []
  {
    && (forall i: nat :: Picks(counts, t, i) ==> r == Interpolate(bounds, counts, i, t))
    && ((forall i: nat :: !Picks(counts, t, i)) ==> r == Top(bounds))
  }

  /** The source's two loops; -1 stands for an empty histogram. */
  method HistQuantile(bounds: seq<Le>, counts: seq<real>, q: real) returns (r: Le)
    requires Sorted(bounds) && |bounds| == |counts|
    ensures Sum(counts) <= 0.0 ==> r == Fin(-1.0)
    ensures Sum(counts) > 0.0 ==> IsEstimate(bounds, counts, Target(counts, q), r)
  {
    var total := 0.0;
    for i := 0 to |counts|
      invariant total == if i == 0 then 0.0 else Through(counts, i - 1)
    {
      total := total + counts[i];
    }
    if total <= 0.0 || |bounds| == 0 {
      return Fin(-1.0);
    }
    var target := q * total;
    assert target == Target(counts, q);
    var cum := 0.0;
    for i := 0 to |counts|
      invariant cum == if i == 0 then 0.0 else Through(counts, i - 1)
      invariant forall j: nat :: j < i ==> Through(counts, j) < target
    {
      cum := cum + counts[i];
      if cum >= target {
        assert Picks(counts, target, i);
        return Interpolate(bounds, counts, i, target);
      }
    }
    r := Top(bounds);
  }

  // ---------------------------------------------------------------------------
  // What the estimate means

  /** The bucket counts of a window. */
  function Counts(bs: seq<real>, obs: seq<real>): seq<real> {
    seq(|bs| + 1, i requires 0 <= i => InBucket(bs, obs, i) as real)
  }

  /** Summing bucket counts counts the observations at most the bound. */
  lemma {:induction false} SumIsAtMost(bs: Bounds, obs: seq<real>, i: nat)
    requires i <= |bs|
    ensures Through(Counts(bs, obs), i) == AtMost(obs, Les(bs)[i]) as real
  {
    AtMostSteps(bs, obs, i);
    if i == 0 {
    } else {
      SumIsAtMost(bs, obs, i - 1);
    }
  }

  /** In a sorted list, the `k`-th value is at most `t` exactly when at least `k` values are. */
  lemma {:induction false} KthAtMost(sorted: seq<real>, k: nat, le: Le)
    requires forall i, j :: 0 <= i < j < |sorted| ==> sorted[i] <= sorted[j]
    requires 1 <= k <= |sorted|
    ensures AtMost(sorted, le) <= |sorted|
    ensures AtMost(sorted, le) >= k <==> le.Inf? || sorted[k - 1] <= le.v
  {
    var front, last := sorted[..|sorted| - 1], sorted[|sorted| - 1];
    if |front| == 0 {
    } else {
      KthAtMost(front, if k <= |front| then k else |front|, le);
    }
  }

  lemma SameWithout(front: seq<real>, last: real, b: seq<real>, i: nat)
    requires multiset(front + [last]) == multiset(b) && i < |b| && b[i] == last
    ensures multiset(b[..i] + b[i + 1..]) == multiset(front)
  {
    assert b == b[..i] + [last] + b[i + 1..];
    Cancel(multiset(front), multiset(b[..i] + b[i + 1..]), last);
  }

  lemma Cancel(m: multiset<real>, n: multiset<real>, x: real)
    requires m + multiset{x} == n + multiset{x}
    ensures m == n
  {
    assert m == (m + multiset{x}) - multiset{x};
    assert n == (n + multiset{x}) - multiset{x};
  }

  lemma {:induction false} AtMostPermutes(a: seq<real>, b: seq<real>, le: Le)
    requires multiset(a) == multiset(b)
    ensures AtMost(a, le) == AtMost(b, le)
    decreases |a|
  {
    assert |a| == |multiset(a)| == |multiset(b)| == |b|;
    if a == [] {
    } else {
      var front, last := a[..|a| - 1], a[|a| - 1];
      assert a == front + [last];
      assert last in multiset(b);
      var i :| 0 <= i < |b| && b[i] == last;
      assert b == b[..i] + [last] + b[i + 1..];
      var others := b[..i] + b[i + 1..];
      SameWithout(front, last, b, i);
      AtMostPermutes(front, others, le);
      AtMostJoins(b[..i], [last], le);
      AtMostJoins(b[..i] + [last], b[i + 1..], le);
      AtMostJoins(b[..i], b[i + 1..], le);
    }
  }

  /** `k` is the rank `t` = q N, rounded up. */
  predicate IsRank(k: nat, t: real) {
    k >= 1 && (k - 1) as real < t <= k as real
  }

  ghost predicate InOrder(sorted: seq<real>, obs: seq<real>) {
    multiset(sorted) == multiset(obs) && forall i, j :: 0 <= i < j < |sorted| ==> sorted[i] <= sorted[j]
  }

  lemma TotalIsN(bs: Bounds, obs: seq<real>)
    ensures Sum(Counts(bs, obs)) == |obs| as real
  {
    SumIsAtMost(bs, obs, |bs|);
    AtMostInf(obs);
  }

  lemma EnoughFromKth(bs: Bounds, obs: seq<real>, sorted: seq<real>, k: nat, j: nat)
    requires InOrder(sorted, obs) && 1 <= k <= |sorted| && j <= |bs|
    ensures AtMost(obs, Les(bs)[j]) >= k <==> Bucket(bs, sorted[k - 1]) <= j
  {
    AtMostPermutes(sorted, obs, Les(bs)[j]);
    KthAtMost(sorted, k, Les(bs)[j]);
    BucketBound(bs, sorted[k - 1], j);
  }

  /** A cumulative count reaches the target exactly from the bucket of the `k`-th smallest value on. */
  lemma ReachesFromKth(bs: Bounds, obs: seq<real>, sorted: seq<real>, t: real, k: nat, j: nat)
    requires InOrder(sorted, obs) && IsRank(k, t) && k <= |sorted| && j <= |bs|
    ensures Through(Counts(bs, obs), j) >= t <==> Bucket(bs, sorted[k - 1]) <= j
  {
    SumIsAtMost(bs, obs, j);
    EnoughFromKth(bs, obs, sorted, k, j);
  }

  /** The picked bucket is the one that holds the `k`-th smallest observation. */
  lemma PicksKth(bs: Bounds, obs: seq<real>, sorted: seq<real>, t: real, k: nat)
    requires InOrder(sorted, obs) && IsRank(k, t) && k <= |sorted|
    ensures Picks(Counts(bs, obs), t, Bucket(bs, sorted[k - 1]))
  {
    var b := Bucket(bs, sorted[k - 1]);
    ReachesFromKth(bs, obs, sorted, t, k, b);
    forall j: nat | j < b ensures Through(Counts(bs, obs), j) < t {
      ReachesFromKth(bs, obs, sorted, t, k, j);
    }
  }

  /** `r` is the estimate for a window of observations at target rank `t`. */
  ghost predicate Estimates(bs: Bounds, obs: seq<real>, t: real, r: Le)
  {
    SortedLes(bs);
    IsEstimate(Les(bs), Counts(bs, obs), t, r)
  }

  lemma SortedLes(bs: Bounds)
    ensures Sorted(Les(bs))
  {
  }

  /** Interpolating inside a bucket that the target falls into stays inside that bucket. */
  lemma StaysInside(lo: real, hi: real, part: real, c: real)
    requires lo <= hi && 0.0 < part <= c
    ensures lo <= Blend(lo, hi, part, c) <= hi
    ensures lo < hi ==> lo < Blend(lo, hi, part, c)
  {
    var w := hi - lo;
    assert 0.0 <= w * part <= w * c;
    assert w * part / c <= w;
    if lo < hi { assert w * part > 0.0; }
  }

  /** The lower edge of a bucket as a number. */
  function Edge(bs: seq<real>, i: nat): real
    requires i <= |bs|
  {
    if i == 0 then 0.0 else bs[i - 1]
  }

  /** The part of bucket `i`'s count that lies below the target. */
  function Part(c: seq<real>, i: nat, t: real): real
    requires i < |c|
  {
    t - (Through(c, i) - c[i])
  }

  lemma EstimateIs(bs: Bounds, obs: seq<real>, t: real, i: nat, r: Le)
    requires i <= |bs| && Estimates(bs, obs, t, r) && Picks(Counts(bs, obs), t, i)
    ensures r.Fin?
    ensures i == |bs| ==> r.v == Edge(bs, i)
    ensures var c := Counts(bs, obs); i < |bs| && c[i] > 0.0 ==> r.v == Blend(Edge(bs, i), bs[i], Part(c, i, t), c[i])
  {
    SortedLes(bs);
  }

  /** The picked bucket is not empty, and the target falls inside its share. */
  lemma PartInside(bs: Bounds, obs: seq<real>, t: real, i: nat)
    requires i <= |bs| && t > 0.0 && Picks(Counts(bs, obs), t, i)
    ensures var c := Counts(bs, obs); 0.0 < Part(c, i, t) <= c[i]
  {
    if i > 0 {
      assert Through(Counts(bs, obs), i - 1) < t;
    }
  }

  /** The first bucket starts at zero; a bound below that is harmless as long as nothing is observed there. */
  ghost predicate EdgesFit(bs: Bounds, obs: seq<real>) {
    |bs| > 0 && bs[0] < 0.0 ==> forall i :: 0 <= i < |obs| ==> obs[i] >= 0.0
  }

  lemma EdgeBelow(bs: Bounds, obs: seq<real>, sorted: seq<real>, k: nat)
    requires EdgesFit(bs, obs) && InOrder(sorted, obs) && 1 <= k <= |sorted|
    ensures var i := Bucket(bs, sorted[k - 1]); i < |bs| ==> Edge(bs, i) <= bs[i]
  {
    assert sorted[k - 1] in multiset(obs);
  }

  /** The estimate lies in the bucket of the `k`-th value of `sorted`, or at the highest finite bound. */
  ghost predicate InKthBucket(bs: seq<real>, sorted: seq<real>, k: nat, r: Le)
    requires 1 <= k <= |sorted|
  {
    var i := Bucket(bs, sorted[k - 1]);
    && r.Fin?
    && if i == |bs| then r.v == Edge(bs, i)
       else Edge(bs, i) <= r.v <= bs[i] && (Edge(bs, i) < bs[i] ==> Edge(bs, i) < r.v)
  }

  /**
   For a rank 0 < t <= N the estimate lies in the bucket that holds the k-th smallest of the N
   observations, k being t rounded up; in the overflow bucket it is the highest finite bound.
   */
  lemma QuantileInBucket(bs: Bounds, obs: seq<real>, sorted: seq<real>, t: real, k: nat, r: Le)
    requires EdgesFit(bs, obs)
    requires InOrder(sorted, obs) && IsRank(k, t) && k <= |sorted| && Estimates(bs, obs, t, r)
    ensures InKthBucket(bs, sorted, k, r)
  {
    var c := Counts(bs, obs);
    var i := Bucket(bs, sorted[k - 1]);
    PicksKth(bs, obs, sorted, t, k);
    EstimateIs(bs, obs, t, i, r);
    EdgeBelow(bs, obs, sorted, k);
    if i < |bs| {
      PartInside(bs, obs, t, i);
      StaysInside(Edge(bs, i), bs[i], Part(c, i, t), c[i]);
    }
  }

  /** `x` is to `width` as `part` is to `count`. */
  predicate Divides(x: real, width: real, part: real, count: real) {
    count > 0.0 && x * count == width * part
  }

  /** How many observations lie in earlier buckets. */
  function Before(bs: seq<real>, obs: seq<real>, i: nat): nat
    requires i <= |bs|
  {
    if i == 0 then 0 else AtMost(obs, Les(bs)[i - 1])
  }

  /** Where the target falls into bucket `i`, the estimate divides it in the same proportion. */
  ghost predicate Interpolates(bs: seq<real>, obs: seq<real>, t: real, i: nat, r: Le)
    requires i <= |bs|
  {
    var lower := if i == 0 then 0.0 else bs[i - 1];
    && r.Fin?
    && if i == |bs| then r.v == lower
       else Divides(r.v - lower, bs[i] - lower, t - Before(bs, obs, i) as real, InBucket(bs, obs, i) as real)
  }

  lemma PickedInterpolates(bs: Bounds, obs: seq<real>, t: real, i: nat, r: Le)
    requires i <= |bs| && t > 0.0 && Estimates(bs, obs, t, r) && Picks(Counts(bs, obs), t, i)
    ensures Interpolates(bs, obs, t, i, r)
  {
    EstimateIs(bs, obs, t, i, r);
    PartInside(bs, obs, t, i);
    if i < |bs| {
      PartIs(bs, obs, t, i);
      BlendDivides(Edge(bs, i), bs[i], Part(Counts(bs, obs), i, t), Counts(bs, obs)[i]);
    }
  }

  /**
   The estimate divides its bucket as the target divides the observations in it; in the overflow
   bucket it is the highest finite bound, and zero if there is none.
   */
  lemma EstimateInterpolates(bs: Bounds, obs: seq<real>, sorted: seq<real>, t: real, k: nat, r: Le)
    requires InOrder(sorted, obs) && IsRank(k, t) && k <= |sorted| && Estimates(bs, obs, t, r)
    ensures Interpolates(bs, obs, t, Bucket(bs, sorted[k - 1]), r)
  {
    PicksKth(bs, obs, sorted, t, k);
    PickedInterpolates(bs, obs, t, Bucket(bs, sorted[k - 1]), r);
  }

  lemma PartIs(bs: Bounds, obs: seq<real>, t: real, i: nat)
    requires i <= |bs|
    ensures Part(Counts(bs, obs), i, t) == t - Before(bs, obs, i) as real
  {
    if i > 0 {
      SumIsAtMost(bs, obs, i - 1);
    }
  }

  lemma BlendDivides(lo: real, hi: real, part: real, c: real)
    requires c > 0.0
    ensures Divides(Blend(lo, hi, part, c) - lo, hi - lo, part, c)
  {
  }

  /**
   Outside the range of ranks: at a target of zero the estimate is the lower edge of the first bucket,
   or its upper one when it is empty; above all observations it is the highest finite bound.
   */
  lemma EstimateAtEdges(bs: Bounds, obs: seq<real>, t: real, r: Le)
    requires |bs| > 0 && Estimates(bs, obs, t, r)
    ensures t == 0.0 ==> r == Fin(if InBucket(bs, obs, 0) == 0 then bs[0] else 0.0)
    ensures t > |obs| as real ==> r == Fin(bs[|bs| - 1])
  {
    if t == 0.0 {
      EstimateAtZero(bs, obs, r);
    } else if t > |obs| as real {
      EstimateAboveAll(bs, obs, t, r);
    }
  }

  lemma EstimateAtZero(bs: Bounds, obs: seq<real>, r: Le)
    requires |bs| > 0 && Estimates(bs, obs, 0.0, r)
    ensures r == Fin(if InBucket(bs, obs, 0) == 0 then bs[0] else 0.0)
  {
    SortedLes(bs);
    var c := Counts(bs, obs);
    assert Through(c, 0) == c[0] == InBucket(bs, obs, 0) as real;
    assert Picks(c, 0.0, 0);
    assert r == Interpolate(Les(bs), c, 0, 0.0);
    assert c[0] > 0.0 ==> Blend(0.0, bs[0], 0.0, c[0]) == 0.0;
  }

  lemma EstimateAboveAll(bs: Bounds, obs: seq<real>, t: real, r: Le)
    requires |bs| > 0 && Estimates(bs, obs, t, r) && t > |obs| as real
    ensures r == Fin(bs[|bs| - 1])
  {
    SortedLes(bs);
    forall i: nat ensures !Picks(Counts(bs, obs), t, i) {
      if i <= |bs| { NeverMore(bs, obs, i); }
    }
  }

  lemma NeverMore(bs: Bounds, obs: seq<real>, i: nat)
    requires i <= |bs|
    ensures Through(Counts(bs, obs), i) <= |obs| as real
  {
    SumIsAtMost(bs, obs, i);
    AtMostAll(obs, Les(bs)[i]);
  }

  lemma {:induction false} AtMostAll(obs: seq<real>, le: Le)
    ensures AtMost(obs, le) <= |obs|
  {
    if obs == [] {
    } else {
      AtMostAll(obs[..|obs| - 1], le);
    }
  }

  /** A larger quantile never has a smaller estimate. */
  lemma QuantileMonotone(bs: Bounds, obs: seq<real>, sorted: seq<real>, t1: real, t2: real, k1: nat, k2: nat, r1: Le, r2: Le)
    requires EdgesFit(bs, obs) && InOrder(sorted, obs) && t1 <= t2
    requires IsRank(k1, t1) && IsRank(k2, t2) && k2 <= |sorted|
    requires Estimates(bs, obs, t1, r1) && Estimates(bs, obs, t2, r2)
    ensures r1.Fin? && r2.Fin? && r1.v <= r2.v
  {
    RanksOrdered(t1, t2, k1, k2);
    QuantileInBucket(bs, obs, sorted, t1, k1, r1);
    QuantileInBucket(bs, obs, sorted, t2, k2, r2);
    var i1, i2 := Bucket(bs, sorted[k1 - 1]), Bucket(bs, sorted[k2 - 1]);
    BucketBound(bs, sorted[k1 - 1], i2);
    if i1 == i2 {
      SameBucket(bs, obs, t1, t2, i1, r1, r2, sorted, k1, k2);
    } else {
      LaterBucket(bs, sorted, k1, k2, r1, r2);
    }
  }

  lemma LaterBucket(bs: Bounds, sorted: seq<real>, k1: nat, k2: nat, r1: Le, r2: Le)
    requires 1 <= k1 <= |sorted| && 1 <= k2 <= |sorted|
    requires InKthBucket(bs, sorted, k1, r1) && InKthBucket(bs, sorted, k2, r2)
    requires Bucket(bs, sorted[k1 - 1]) < Bucket(bs, sorted[k2 - 1])
    ensures r1.v <= r2.v
  {
    var i1, i2 := Bucket(bs, sorted[k1 - 1]), Bucket(bs, sorted[k2 - 1]);
    assert i1 < i2 - 1 ==> bs[i1] < bs[i2 - 1];
  }

  lemma RanksOrdered(t1: real, t2: real, k1: nat, k2: nat)
    requires t1 <= t2 && IsRank(k1, t1) && IsRank(k2, t2)
    ensures k1 <= k2
  {
  }

  lemma SameBucket(bs: Bounds, obs: seq<real>, t1: real, t2: real, i: nat, r1: Le, r2: Le, sorted: seq<real>, k1: nat, k2: nat)
    requires EdgesFit(bs, obs) && InOrder(sorted, obs) && t1 <= t2
    requires IsRank(k1, t1) && IsRank(k2, t2) && k1 <= |sorted| && k2 <= |sorted|
    requires Estimates(bs, obs, t1, r1) && Estimates(bs, obs, t2, r2)
    requires Bucket(bs, sorted[k1 - 1]) == Bucket(bs, sorted[k2 - 1]) == i
    ensures r1.Fin? && r2.Fin? && r1.v <= r2.v
  {
    var c := Counts(bs, obs);
    PicksKth(bs, obs, sorted, t1, k1);
    PicksKth(bs, obs, sorted, t2, k2);
    EstimateIs(bs, obs, t1, i, r1);
    EstimateIs(bs, obs, t2, i, r2);
    if i < |bs| {
      EdgeBelow(bs, obs, sorted, k1);
      PartInside(bs, obs, t1, i);
      Slope(Edge(bs, i), bs[i], Part(c, i, t1), Part(c, i, t2), c[i]);
    }
  }

  lemma Slope(lo: real, hi: real, a: real, b: real, c: real)
    requires lo <= hi && a <= b && c > 0.0
    ensures Blend(lo, hi, a, c) <= Blend(lo, hi, b, c)
  {
    assert (hi - lo) * a <= (hi - lo) * b;
  }

  /** Between two quiescent scrapes, `r` is what the report shows for quantile `q`. */
  ghost predicate Reported(bs: Bounds, window: seq<real>, q: real, r: Le)
  {
    if window == [] then r == Fin(-1.0) else Estimates(bs, window, Target(Counts(bs, window), q), r)
  }

  lemma ReportedFrom(bs: Bounds, window: seq<real>, q: real, r: Le)
    requires Sorted(Les(bs))
    requires var c := Counts(bs, window);
      if Sum(c) <= 0.0 then r == Fin(-1.0) else IsEstimate(Les(bs), c, Target(c, q), r)
    ensures Reported(bs, window, q, r)
  {
    TotalIsN(bs, window);
  }

  /** The difference of two quiescent scrapes of one instrument. */
  method WindowDelta(h0: Snapshot, h1: Snapshot, ghost bs: Bounds, ghost before: seq<real>, ghost window: seq<real>)
    returns (bounds: seq<Le>, counts: seq<real>)
    requires h0 == Scrape(bs, before) && h1 == Scrape(bs, before + window)
    ensures bounds == Les(bs) && counts == Counts(bs, window) && Sorted(bounds)
  {
    bounds, counts := HistDelta(h0, h1);
    DeltaRecovers(bs, before, window, bounds, counts);
  }

  /** Difference, then estimate. */
  method WindowQuantile(h0: Snapshot, h1: Snapshot, q: real, ghost bs: Bounds, ghost before: seq<real>, ghost window: seq<real>)
    returns (r: Le)
    requires h0 == Scrape(bs, before) && h1 == Scrape(bs, before + window)
    ensures Reported(bs, window, q, r)
  {
    var bounds, counts := WindowDelta(h0, h1, bs, before, window);
    r := HistQuantile(bounds, counts, q);
    ReportedFrom(bs, window, q, r);
  }

  /** The values that `Observe` records. */
  function Recorded(xs: seq<real>): (r: seq<real>)
    ensures forall i :: 0 <= i < |r| ==> r[i] >= 0.0
  {
    if xs == [] then []
    else Recorded(xs[..|xs| - 1]) + if xs[|xs| - 1] < 0.0 then [] else [xs[|xs| - 1]]
  }

  /** The exported lines, read back as a snapshot. */
  method TakeScrape(ins: Instrument) returns (h: Snapshot)
    requires ins.Valid()
    ensures h == Scrape(ins.bounds, ins.obs)
  {
    var cums := ins.Export();
    var les := Les(ins.bounds);
    SortedLes(ins.bounds);
    h := map[];
    for i := 0 to |les|
      invariant Holds(h, les[..i], cums)
    {
      HoldsMore(h, les, cums, i);
      h := h[les[i] := cums[i] as real];
    }
    assert les[..|les|] == les;
    HoldsScrape(h, ins.bounds, ins.obs, cums);
  }

  /** The snapshot has exactly these lines. */
  ghost predicate Holds(h: Snapshot, les: seq<Le>, cums: seq<nat>) {
    && |les| <= |cums| && (forall le :: le in h <==> le in les)
    && (forall j :: 0 <= j < |les| ==> les[j] in h && h[les[j]] == cums[j] as real)
  }

  lemma HoldsMore(h: Snapshot, les: seq<Le>, cums: seq<nat>, i: nat)
    requires Sorted(les) && i < |les| == |cums| && Holds(h, les[..i], cums)
    ensures Holds(h[les[i] := cums[i] as real], les[..i + 1], cums)
  {
    assert les[..i + 1] == les[..i] + [les[i]];
    assert forall j :: 0 <= j < i ==> Less(les[j], les[i]);
  }

  lemma HoldsScrape(h: Snapshot, bs: seq<real>, obs: seq<real>, cums: seq<nat>)
    requires Holds(h, Les(bs), cums) && forall i :: 0 <= i <= |bs| ==> cums[i] == AtMost(obs, Les(bs)[i])
    ensures h == Scrape(bs, obs)
  {
  }

  method ObserveAll(ins: Instrument, xs: seq<real>)
    requires ins.Valid()
    modifies ins, ins.counts
    ensures ins.Valid() && ins.obs == old(ins.obs) + Recorded(xs)
  {
    for i := 0 to |xs|
      invariant ins.Valid() && ins.obs == old(ins.obs) + Recorded(xs[..i])
    {
      assert xs[..i + 1][..i] == xs[..i];
      ins.Observe(xs[i]);
    }
    assert xs[..|xs|] == xs;
  }

  /** The whole pipeline on one instrument: scrape, observe `xs`, scrape again, difference, estimate. */
  method MeasureWindow(ins: Instrument, xs: seq<real>, q: real) returns (r: Le)
    requires ins.Valid()
    modifies ins, ins.counts
    ensures ins.Valid() && ins.obs == old(ins.obs) + Recorded(xs)
    ensures Reported(ins.bounds, Recorded(xs), q, r) && EdgesFit(ins.bounds, Recorded(xs))
  {
    ghost var before := ins.obs;
    var h0 := TakeScrape(ins);
    ObserveAll(ins, xs);
    var h1 := TakeScrape(ins);
    r := WindowQuantile(h0, h1, q, ins.bounds, before, Recorded(xs));
  }

  /** For 0 < q <= 1 what is reported lies in the bucket of the observation of rank q N rounded up. */
  lemma ReportIsRanked(bs: Bounds, window: seq<real>, sorted: seq<real>, q: real, k: nat, r: Le)
    requires EdgesFit(bs, window)
    ensures 0.0 < q <= 1.0 && Reported(bs, window, q, r) && InOrder(sorted, window) && IsRank(k, q * |window| as real) ==>
      1 <= k <= |sorted| == |window| && InKthBucket(bs, sorted, k, r)
  {
    if 0.0 < q <= 1.0 && Reported(bs, window, q, r) && InOrder(sorted, window) && IsRank(k, q * |window| as real) {
      RankedTarget(bs, window, sorted, q, k, r);
      QuantileInBucket(bs, window, sorted, Target(Counts(bs, window), q), k, r);
    }
  }

  /** Between the same two scrapes, a larger quantile is never reported smaller. */
  lemma ReportMonotone(bs: Bounds, window: seq<real>, q1: real, q2: real, r1: Le, r2: Le)
    requires EdgesFit(bs, window) && 0.0 < q1 <= q2 <= 1.0
    requires Reported(bs, window, q1, r1) && Reported(bs, window, q2, r2)
    ensures r1.Fin? && r2.Fin? && r1.v <= r2.v
  {
    if window != [] {
      var sorted := Ordering(window);
      var k1 := RankOf(q1, |window|);
      var k2 := RankOf(q2, |window|);
      RankedMonotone(bs, window, sorted, q1, q2, k1, k2, r1, r2);
    }
  }

  lemma RankedMonotone(bs: Bounds, window: seq<real>, sorted: seq<real>, q1: real, q2: real, k1: nat, k2: nat, r1: Le, r2: Le)
    requires EdgesFit(bs, window) && 0.0 < q1 <= q2 <= 1.0 && InOrder(sorted, window)
    requires IsRank(k1, q1 * |window| as real) && IsRank(k2, q2 * |window| as real)
    requires Reported(bs, window, q1, r1) && Reported(bs, window, q2, r2)
    ensures r1.Fin? && r2.Fin? && r1.v <= r2.v
  {
    RankedTarget(bs, window, sorted, q1, k1, r1);
    RankedTarget(bs, window, sorted, q2, k2, r2);
    TargetsOrdered(bs, window, q1, q2);
    var c := Counts(bs, window);
    QuantileMonotone(bs, window, sorted, Target(c, q1), Target(c, q2), k1, k2, r1, r2);
  }

  lemma RankOf(q: real, n: nat) returns (k: nat)
    requires q > 0.0 && n > 0
    ensures IsRank(k, q * n as real)
  {
    var t := q * n as real;
    assert t > 0.0;
    k := -((-t).Floor);
  }

  /** Every list of observations can be put in order. */
  lemma {:induction false} Ordering(obs: seq<real>) returns (sorted: seq<real>)
    ensures InOrder(sorted, obs)
  {
    sorted := [];
    if obs == [] {
    } else {
      var rest := Ordering(obs[1..]);
      sorted := Place(rest, obs[0]);
      assert obs == [obs[0]] + obs[1..];
    }
  }

  lemma {:induction false} Place(rest: seq<real>, x: real) returns (sorted: seq<real>)
    requires forall i, j :: 0 <= i < j < |rest| ==> rest[i] <= rest[j]
    ensures InOrder(sorted, [x] + rest)
  {
    if rest == [] || x <= rest[0] {
      sorted := [x] + rest;
    } else {
      var back := Place(rest[1..], x);
      Prepend(rest[0], back, [x] + rest[1..]);
      sorted := [rest[0]] + back;
      Swap(x, rest, back);
    }
  }

  lemma Swap(x: real, rest: seq<real>, back: seq<real>)
    requires rest != [] && multiset(back) == multiset([x] + rest[1..])
    ensures multiset([rest[0]] + back) == multiset([x] + rest)
  {
    assert [x] + rest == [x] + ([rest[0]] + rest[1..]);
  }

  lemma Prepend(low: real, sorted: seq<real>, obs: seq<real>)
    requires InOrder(sorted, obs) && forall i :: 0 <= i < |obs| ==> low <= obs[i]
    ensures forall i, j :: 0 <= i < j < |sorted| + 1 ==> ([low] + sorted)[i] <= ([low] + sorted)[j]
  {
    forall i | 0 <= i < |sorted| ensures low <= sorted[i] {
      assert sorted[i] in multiset(sorted);
      assert sorted[i] in obs;
    }
  }

  lemma RankedTarget(bs: Bounds, window: seq<real>, sorted: seq<real>, q: real, k: nat, r: Le)
    requires 0.0 < q <= 1.0
    requires Reported(bs, window, q, r) && InOrder(sorted, window) && IsRank(k, q * |window| as real)
    ensures 1 <= k <= |sorted| == |window|
    ensures var t := Target(Counts(bs, window), q); IsRank(k, t) && Estimates(bs, window, t, r)
  {
    RankWithin(k, q, sorted, window);
    TargetIsRank(bs, window, q);
  }

  lemma TargetsOrdered(bs: Bounds, window: seq<real>, q1: real, q2: real)
    requires q1 <= q2
    ensures Target(Counts(bs, window), q1) <= Target(Counts(bs, window), q2)
  {
    TotalIsN(bs, window);
    Grows(q1, q2, Sum(Counts(bs, window)));
  }

  lemma Grows(a: real, b: real, n: real)
    requires a <= b && n >= 0.0
    ensures a * n <= b * n
  {
  }

  lemma TargetIsRank(bs: Bounds, window: seq<real>, q: real)
    ensures Target(Counts(bs, window), q) == q * |window| as real
  {
    TotalIsN(bs, window);
  }

  lemma RankWithin(k: nat, q: real, sorted: seq<real>, window: seq<real>)
    requires 0.0 < q <= 1.0 && IsRank(k, q * |window| as real) && InOrder(sorted, window)
    ensures 1 <= k <= |sorted| == |window|
  {
    assert |multiset(sorted)| == |sorted| && |multiset(window)| == |window|;
    var n := |window| as real;
    assert q * n <= n;
  }
}
