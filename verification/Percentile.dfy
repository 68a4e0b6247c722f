/** Nearest-rank percentiles over latency samples (infra/metrics.py). */
module Percentile {
  import opened Options

  function ClampSample(x: int): nat { if x > 0 then x else 0 }

  predicate Ascending(xs: seq<nat>) {
    |xs| <= 1 || (xs[0] <= xs[1] && Ascending(xs[1..]))
  }

  lemma {:induction false} AscendingOrders(xs: seq<nat>, i: nat, j: nat)
    requires Ascending(xs) && i <= j < |xs|
    ensures xs[i] <= xs[j]
  {
    if i > 0 {
      AscendingOrders(xs[1..], i - 1, j - 1);
    } else if j > 0 {
      AscendingOrders(xs[1..], 0, j - 1);
    }
  }

  function Place(x: nat, xs: seq<nat>): (r: seq<nat>)
    ensures |r| == |xs| + 1 && r[0] == if xs == [] || x <= xs[0] then x else xs[0]
    ensures Ascending(xs) ==> Ascending(r)
  {
    if xs == [] || x <= xs[0] then
      assert ([x] + xs)[1..] == xs;
      [x] + xs
    else
      var rest := Place(x, xs[1..]);
      assert ([xs[0]] + rest)[1..] == rest;
      [xs[0]] + rest
  }

  /** `sorted(max(0, x) for x in samples)`. */
  function SortedSamples(samples: seq<int>): (r: seq<nat>)
    ensures Ascending(r) && |r| == |samples|
  {
    if samples == [] then [] else Place(ClampSample(samples[0]), SortedSamples(samples[1..]))
  }

  /** How many samples, clamped, are at most `v` (`strict`: below it). */
  function CountUpTo(samples: seq<int>, v: int): (n: nat)
    ensures n <= |samples|
  {
    if samples == [] then 0
    else CountUpTo(samples[1..], v) + if ClampSample(samples[0]) <= v then 1 else 0
  }

  lemma {:induction false} PlaceCounts(x: nat, xs: seq<nat>, v: int)
    ensures CountUpTo(Place(x, xs), v) == CountUpTo(xs, v) + if x <= v then 1 else 0
  {
    if xs == [] || x <= xs[0] {
      assert ([x] + xs)[1..] == xs;
    } else {
      PlaceCounts(x, xs[1..], v);
      assert Place(x, xs)[1..] == Place(x, xs[1..]);
    }
  }

  lemma {:induction false} SortingKeepsCounts(samples: seq<int>, v: int)
    ensures CountUpTo(SortedSamples(samples), v) == CountUpTo(samples, v)
  {
    if samples != [] {
      SortingKeepsCounts(samples[1..], v);
      PlaceCounts(ClampSample(samples[0]), SortedSamples(samples[1..]), v);
    }
  }

  /** In an ascending list the values up to `v` are a prefix. */
  lemma {:induction false} CountIsPrefix(xs: seq<nat>, v: int, k: nat)
    requires Ascending(xs) && k < |xs|
    ensures xs[k] <= v ==> CountUpTo(xs, v) >= k + 1
    ensures xs[k] > v ==> CountUpTo(xs, v) <= k
  {
    if k > 0 {
      AscendingOrders(xs, 0, k);
      CountIsPrefix(xs[1..], v, k - 1);
    } else if xs[0] > v {
      NoneUpTo(xs, v);
    }
  }

  lemma {:induction false} NoneUpTo(xs: seq<nat>, v: int)
    requires Ascending(xs) && (xs != [] ==> xs[0] > v)
    ensures CountUpTo(xs, v) == 0
  {
    if xs != [] {
      NoneUpTo(xs[1..], v);
    }
  }

  function Ceiling(x: real): int {
    if x == x.Floor as real then x.Floor else x.Floor + 1
  }

  /** How many samples a p-quantile has to cover: `ceil(p * n)`. */
  function Need(p: real, n: nat): int { Ceiling(p * n as real) }

  lemma NeedMonotone(p: real, q: real, n: nat)
    requires p <= q
    ensures Need(p, n) <= Need(q, n)
  {
    Scaled(p, q, n as real);
    CeilingMonotone(p * n as real, q * n as real);
  }

  lemma CeilingMonotone(x: real, y: real)
    requires x <= y
    ensures Ceiling(x) <= Ceiling(y)
  {}

  lemma Scaled(p: real, q: real, n: real)
    requires p <= q && n >= 0.0
    ensures p * n <= q * n
  {}

  lemma NeedWithinSamples(p: real, n: nat)
    requires 0.0 < p <= 1.0 && n > 0
    ensures 1 <= Need(p, n) <= n
  {
    Scaled(p, 1.0, n as real);
    CeilingMonotone(p * n as real, n as real);
    assert p * n as real > 0.0;
  }

  /** The rank index, pulled into the list. */
  function RankIndex(p: real, n: nat): (k: nat)
    requires n > 0
    ensures k < n
  {
    var k := Need(p, n) - 1;
    if k < 0 then 0 else if k > n - 1 then n - 1 else k
  }

  function NearestRank(samples: seq<int>, p: real): Option<nat> {
    if samples == [] then None
    else Some(SortedSamples(samples)[RankIndex(p, |samples|)])
  }

  /** For p in (0, 1]: the result is the least value with at least ceil(p n) clamped samples at or below it. */
  lemma NearestRankIsLeastCover(samples: seq<int>, p: real)
    requires samples != [] && 0.0 < p <= 1.0
    ensures var r := NearestRank(samples, p).value;
            && CountUpTo(samples, r) >= Need(p, |samples|)
            && forall v: int | v < r :: CountUpTo(samples, v) < Need(p, |samples|)
  {
    NeedWithinSamples(p, |samples|);
    RankCovers(samples, RankIndex(p, |samples|));
  }

  lemma RankCovers(samples: seq<int>, k: nat)
    requires k < |samples|
    ensures CountUpTo(samples, SortedSamples(samples)[k]) >= k + 1
    ensures forall v: int | v < SortedSamples(samples)[k] :: CountUpTo(samples, v) <= k
  {
    var xs := SortedSamples(samples);
    CountIsPrefix(xs, xs[k], k);
    SortingKeepsCounts(samples, xs[k]);
    forall v: int | v < xs[k] ensures CountUpTo(samples, v) <= k {
      CountIsPrefix(xs, v, k);
      SortingKeepsCounts(samples, v);
    }
  }

  /** A larger p never gives a smaller result. */
  lemma NearestRankMonotone(samples: seq<int>, p: real, q: real)
    requires samples != [] && p <= q
    ensures NearestRank(samples, p).value <= NearestRank(samples, q).value
  {
    var n := |samples|;
    NeedMonotone(p, q, n);
    AscendingOrders(SortedSamples(samples), RankIndex(p, n), RankIndex(q, n));
  }

  datatype Latencies = Latencies(p50: Option<nat>, p95: Option<nat>, p99: Option<nat>, max: Option<int>)

  /** The report over stored latencies. */
  method CollectLatencies(samples: seq<int>) returns (r: Latencies)
    ensures samples == [] ==> r == Latencies(None, None, None, None)
    ensures r.p50 == NearestRank(samples, 0.5) && r.p95 == NearestRank(samples, 0.95)
    ensures r.p99 == NearestRank(samples, 0.99)
    ensures samples != [] ==> r.p50.Some? && r.p95.Some? && r.p99.Some? && r.max.Some?
    ensures samples != [] ==> r.max.value in samples && forall x | x in samples :: x <= r.max.value
    ensures samples != [] ==> r.p50.value <= r.p95.value <= r.p99.value
    ensures samples != [] ==> (r.p99.value <= r.max.value <==> r.max.value >= 0)
  {
    if samples == [] {
      return Latencies(None, None, None, None);
    }
    var largest := samples[0];
    for i := 1 to |samples|
      invariant largest in samples && forall j | 0 <= j < i :: samples[j] <= largest
    {
      if samples[i] > largest {
        largest := samples[i];
      }
    }
    NearestRankMonotone(samples, 0.5, 0.95);
    NearestRankMonotone(samples, 0.95, 0.99);
    AtMostMaximum(samples, 0.99, largest);
    r := Latencies(NearestRank(samples, 0.5), NearestRank(samples, 0.95), NearestRank(samples, 0.99), Some(largest));
  }

  lemma AtMostMaximum(samples: seq<int>, p: real, largest: int)
    requires samples != [] && forall x | x in samples :: x <= largest
    ensures NearestRank(samples, p).value <= ClampSample(largest)
  {
    var k := RankIndex(p, |samples|);
    AllUpTo(samples, largest);
    CountIsPrefix(SortedSamples(samples), ClampSample(largest), k);
    SortingKeepsCounts(samples, ClampSample(largest));
  }

  lemma {:induction false} AllUpTo(samples: seq<int>, largest: int)
    requires forall x | x in samples :: x <= largest
    ensures CountUpTo(samples, ClampSample(largest)) == |samples|
  {
    if samples != [] {
      assert samples[0] in samples && forall x | x in samples[1..] :: x in samples;
      AllUpTo(samples[1..], largest);
    }
  }
}
