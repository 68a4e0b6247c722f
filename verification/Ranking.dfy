/** Golden-ranking metrics (agent_eval/metrics.py): NDCG and average precision over exact reals. */
module Ranking {
  import opened Options
  import opened Graphs
  import opened Reals

  type Image = string

  /** `list(dict.fromkeys(xs))`: each value once, at its first position. */
  function Dedup(xs: seq<Image>): (ys: seq<Image>)
    ensures NoDup(ys) && forall x :: x in ys <==> x in xs
    ensures xs != [] ==> ys != [] && ys[0] == xs[0]
  {
    if xs == [] then []
    else
      var ys := Dedup(xs[..|xs| - 1]);
      var last := xs[|xs| - 1];
      assert xs == xs[..|xs| - 1] + [last];
      if last in ys then ys else ys + [last]
  }

  // ----- Gains -----

  /** The weight of a rank, 1 / log2(rank + 2) in the source: positive and strictly decreasing. */
  ghost predicate IsDiscount(w: nat -> real) {
    && (forall r: nat :: w(r) > 0.0)
    && forall r: nat, s: nat :: r < s ==> w(r) > w(s)
  }

  function Weighted(gain: real, weight: real): real { gain * weight }

  /** `sum(value * weight)` over a list of gains. */
  function Discounted(w: nat -> real, gs: seq<real>): real {
    if gs == [] then 0.0 else Discounted(w, gs[..|gs| - 1]) + Weighted(gs[|gs| - 1], w(|gs| - 1))
  }

  function Sum(gs: seq<real>): real {
    if gs == [] then 0.0 else Sum(gs[..|gs| - 1]) + gs[|gs| - 1]
  }

  /** An explicit relevance wins; otherwise earlier expected images gain more. */
  function GainMap(expected: seq<Image>, relevance: map<Image, real>): (gains: map<Image, real>)
    requires NoDup(expected)
    ensures gains.Keys == Elems(expected)
    ensures forall rank | 0 <= rank < |expected| ::
              gains[expected[rank]] == if expected[rank] in relevance then relevance[expected[rank]]
                                       else (|expected| - rank) as real
  {
    map image | image in expected ::
      if image in relevance then relevance[image] else (|expected| - IndexOf(expected, image)) as real
  }

  function IndexOf(xs: seq<Image>, x: Image): (i: nat)
    requires x in xs
    ensures i < |xs| && xs[i] == x
  {
    if xs[0] == x then 0 else 1 + IndexOf(xs[1..], x)
  }

  function Gain(gains: map<Image, real>, image: Image): real {
    if image in gains then gains[image] else 0.0
  }

  function GainsOf(gains: map<Image, real>, images: seq<Image>): (gs: seq<real>)
    ensures |gs| == |images| && forall i | 0 <= i < |gs| :: gs[i] == Gain(gains, images[i])
  {
    seq(|images|, i requires 0 <= i < |images| => Gain(gains, images[i]))
  }

  // ----- The ideal order -----

  predicate Descending(gs: seq<real>) {
    |gs| <= 1 || (gs[0] >= gs[1] && Descending(gs[1..]))
  }

  predicate NonNegative(gs: seq<real>) {
    gs == [] || (gs[0] >= 0.0 && NonNegative(gs[1..]))
  }

  function Insert(x: real, gs: seq<real>): (r: seq<real>)
    ensures |r| == |gs| + 1 && r[0] == if gs == [] || x >= gs[0] then x else gs[0]
    ensures Descending(gs) ==> Descending(r)
    ensures x >= 0.0 && NonNegative(gs) ==> NonNegative(r)
  {
    if gs == [] || x >= gs[0] then
      assert ([x] + gs)[1..] == gs;
      [x] + gs
    else
      var rest := Insert(x, gs[1..]);
      assert ([gs[0]] + rest)[1..] == rest;
      [gs[0]] + rest
  }

  /** `sorted(values, reverse=True)`. */
  function SortDown(gs: seq<real>): (r: seq<real>)
    ensures |r| == |gs| && Descending(r)
    ensures NonNegative(gs) ==> NonNegative(r)
  {
    if gs == [] then [] else Insert(gs[0], SortDown(gs[1..]))
  }

  lemma {:induction false} InsertAddsOne(x: real, gs: seq<real>)
    ensures multiset(Insert(x, gs)) == multiset(gs) + multiset{x}
  {
    if gs != [] && x < gs[0] {
      InsertAddsOne(x, gs[1..]);
      assert gs == [gs[0]] + gs[1..];
    }
  }

  lemma {:induction false} SortDownPermutes(gs: seq<real>)
    ensures multiset(SortDown(gs)) == multiset(gs)
  {
    if gs != [] {
      SortDownPermutes(gs[1..]);
      InsertAddsOne(gs[0], SortDown(gs[1..]));
      assert gs == [gs[0]] + gs[1..];
    }
  }

  /** The sum of the first j values, or of all of them when there are fewer. */
  function Top(gs: seq<real>, j: nat): real {
    if j == 0 || gs == [] then 0.0 else gs[0] + Top(gs[1..], j - 1)
  }

  lemma {:induction false} TopGrows(gs: seq<real>, j: nat, bound: real)
    requires NonNegative(gs) && Descending(gs) && bound >= 0.0 && (gs != [] ==> bound >= gs[0])
    ensures Top(gs, j) <= Top(gs, j + 1) <= bound + Top(gs, j)
  {
    if gs != [] {
      if j == 0 {
        assert Top(gs[1..], 0) == 0.0;
      } else {
        TopGrows(gs[1..], j - 1, bound);
      }
    }
  }

  lemma {:induction false} TopMonotone(gs: seq<real>, i: nat, j: nat)
    requires NonNegative(gs) && Descending(gs) && i <= j
    ensures Top(gs, i) <= Top(gs, j)
    decreases j
  {
    if i < j {
      TopMonotone(gs, i, j - 1);
      TopGrows(gs, j - 1, if gs == [] then 0.0 else gs[0]);
    }
  }

  lemma {:induction false} TopIsPrefixSum(gs: seq<real>, j: nat)
    requires j <= |gs|
    ensures Top(gs, j) == Sum(gs[..j])
    decreases j
  {
    if j > 0 {
      TopIsPrefixSum(gs, j - 1);
      assert gs[..j][..j - 1] == gs[..j - 1];
      TopStep(gs, j - 1);
    }
  }

  lemma {:induction false} TopStep(gs: seq<real>, j: nat)
    requires j < |gs|
    ensures Top(gs, j + 1) == Top(gs, j) + gs[j]
  {
    if j > 0 {
      TopStep(gs[1..], j - 1);
    }
  }

  /** With one more value, the best j are at least the old best j, and at least it plus the old best j - 1. */
  lemma {:induction false} InsertTop(x: real, gs: seq<real>, j: nat)
    requires x >= 0.0 && NonNegative(gs) && Descending(gs)
    ensures Top(Insert(x, gs), j) >= Top(gs, j)
    ensures j > 0 ==> Top(Insert(x, gs), j) >= x + Top(gs, j - 1)
  {
    if j > 0 {
      if gs == [] || x >= gs[0] {
        assert Insert(x, gs)[1..] == gs;
        TopGrows(gs, j - 1, x);
      } else {
        assert Insert(x, gs)[1..] == Insert(x, gs[1..]);
        InsertTop(x, gs[1..], j - 1);
      }
    }
  }

  // ----- No choice of distinct images beats the ideal prefix -----

  /** The part of the gain of `images` that comes from `from`. */
  function Share(gains: map<Image, real>, from: seq<Image>, images: seq<Image>): real
    requires forall x | x in from :: x in gains
  {
    if images == [] then 0.0
    else
      var last := images[|images| - 1];
      Share(gains, from, images[..|images| - 1]) + if last in from then gains[last] else 0.0
  }

  /** How many of `top` are relevant. */
  function Hits(relevant: set<Image>, top: seq<Image>): (n: nat)
    ensures n <= |top|
  {
    if top == [] then 0 else Hits(relevant, top[..|top| - 1]) + if top[|top| - 1] in relevant then 1 else 0
  }

  function HitSet(relevant: set<Image>, top: seq<Image>): set<Image> {
    set x | x in top && x in relevant
  }

  lemma {:induction false} HitsAreDistinct(relevant: set<Image>, top: seq<Image>)
    requires NoDup(top)
    ensures Hits(relevant, top) == |HitSet(relevant, top)| <= |relevant|
  {
    if top != [] {
      var n := |top| - 1;
      HitsAreDistinct(relevant, top[..n]);
      HitSetStep(relevant, top);
    }
    SubsetCardinality(HitSet(relevant, top), relevant);
  }

  lemma HitSetStep(relevant: set<Image>, top: seq<Image>)
    requires NoDup(top) && top != []
    ensures var n := |top| - 1;
            var before := HitSet(relevant, top[..n]);
            if top[n] in relevant then top[n] !in before && HitSet(relevant, top) == before + {top[n]}
            else HitSet(relevant, top) == before
  {
    var n := |top| - 1;
    assert forall x :: x in top <==> x in top[..n] || x == top[n] by {
      assert top == top[..n] + [top[n]];
    }
  }

  lemma {:induction false} SplitOff(gains: map<Image, real>, e: Image, rest: seq<Image>, images: seq<Image>)
    requires e in gains && (forall x | x in rest :: x in gains) && e !in rest && NoDup(images)
    ensures Share(gains, [e] + rest, images) == Share(gains, rest, images) + if e in images then gains[e] else 0.0
  {
    if images != [] {
      var n := |images| - 1;
      SplitOff(gains, e, rest, images[..n]);
      assert images == images[..n] + [images[n]];
      assert e in images <==> e in images[..n] || e == images[n];
    }
  }

  lemma {:induction false} HitsSplit(e: Image, rest: seq<Image>, images: seq<Image>)
    requires e !in rest && NoDup(images)
    ensures Hits(Elems([e] + rest), images) == Hits(Elems(rest), images) + if e in images then 1 else 0
  {
    if images != [] {
      var n := |images| - 1;
      HitsSplit(e, rest, images[..n]);
      assert images == images[..n] + [images[n]];
      assert e in images <==> e in images[..n] || e == images[n];
    }
  }

  lemma {:induction false} ChoiceAtMostTop(gains: map<Image, real>, from: seq<Image>, images: seq<Image>)
    requires NoDup(from) && NoDup(images) && (forall x | x in from :: x in gains) && NonNegative(GainsOf(gains, from))
    ensures Share(gains, from, images) <= Top(SortDown(GainsOf(gains, from)), Hits(Elems(from), images))
    decreases |from|
  {
    if from == [] {
      NoShare(gains, images);
    } else {
      var rest := from[1..];
      assert from == [from[0]] + rest;
      assert GainsOf(gains, from)[1..] == GainsOf(gains, rest);
      ChoiceAtMostTop(gains, rest, images);
      SplitOff(gains, from[0], rest, images);
      HitsSplit(from[0], rest, images);
      InsertTop(gains[from[0]], SortDown(GainsOf(gains, rest)), Hits(Elems(from), images));
    }
  }

  lemma {:induction false} NoShare(gains: map<Image, real>, images: seq<Image>)
    ensures Share(gains, [], images) == 0.0 && Hits(Elems<Image>([]), images) == 0
  {
    if images != [] {
      NoShare(gains, images[..|images| - 1]);
    }
  }

  lemma {:induction false} ShareIsSum(gains: map<Image, real>, from: seq<Image>, images: seq<Image>)
    requires gains.Keys == Elems(from)
    ensures Share(gains, from, images) == Sum(GainsOf(gains, images))
  {
    if images != [] {
      var n := |images| - 1;
      ShareIsSum(gains, from, images[..n]);
      assert GainsOf(gains, images)[..n] == GainsOf(gains, images[..n]);
      assert images[n] in gains <==> images[n] in Elems(from);
    }
  }

  // ----- Summation by parts -----

  function Take(gs: seq<real>, j: nat): seq<real> {
    if j <= |gs| then gs[..j] else gs
  }

  /** Element j of a list continued with zeros. */
  function At(gs: seq<real>, j: nat): real {
    if j < |gs| then gs[j] else 0.0
  }

  lemma TakeStep(w: nat -> real, gs: seq<real>, j: nat)
    ensures Sum(Take(gs, j + 1)) == Sum(Take(gs, j)) + At(gs, j)
    ensures Discounted(w, Take(gs, j + 1)) == Discounted(w, Take(gs, j)) + Weighted(At(gs, j), w(j))
  {
    var taken := Take(gs, j + 1);
    if j < |gs| {
      assert taken[..|taken| - 1] == Take(gs, j) && taken[|taken| - 1] == At(gs, j);
    } else {
      assert taken == Take(gs, j);
    }
  }

  /** Running sums: `gap` adds up the terms, `lead` adds up the terms times their weights. */
  ghost predicate RunningSums(w: nat -> real, x: nat -> real, gap: nat -> real, lead: nat -> real) {
    && gap(0) == 0.0 && lead(0) == 0.0
    && (forall j: nat :: gap(j) >= 0.0)
    && forall j: nat :: Adds(w, x, gap, lead, j)
  }

  ghost predicate Adds(w: nat -> real, x: nat -> real, gap: nat -> real, lead: nat -> real, j: nat) {
    gap(j + 1) == gap(j) + x(j) && lead(j + 1) == lead(j) + Weighted(x(j), w(j))
  }

  ghost predicate FlatUpTo(gap: nat -> real, n: nat) {
    forall j: nat | j <= n :: gap(j) == 0.0
  }

  /** The weighted sum is at least the plain sum at the current weight, and more if the plain sum was ever positive. */
  ghost predicate Ahead(lead: real, gap: real, weight: real, flat: bool) {
    lead >= Weighted(gap, weight) && (lead == Weighted(gap, weight) ==> flat)
  }

  lemma {:induction false} SumByParts(w: nat -> real, x: nat -> real, gap: nat -> real, lead: nat -> real, j: nat)
    requires IsDiscount(w) && RunningSums(w, x, gap, lead)
    ensures Ahead(lead(j + 1), gap(j + 1), w(j), FlatUpTo(gap, j))
  {
    assert Adds(w, x, gap, lead, j) && w(j) > 0.0;
    if j == 0 {
      assert FlatUpTo(gap, 0);
    } else {
      SumByParts(w, x, gap, lead, j - 1);
      assert gap(j) >= 0.0 && w(j - 1) > w(j);
      assert FlatUpTo(gap, j - 1) && gap(j) == 0.0 ==> FlatUpTo(gap, j);
      ByParts(lead(j), gap(j), x(j), w(j - 1), w(j), FlatUpTo(gap, j - 1), FlatUpTo(gap, j));
    }
  }

  lemma ByParts(lead: real, gap: real, x: real, before: real, now: real, flat: bool, flatNow: bool)
    requires gap >= 0.0 && before > now > 0.0 && Ahead(lead, gap, before, flat)
    requires flat && gap == 0.0 ==> flatNow
    ensures Ahead(lead + Weighted(x, now), gap + x, now, flatNow)
  {
    assert (gap + x) * now == gap * now + x * now;
    assert gap * before - gap * now == gap * (before - now);
    NonNegativeProduct(gap, before - now);
  }

  lemma LeadIsZeroWhenFlat(w: nat -> real, x: nat -> real, gap: nat -> real, lead: nat -> real, n: nat)
    requires IsDiscount(w) && RunningSums(w, x, gap, lead)
    ensures lead(n) >= 0.0
    ensures lead(n) == 0.0 <==> FlatUpTo(gap, n)
  {
    if n > 0 {
      SumByParts(w, x, gap, lead, n - 1);
      assert gap(n) >= 0.0 && w(n - 1) > 0.0;
      NonNegativeProduct(gap(n), w(n - 1));
      if FlatUpTo(gap, n) {
        FlatStaysZero(w, x, gap, lead, n);
      }
    }
  }

  lemma {:induction false} FlatStaysZero(w: nat -> real, x: nat -> real, gap: nat -> real, lead: nat -> real, n: nat)
    requires RunningSums(w, x, gap, lead) && FlatUpTo(gap, n)
    ensures lead(n) == 0.0
  {
    if n > 0 {
      FlatStaysZero(w, x, gap, lead, n - 1);
      assert Adds(w, x, gap, lead, n - 1) && gap(n) == 0.0 && gap(n - 1) == 0.0;
      assert x(n - 1) == 0.0;
    }
  }

  /** Every prefix of `a` sums to no more than that of `b`. */
  ghost predicate PrefixesBelow(a: seq<real>, b: seq<real>) {
    forall j: nat :: Sum(Take(a, j)) <= Sum(Take(b, j))
  }

  function Diffs(a: seq<real>, b: seq<real>): nat -> real {
    (j: nat) => At(b, j) - At(a, j)
  }

  function Gaps(a: seq<real>, b: seq<real>): nat -> real {
    (j: nat) => Sum(Take(b, j)) - Sum(Take(a, j))
  }

  function Leads(w: nat -> real, a: seq<real>, b: seq<real>): nat -> real {
    (j: nat) => Discounted(w, Take(b, j)) - Discounted(w, Take(a, j))
  }

  lemma LeadsAdd(w: nat -> real, a: seq<real>, b: seq<real>, j: nat)
    ensures Adds(w, Diffs(a, b), Gaps(a, b), Leads(w, a, b), j)
  {
    TakeStep(w, a, j);
    TakeStep(w, b, j);
    var x, gap, lead := Diffs(a, b), Gaps(a, b), Leads(w, a, b);
    assert gap(j + 1) == gap(j) + x(j);
    assert lead(j + 1) == lead(j) + (Weighted(At(b, j), w(j)) - Weighted(At(a, j), w(j)));
    Distribute(x(j), At(b, j), At(a, j), w(j));
  }

  lemma Distribute(d: real, x: real, y: real, z: real)
    requires d == x - y
    ensures Weighted(d, z) == Weighted(x, z) - Weighted(y, z)
  {}

  lemma LeadsAreRunningSums(w: nat -> real, a: seq<real>, b: seq<real>)
    requires PrefixesBelow(a, b)
    ensures RunningSums(w, Diffs(a, b), Gaps(a, b), Leads(w, a, b))
  {
    assert Take(a, 0) == [] && Take(b, 0) == [];
    forall j: nat ensures Adds(w, Diffs(a, b), Gaps(a, b), Leads(w, a, b), j) {
      LeadsAdd(w, a, b, j);
    }
  }

  /** Over equally many ranks `b` is worth at least as much, and as much exactly when the two lists agree there. */
  lemma DiscountedBelow(w: nat -> real, a: seq<real>, b: seq<real>, n: nat)
    requires IsDiscount(w) && PrefixesBelow(a, b)
    ensures Discounted(w, Take(a, n)) <= Discounted(w, Take(b, n))
    ensures Discounted(w, Take(a, n)) == Discounted(w, Take(b, n)) <==> forall j: nat | j < n :: At(a, j) == At(b, j)
  {
    var x, gap, lead := Diffs(a, b), Gaps(a, b), Leads(w, a, b);
    LeadsAreRunningSums(w, a, b);
    LeadIsZeroWhenFlat(w, x, gap, lead, n);
    FlatExactlyWhenEqual(w, x, gap, lead, n);
    assert lead(n) == Discounted(w, Take(b, n)) - Discounted(w, Take(a, n));
    assert forall j: nat :: x(j) == 0.0 <==> At(a, j) == At(b, j);
  }

  lemma {:induction false} FlatExactlyWhenEqual(w: nat -> real, x: nat -> real, gap: nat -> real, lead: nat -> real,
                                                n: nat)
    requires RunningSums(w, x, gap, lead)
    ensures FlatUpTo(gap, n) <==> forall j: nat | j < n :: x(j) == 0.0
  {
    if n > 0 {
      FlatExactlyWhenEqual(w, x, gap, lead, n - 1);
      assert Adds(w, x, gap, lead, n - 1);
      assert FlatUpTo(gap, n) <==> FlatUpTo(gap, n - 1) && gap(n) == 0.0;
    }
  }

  // ----- NDCG -----

  predicate NonNegativeRelevance(relevance: map<Image, real>) {
    forall image | image in relevance :: relevance[image] >= 0.0
  }

  function IdealGains(expected: seq<Image>, relevance: map<Image, real>): (gs: seq<real>)
    requires NoDup(expected)
    ensures |gs| == |expected| && Descending(gs)
    ensures NonNegativeRelevance(relevance) ==> NonNegative(gs)
  {
    var gs := GainsOf(GainMap(expected, relevance), expected);
    AllNonNegative(gs);
    SortDown(gs)
  }

  lemma {:induction false} AllNonNegative(gs: seq<real>)
    ensures NonNegative(gs) <==> forall i | 0 <= i < |gs| :: gs[i] >= 0.0
  {
    if gs != [] {
      AllNonNegative(gs[1..]);
      assert forall i | 1 <= i < |gs| :: gs[i] == gs[1..][i - 1];
    }
  }

  /** No list of distinct images gains more in its first j ranks than the ideal order does. */
  lemma RankingBelowIdeal(expected: seq<Image>, relevance: map<Image, real>, images: seq<Image>)
    requires NoDup(expected) && NoDup(images) && NonNegativeRelevance(relevance)
    ensures PrefixesBelow(GainsOf(GainMap(expected, relevance), images), IdealGains(expected, relevance))
  {
    var gains, ideal := GainMap(expected, relevance), IdealGains(expected, relevance);
    var mine := GainsOf(gains, images);
    forall j: nat ensures Sum(Take(mine, j)) <= Sum(Take(ideal, j)) {
      var chosen := if j <= |images| then images[..j] else images;
      assert Take(mine, j) == GainsOf(gains, chosen);
      ChoiceBelowIdeal(expected, relevance, chosen, j);
    }
  }

  lemma ChoiceBelowIdeal(expected: seq<Image>, relevance: map<Image, real>, chosen: seq<Image>, j: nat)
    requires NoDup(expected) && NoDup(chosen) && |chosen| <= j && NonNegativeRelevance(relevance)
    ensures Sum(GainsOf(GainMap(expected, relevance), chosen)) <= Sum(Take(IdealGains(expected, relevance), j))
  {
    var gains, ideal := GainMap(expected, relevance), IdealGains(expected, relevance);
    AllNonNegative(GainsOf(gains, expected));
    ShareIsSum(gains, expected, chosen);
    ChoiceAtMostTop(gains, expected, chosen);
    HitsAreDistinct(Elems(expected), chosen);
    NoDupCardinality(expected);
    var m := if j <= |ideal| then j else |ideal|;
    TopMonotone(ideal, Hits(Elems(expected), chosen), m);
    TopIsPrefixSum(ideal, m);
    assert Take(ideal, j) == ideal[..m];
  }

  function CutOff(k: int, actual: seq<Image>): (kk: nat)
    ensures kk <= |actual|
  {
    if actual == [] then 0 else Min(Max(1, k), |actual|)
  }

  function Min(a: int, b: int): int { if b < a then b else a }

  function Max(a: int, b: int): int { if b > a then b else a }

  /** Over deduplicated lists; None when the ideal is worth nothing. */
  function Ndcg(w: nat -> real, expected: seq<Image>, relevance: map<Image, real>, actual: seq<Image>,
                kk: nat): Option<real>
    requires NoDup(expected) && kk <= |actual|
  {
    var dcg := Discounted(w, GainsOf(GainMap(expected, relevance), actual[..kk]));
    var idcg := Discounted(w, Take(IdealGains(expected, relevance), kk));
    if idcg != 0.0 then Some(dcg / idcg) else None
  }

  /** Every rank within the cut-off has the gain the ideal order has there. */
  ghost predicate IsIdealRanking(expected: seq<Image>, relevance: map<Image, real>, actual: seq<Image>, kk: nat)
    requires NoDup(expected) && kk <= |actual|
  {
    forall r | 0 <= r < kk ::
      Gain(GainMap(expected, relevance), actual[r]) == At(IdealGains(expected, relevance), r)
  }

  /** NDCG lies in [0, 1], is 1 exactly for an ideal order, and is absent exactly when the ideal is worth nothing. */
  lemma NdcgInUnitInterval(w: nat -> real, expected: seq<Image>, relevance: map<Image, real>, actual: seq<Image>,
                           kk: nat)
    requires IsDiscount(w) && NoDup(expected) && NoDup(actual) && kk <= |actual| && NonNegativeRelevance(relevance)
    ensures var r := Ndcg(w, expected, relevance, actual, kk);
            && (r.Some? ==>
                  && 0.0 <= r.value <= 1.0
                  && (r.value == 1.0 <==> IsIdealRanking(expected, relevance, actual, kk)))
            && (r.None? <==> forall i | 0 <= i < kk :: At(IdealGains(expected, relevance), i) == 0.0)
  {
    var gains, ideal := GainMap(expected, relevance), IdealGains(expected, relevance);
    var mine := GainsOf(gains, actual[..kk]);
    var idcg := Discounted(w, Take(ideal, kk));
    RankingBelowIdeal(expected, relevance, actual[..kk]);
    DiscountedBelow(w, mine, ideal, kk);
    assert Take(mine, kk) == mine;
    assert forall r | 0 <= r < kk :: At(mine, r) == Gain(gains, actual[r]);
    ZeroGainsBelow(w, expected, relevance, mine, kk);
    if idcg != 0.0 {
      Quotient(Discounted(w, mine), idcg);
    }
  }

  /** The empty ranking is below any other: discounted sums of gains are non-negative, and 0 only for zero gains. */
  lemma ZeroGainsBelow(w: nat -> real, expected: seq<Image>, relevance: map<Image, real>, mine: seq<real>, kk: nat)
    requires IsDiscount(w) && NoDup(expected) && NonNegativeRelevance(relevance) && |mine| == kk
    requires forall i | 0 <= i < kk :: mine[i] >= 0.0
    ensures Discounted(w, mine) >= 0.0
    ensures Discounted(w, Take(IdealGains(expected, relevance), kk)) >= 0.0
    ensures Discounted(w, Take(IdealGains(expected, relevance), kk)) == 0.0
            <==> forall i: nat | i < kk :: At(IdealGains(expected, relevance), i) == 0.0
  {
    var ideal := IdealGains(expected, relevance);
    AllNonNegative(ideal);
    ZeroBelow(mine);
    ZeroBelow(ideal);
    DiscountedBelow(w, [], mine, kk);
    DiscountedBelow(w, [], ideal, kk);
    assert Take(mine, kk) == mine && Take([], kk) == [];
  }

  lemma ZeroBelow(gs: seq<real>)
    requires forall i | 0 <= i < |gs| :: gs[i] >= 0.0
    ensures PrefixesBelow([], gs)
  {
    forall j: nat ensures Sum(Take([], j)) <= Sum(Take(gs, j)) {
      SumNonNegative(Take(gs, j));
    }
  }

  lemma {:induction false} SumNonNegative(gs: seq<real>)
    requires forall i | 0 <= i < |gs| :: gs[i] >= 0.0
    ensures Sum(gs) >= 0.0
  {
    if gs != [] {
      SumNonNegative(gs[..|gs| - 1]);
    }
  }

  lemma Quotient(x: real, y: real)
    requires 0.0 <= x <= y && y > 0.0
    ensures 0.0 <= x / y <= 1.0
    ensures x / y == 1.0 <==> x == y
  {}

  // ----- Average precision -----

  /** The first `m` results all exist and are relevant. */
  predicate LeadingHits(relevant: set<Image>, actual: seq<Image>, m: nat) {
    m <= |actual| && forall i | 0 <= i < m :: actual[i] in relevant
  }

  lemma {:induction false} LeadingHitsCount(relevant: set<Image>, top: seq<Image>, m: nat)
    requires m <= |top| && LeadingHits(relevant, top, m)
    ensures Hits(relevant, top) >= m
    decreases |top|
  {
    if m < |top| {
      LeadingHitsCount(relevant, top[..|top| - 1], m);
    } else if m > 0 {
      LeadingHitsCount(relevant, top[..m - 1], m - 1);
    }
  }

  lemma {:induction false} FullHits(relevant: set<Image>, top: seq<Image>)
    requires Hits(relevant, top) == |top|
    ensures LeadingHits(relevant, top, |top|)
  {
    if top != [] {
      FullHits(relevant, top[..|top| - 1]);
    }
  }

  /** The precision at each relevant rank, summed. */
  function PrecisionTotal(relevant: set<Image>, top: seq<Image>): real {
    if top == [] then 0.0
    else
      PrecisionTotal(relevant, top[..|top| - 1])
      + if top[|top| - 1] in relevant then Hits(relevant, top) as real / |top| as real else 0.0
  }

  /** The loop of average precision: the sum of seen / rank over the relevant ranks. */
  method PrecisionSum(relevant: set<Image>, top: seq<Image>) returns (sum: real)
    requires NoDup(top)
    ensures sum == PrecisionTotal(relevant, top)
    ensures 0.0 <= sum <= Hits(relevant, top) as real
    ensures sum == Hits(relevant, top) as real <==> LeadingHits(relevant, top, Hits(relevant, top))
  {
    sum := 0.0;
    var seen := 0;
    for i := 0 to |top|
      invariant seen == Hits(relevant, top[..i]) <= i
      invariant sum == PrecisionTotal(relevant, top[..i])
      invariant 0.0 <= sum <= seen as real
      invariant sum == seen as real <==> LeadingHits(relevant, top, seen)
    {
      assert top[..i + 1][..i] == top[..i];
      if top[i] in relevant {
        if LeadingHits(relevant, top, seen + 1) && seen < i {
          LeadingHitsCount(relevant, top[..i], seen + 1);
        }
        if seen == i {
          FullHits(relevant, top[..i]);
        }
        seen := seen + 1;
        Quotient(seen as real, (i + 1) as real);
        sum := sum + seen as real / (i + 1) as real;
      }
    }
    assert top[..|top|] == top;
  }

  method AveragePrecision(relevant: set<Image>, actual: seq<Image>, k: int) returns (ap: real)
    requires NoDup(actual)
    ensures ap == var m := Min(|relevant|, Max(1, k));
                  if m == 0 then 1.0 else PrecisionTotal(relevant, actual[..CutOff(k, actual)]) / m as real
    ensures 0.0 <= ap <= 1.0
    ensures ap == 1.0 <==> LeadingHits(relevant, actual, Min(|relevant|, Max(1, k)))
  {
    var kk := CutOff(k, actual);
    var top := actual[..kk];
    var sum := PrecisionSum(relevant, top);
    var denominator: nat := Min(|relevant|, Max(1, k));
    var hits := Hits(relevant, top);
    HitsAreDistinct(relevant, top);
    if LeadingHits(relevant, actual, denominator) {
      LeadingHitsCount(relevant, top, denominator);
    }
    if denominator == 0 {
      return 1.0;
    }
    Quotient(sum, denominator as real);
    ap := sum / denominator as real;
  }

  /** `_ranking`, its NDCG and average precision: both lists are deduplicated first, and k is at least 1. */
  method Evaluate(w: nat -> real, expected: seq<Image>, actual: seq<Image>, k: int, relevance: map<Image, real>)
      returns (ndcg: Option<real>, ap: real)
    requires IsDiscount(w)
    ensures ndcg == Ndcg(w, Dedup(expected), relevance, Dedup(actual), CutOff(k, Dedup(actual)))
    ensures NonNegativeRelevance(relevance) && ndcg.Some? ==>
              && 0.0 <= ndcg.value <= 1.0
              && (ndcg.value == 1.0 <==>
                  IsIdealRanking(Dedup(expected), relevance, Dedup(actual), CutOff(k, Dedup(actual))))
    ensures NonNegativeRelevance(relevance) ==>
              (ndcg.None? <==> forall i | 0 <= i < CutOff(k, Dedup(actual)) ::
                                 At(IdealGains(Dedup(expected), relevance), i) == 0.0)
    ensures 0.0 <= ap <= 1.0
    ensures ap == 1.0 <==>
              LeadingHits(Elems(expected), Dedup(actual), Min(|Elems(expected)|, Max(1, k)))
  {
    var wanted, found := Dedup(expected), Dedup(actual);
    var kk := CutOff(k, found);
    ndcg := Ndcg(w, wanted, relevance, found, kk);
    if NonNegativeRelevance(relevance) {
      NdcgInUnitInterval(w, wanted, relevance, found, kk);
    }
    assert Elems(wanted) == Elems(expected);
    ap := AveragePrecision(Elems(wanted), found, k);
  }
}
