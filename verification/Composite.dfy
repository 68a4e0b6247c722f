/** The composite evaluation score (agent_eval/metrics.py): four-decimal weights over the available components. */
module Composite {
  import opened Options
  import opened Reals

  /** A component's score in [0, 100], or None when it was not measured, with its configured weight. */
  datatype Component = Component(score: Option<real>, weight: real)

  /** `round(x, 4)`: to the nearest multiple of 0.0001, a tie to the even one. */
  function Round4(x: real): (r: real)
    ensures -0.00005 <= r - x <= 0.00005
  {
    var scaled := x * 10000.0;
    var low := scaled.Floor;
    var rest := scaled - low as real;
    var nearest := if rest < 0.5 || (rest == 0.5 && low % 2 == 0) then low else low + 1;
    nearest as real / 10000.0
  }

  function AvailableWeight(cs: seq<Component>): real {
    if cs == [] then 0.0
    else AvailableWeight(cs[1..]) + if cs[0].score.Some? then cs[0].weight else 0.0
  }

  /** The share of the available weight, rounded; 0 for a component that is not available. */
  function EffectiveWeight(c: Component, available: real): real {
    if c.score.Some? && available > 0.0 then Round4(c.weight / available) else 0.0
  }

  function EffectiveSum(cs: seq<Component>, available: real): real {
    if cs == [] then 0.0 else EffectiveSum(cs[1..], available) + EffectiveWeight(cs[0], available)
  }

  function Times(x: real, y: real): real { x * y }

  /** The score before its final rounding. */
  function Overall(cs: seq<Component>, available: real): real {
    if cs == [] then 0.0
    else
      Overall(cs[1..], available)
      + if cs[0].score.Some? then Times(cs[0].score.value, EffectiveWeight(cs[0], available)) else 0.0
  }

  /** The weighted sum of the available scores; divided by the available weight it is the exact mean. */
  function ExactSum(cs: seq<Component>): real {
    if cs == [] then 0.0
    else ExactSum(cs[1..]) + if cs[0].score.Some? then Times(cs[0].score.value, cs[0].weight) else 0.0
  }

  predicate ScoresInRange(cs: seq<Component>) {
    forall c | c in cs && c.score.Some? :: 0.0 <= c.score.value <= 100.0
  }

  predicate Within(x: real, y: real, error: real) {
    -error <= x - y <= error
  }

  lemma {:induction false} EffectiveSumError(cs: seq<Component>, available: real)
    requires available > 0.0
    ensures Within(EffectiveSum(cs, available), AvailableWeight(cs) / available, 0.00005 * |cs| as real)
  {
    if cs == [] {
      DivideSum(0.0, 0.0, available);
    } else {
      EffectiveSumError(cs[1..], available);
      DivideSum(AvailableWeight(cs[1..]), if cs[0].score.Some? then cs[0].weight else 0.0, available);
    }
  }

  lemma {:induction false} OverallError(cs: seq<Component>, available: real)
    requires available > 0.0 && ScoresInRange(cs)
    ensures Within(Overall(cs, available), ExactSum(cs) / available, 0.005 * |cs| as real)
  {
    if cs == [] {
      DivideSum(0.0, 0.0, available);
    } else {
      var c := cs[0];
      assert c in cs && forall d | d in cs[1..] :: d in cs;
      OverallError(cs[1..], available);
      if c.score.Some? {
        DivideSum(ExactSum(cs[1..]), Times(c.score.value, c.weight), available);
        TermError(c.score.value, c.weight, available);
      }
    }
  }

  lemma DivideSum(x: real, y: real, d: real)
    requires d > 0.0
    ensures (x + y) / d == x / d + y / d
    ensures x == y == 0.0 ==> x / d == 0.0
  {}

  lemma TermError(score: real, weight: real, available: real)
    requires 0.0 <= score <= 100.0 && available > 0.0
    ensures Within(Times(score, Round4(weight / available)), Times(score, weight) / available, 0.005)
  {
    var exact := weight / available;
    var error := Round4(exact) - exact;
    assert Times(score, weight) / available == score * exact;
    assert score * Round4(exact) == score * exact + score * error;
    Bounded(score, error, 0.00005);
  }

  lemma Bounded(score: real, error: real, e: real)
    requires 0.0 <= score <= 100.0 && -e <= error <= e
    ensures -(100.0 * e) <= score * error <= 100.0 * e
  {
    NonNegativeProduct(score, e - error);
    NonNegativeProduct(score, e + error);
    NonNegativeProduct(100.0 - score, e);
    assert score * (e - error) == score * e - score * error;
    assert score * (e + error) == score * e + score * error;
    assert (100.0 - score) * e == 100.0 * e - score * e;
  }

  /** With four components: the weights sum to 1 within 0.0002, the score is within 0.02 of the exact mean. */
  lemma FourDecimalWeightsAreCloseEnough(cs: seq<Component>)
    requires |cs| == 4 && AvailableWeight(cs) > 0.0
    ensures Within(EffectiveSum(cs, AvailableWeight(cs)), 1.0, 0.0002)
    ensures ScoresInRange(cs) ==>
              Within(Overall(cs, AvailableWeight(cs)), ExactSum(cs) / AvailableWeight(cs), 0.02)
  {
    var available := AvailableWeight(cs);
    assert |cs| as real == 4.0 && available / available == 1.0;
    EffectiveSumError(cs, available);
    if ScoresInRange(cs) {
      OverallError(cs, available);
    }
  }
}
