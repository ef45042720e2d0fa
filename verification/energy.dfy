/** The energy formulas of the calculator: resting energy (RER) from body
    weight and the daily energy range (DER) from RER and a life-stage factor pair. */
module Energy {
  import opened Rounding
  import opened RealOrder

  /** kcal per day per kg^0.75 in the resting-energy formula. */
  const RerCoefficient: real := 70.0

  /** p is the exact value of w^0.75 for a positive weight w: the positive
      number whose fourth power is w cubed (the square root of the square root
      of w^3). */
  predicate IsQuarterPower(w: real, p: real)
  {
    0.0 < w && 0.0 < p && Fourth(p) == Cube(w)
  }

  /** The quarter power is a strictly increasing function of the weight: for two
      weights, the exact values of w^0.75 are ordered exactly as the weights are. */
  lemma QuarterPowerOrder(w1: real, p1: real, w2: real, p2: real)
    requires IsQuarterPower(w1, p1) && IsQuarterPower(w2, p2)
    ensures w1 <= w2 <==> p1 <= p2
  {
    CubeOrder(w1, w2);
    FourthOrder(p1, p2);
  }

  /** calculateRER: Math.round(70 * weight^0.75). The host's Math.pow(weight, 0.75)
      is the parameter `pow`; the result is the integer nearest to 70 times it,
      with ties rounded up, and it is never negative when the power is not. */
  function CalculateRer(pow: real -> real, weight: real): (rer: int)
    ensures rer as real - 0.5 <= RerCoefficient * pow(weight) < rer as real + 0.5
    ensures pow(weight) >= 0.0 ==> rer >= 0
  {
    JsRound(RerCoefficient * pow(weight))
  }

  /** A heavier cat never gets a smaller resting energy, given that `pow`
      returns the exact quarter power at both weights. */
  lemma RerMonotone(pow: real -> real, w1: real, w2: real)
    requires IsQuarterPower(w1, pow(w1)) && IsQuarterPower(w2, pow(w2))
    requires w1 <= w2
    ensures CalculateRer(pow, w1) <= CalculateRer(pow, w2)
  {
    QuarterPowerOrder(w1, pow(w1), w2, pow(w2));
    JsRoundMonotone(RerCoefficient * pow(w1), RerCoefficient * pow(w2));
  }

  /** The rounding edge (2n - 1) / 140 between n - 1 and n kcal: quarter powers
      from RerEdge(n) up to, but excluding, RerEdge(n + 1) give n kcal. */
  function RerEdge(n: int): real
  {
    (2 * n - 1) as real / 140.0
  }

  /** Exact decision of the resting energy without any irrational arithmetic:
      for a positive weight whose exact quarter power `pow` returns, RER is n
      (n >= 1) exactly when ((2n-1)/140)^4 <= w^3 < ((2n+1)/140)^4. */
  lemma RerExact(pow: real -> real, weight: real, n: int)
    requires IsQuarterPower(weight, pow(weight))
    requires n >= 1
    ensures CalculateRer(pow, weight) == n
            <==> Fourth(RerEdge(n)) <= Cube(weight) < Fourth(RerEdge(n + 1))
  {
    var p := pow(weight);
    var lo, hi := RerEdge(n), RerEdge(n + 1);
    JsRoundCharacterized(RerCoefficient * p, n);
    assert CalculateRer(pow, weight) == n <==> lo <= p < hi;
    FourthOrder(lo, p);
    FourthOrder(hi, p);
  }

  /** The DER range: its two ends. */
  datatype DerRange = DerRange(min: int, max: int)

  /** calculateDER: each end is the integer nearest to RER times its factor, ties
      rounded up; a well-ordered factor pair gives a well-ordered range. */
  function CalculateDer(rer: int, minFactor: real, maxFactor: real): (der: DerRange)
    ensures der.min as real - 0.5 <= rer as real * minFactor < der.min as real + 0.5
    ensures der.max as real - 0.5 <= rer as real * maxFactor < der.max as real + 0.5
  {
    DerRange(JsRound(rer as real * minFactor), JsRound(rer as real * maxFactor))
  }

  /** The range keeps the order of its factors for a non-negative RER: min <= max
      when minFactor <= maxFactor, and an inverted factor pair passes through as an
      inverted (or collapsed) range, since calculateDER checks nothing. */
  lemma DerOrder(rer: int, minFactor: real, maxFactor: real)
    requires rer >= 0
    ensures minFactor <= maxFactor ==> CalculateDer(rer, minFactor, maxFactor).min <= CalculateDer(rer, minFactor, maxFactor).max
    ensures maxFactor <= minFactor ==> CalculateDer(rer, minFactor, maxFactor).max <= CalculateDer(rer, minFactor, maxFactor).min
  {
    if minFactor <= maxFactor {
      ScaledRoundMonotone(rer as real, minFactor, maxFactor);
    }
    if maxFactor <= minFactor {
      ScaledRoundMonotone(rer as real, maxFactor, minFactor);
    }
  }

  /** Rounding r times a factor is monotone in the factor for r >= 0. */
  lemma ScaledRoundMonotone(r: real, a: real, b: real)
    requires 0.0 <= r && a <= b
    ensures JsRound(r * a) <= JsRound(r * b)
  {
    ScaleMonotone(a, b, r);
    JsRoundMonotone(r * a, r * b);
  }

  /** A factor of exactly 1 leaves an integer RER unchanged at that end. */
  lemma DerUnitFactor(rer: int, otherFactor: real)
    ensures CalculateDer(rer, 1.0, otherFactor).min == rer
    ensures CalculateDer(rer, otherFactor, 1.0).max == rer
  {
    JsRoundOfInteger(rer);
  }
}
