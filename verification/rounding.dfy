/** JavaScript's Math.round, stated over exact reals. */
module Rounding {

  /** Math.round: the integer nearest to x, where a tie (fractional part exactly
      one half) goes toward positive infinity, so that -2.5 rounds to -2. */
  function JsRound(x: real): (r: int)
    ensures r as real - 0.5 <= x < r as real + 0.5
  {
    (x + 0.5).Floor
  }

  /** The half-open window [n - 1/2, n + 1/2) holds exactly one integer, so it
      characterizes the rounded value completely. */
  lemma JsRoundCharacterized(x: real, n: int)
    ensures JsRound(x) == n <==> n as real - 0.5 <= x < n as real + 0.5
  {
  }

  /** Rounding never reverses the order of its arguments. */
  lemma JsRoundMonotone(x: real, y: real)
    requires x <= y
    ensures JsRound(x) <= JsRound(y)
  {
  }

  /** An integer is its own rounding. */
  lemma JsRoundOfInteger(n: int)
    ensures JsRound(n as real) == n
  {
  }
}
