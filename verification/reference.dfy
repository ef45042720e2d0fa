/** The page's reference table of resting energies for whole weights of 1 to
    15 kg, checked against the formula with the exact quarter power. */
module Reference {
  import opened RealOrder
  import opened Energy

  /** referenceRER as written: kg -> kcal per day. */
  const ReferenceRerAsWritten: map<int, int> :=
    map[1 := 70, 2 := 118, 3 := 160, 4 := 198, 5 := 234, 6 := 268, 7 := 301, 8 := 333,
        9 := 364, 10 := 394, 11 := 423, 12 := 451, 13 := 479, 14 := 507, 15 := 533]

  /** The table with its 15 kg entry corrected: 70 * 15^0.75 is about 533.54,
      which rounds to 534. */
  const ReferenceRer: map<int, int> := ReferenceRerAsWritten[15 := 534]

  /** n kcal is what the formula gives for w kg, decided on rationals: the
      exact quarter power of w lies in [(2n-1)/140, (2n+1)/140). */
  predicate RoundsTo(w: int, n: int)
  {
    Fourth(RerEdge(n)) <= Cube(w as real) < Fourth(RerEdge(n + 1))
  }

  /** Every entry of the corrected table is what calculateRER returns for that
      weight when the power is exact. */
  lemma ReferenceRerAgrees(pow: real -> real, w: int)
    requires w in ReferenceRer
    requires IsQuarterPower(w as real, pow(w as real))
    ensures CalculateRer(pow, w as real) == ReferenceRer[w]
  {
    assert RoundsTo(w, ReferenceRer[w]);
    RerExact(pow, w as real, ReferenceRer[w]);
  }

  /** The table as written is off at 15 kg: with the exact power the formula
      gives 534, not the 533 the table lists. Every other entry agrees. */
  lemma ReferenceRerAsWrittenWrongAt15(pow: real -> real)
    requires IsQuarterPower(15.0, pow(15.0))
    ensures 15 in ReferenceRerAsWritten
    ensures CalculateRer(pow, 15.0) == 534 != ReferenceRerAsWritten[15]
  {
    assert RoundsTo(15, 534);
    RerExact(pow, 15.0, 534);
  }

  /** The two tables differ only at 15 kg. */
  lemma ReferenceTablesDifferOnlyAt15(w: int)
    ensures w in ReferenceRer <==> w in ReferenceRerAsWritten
    ensures w in ReferenceRer && w != 15 ==> ReferenceRer[w] == ReferenceRerAsWritten[w]
  {
  }
}
