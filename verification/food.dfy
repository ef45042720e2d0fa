/** Conversion between energy and food mass for the three food types, and the
    manual mode that totals the energy of user-entered masses. */
module Food {
  import opened Wrappers
  import opened Rounding
  import opened RealOrder

  /** The food types of the FOOD_RATIOS table. */
  datatype FoodType = WetFood | RawMeat | FreezeDried

  /** FOOD_RATIOS: energy density in kcal per gram. */
  function Ratio(food: FoodType): (ratio: real)
    ensures ratio >= 1.0
    ensures ratio == 1.0 <==> food == WetFood
  {
    match food
    case WetFood => 1.0
    case RawMeat => 1.5
    case FreezeDried => 4.0
  }

  /** convertKcalToGrams: the integer gram amount nearest to kcal / ratio, ties
      rounded up. */
  function KcalToGrams(kcal: real, ratio: real): (grams: int)
    requires ratio > 0.0
    ensures grams as real - 0.5 <= kcal / ratio < grams as real + 0.5
    ensures kcal >= 0.0 ==> grams >= 0
  {
    JsRound(kcal / ratio)
  }

  /** convertGramsToKcal: the integer kcal amount nearest to grams * ratio, ties
      rounded up. */
  function GramsToKcal(grams: real, ratio: real): (kcal: int)
    ensures kcal as real - 0.5 <= grams * ratio < kcal as real + 0.5
  {
    JsRound(grams * ratio)
  }

  /** More energy never converts to fewer grams. */
  lemma KcalToGramsMonotone(kcal1: real, kcal2: real, ratio: real)
    requires ratio > 0.0 && kcal1 <= kcal2
    ensures KcalToGrams(kcal1, ratio) <= KcalToGrams(kcal2, ratio)
  {
    DivideMonotone(kcal1, kcal2, ratio);
    JsRoundMonotone(kcal1 / ratio, kcal2 / ratio);
  }

  /** More grams never convert to less energy when the ratio is non-negative. */
  lemma GramsToKcalMonotone(grams1: real, grams2: real, ratio: real)
    requires ratio >= 0.0 && grams1 <= grams2
    ensures GramsToKcal(grams1, ratio) <= GramsToKcal(grams2, ratio)
  {
    ScaleMonotone(grams1, grams2, ratio);
    assert grams1 * ratio == ratio * grams1 && grams2 * ratio == ratio * grams2;
    JsRoundMonotone(grams1 * ratio, grams2 * ratio);
  }

  /** With the wet-food ratio of 1, both conversions are the identity on
      whole numbers. */
  lemma WetFoodIsIdentity(n: int)
    ensures KcalToGrams(n as real, Ratio(WetFood)) == n
    ensures GramsToKcal(n as real, Ratio(WetFood)) == n
  {
    JsRoundOfInteger(n);
  }

  /** On whole grams the conversion to energy is exact for freeze-dried food
      (4 kcal per gram), and for raw meat it is g + (g + 1) / 2 in floor
      division: half a kcal on an odd gram count is rounded up. */
  lemma GramsToKcalOnWholeGrams(g: int)
    ensures GramsToKcal(g as real, Ratio(FreezeDried)) == 4 * g
    ensures GramsToKcal(g as real, Ratio(RawMeat)) == g + (g + 1) / 2
  {
    JsRoundOfInteger(4 * g);
    var k := g + (g + 1) / 2;
    assert (g + 1) % 2 == 0 || (g + 1) % 2 == 1;
    JsRoundCharacterized(g as real * 1.5, k);
  }

  /** A non-negative mass never converts to negative energy. */
  lemma GramsToKcalNonNegative(grams: real, ratio: real)
    requires grams >= 0.0 && ratio >= 0.0
    ensures GramsToKcal(grams, ratio) >= 0
  {
    ScaleMonotone(0.0, grams, ratio);
    assert grams * ratio == ratio * grams;
  }

  /** Converting kcal to grams and back lands within ratio/2 + 1/2 of the
      starting energy: the gram rounding loses at most half a gram, worth
      ratio/2 kcal, and the kcal rounding at most another half. For whole kcal
      this means within 1 kcal for raw meat and within 2 kcal for freeze-dried
      food; for wet food the round trip is exact, by WetFoodIsIdentity. */
  lemma KcalRoundTrip(kcal: real, ratio: real)
    requires ratio > 0.0
    ensures kcal - ratio / 2.0 - 0.5 < GramsToKcal(KcalToGrams(kcal, ratio) as real, ratio) as real
    ensures GramsToKcal(KcalToGrams(kcal, ratio) as real, ratio) as real <= kcal + ratio / 2.0 + 0.5
  {
    var g := KcalToGrams(kcal, ratio) as real;
    WholeGramsEnergyBounds(kcal, ratio, g);
  }

  /** If g is within half a unit of kcal / ratio, then g grams hold within
      ratio / 2 of kcal. */
  lemma WholeGramsEnergyBounds(kcal: real, ratio: real, g: real)
    requires ratio > 0.0
    requires g - 0.5 <= kcal / ratio < g + 0.5
    ensures kcal - ratio / 2.0 < g * ratio <= kcal + ratio / 2.0
  {
    var q := kcal / ratio;
    assert ratio * q == kcal;
    ScaleMonotone(g - 0.5, q, ratio);
    assert ratio * (g - 0.5) == g * ratio - ratio / 2.0;
    assert g * ratio - ratio / 2.0 <= kcal;
    ScaleStrictMonotone(q, g + 0.5, ratio);
    assert ratio * (g + 0.5) == g * ratio + ratio / 2.0;
    assert kcal < g * ratio + ratio / 2.0;
  }

  /** `parseFloat(field) || 0`: an empty or unparseable field counts as 0 grams. */
  function MassOrZero(field: Option<real>): real
  {
    match field
    case None => 0.0
    case Some(v) => v
  }

  /** The outcome of calculateManualCalories. */
  datatype ManualResult = ManualResult(wetFoodKcal: int, rawMeatKcal: int, freezeDriedKcal: int, totalKcal: int)

  /** calculateManualCalories: each entered mass is converted with its own food's
      ratio and the total is the sum of the three conversions. */
  function CalculateManualCalories(wetFood: Option<real>, rawMeat: Option<real>, freezeDried: Option<real>): (m: ManualResult)
    ensures m.totalKcal == m.wetFoodKcal + m.rawMeatKcal + m.freezeDriedKcal
    ensures m.wetFoodKcal as real - 0.5 <= MassOrZero(wetFood) < m.wetFoodKcal as real + 0.5
    ensures m.rawMeatKcal as real - 0.5 <= MassOrZero(rawMeat) * 1.5 < m.rawMeatKcal as real + 0.5
    ensures m.freezeDriedKcal as real - 0.5 <= MassOrZero(freezeDried) * 4.0 < m.freezeDriedKcal as real + 0.5
  {
    var wet := GramsToKcal(MassOrZero(wetFood), Ratio(WetFood));
    var raw := GramsToKcal(MassOrZero(rawMeat), Ratio(RawMeat));
    var dried := GramsToKcal(MassOrZero(freezeDried), Ratio(FreezeDried));
    ManualResult(wet, raw, dried, wet + raw + dried)
  }

  /** A missing or unparseable mass contributes nothing to the total. */
  lemma ManualMissingContributesZero(wetFood: Option<real>, rawMeat: Option<real>, freezeDried: Option<real>)
    ensures CalculateManualCalories(None, rawMeat, freezeDried).totalKcal
            == CalculateManualCalories(wetFood, rawMeat, freezeDried).totalKcal
               - CalculateManualCalories(wetFood, rawMeat, freezeDried).wetFoodKcal
    ensures CalculateManualCalories(wetFood, None, freezeDried).rawMeatKcal == 0
    ensures CalculateManualCalories(wetFood, rawMeat, None).freezeDriedKcal == 0
  {
    JsRoundOfInteger(0);
  }

  /** For whole-gram inputs the manual total has the closed form
      wet + (raw + (raw + 1) / 2) + 4 * freezeDried. */
  lemma ManualTotalOnWholeGrams(wet: int, raw: int, dried: int)
    ensures CalculateManualCalories(Some(wet as real), Some(raw as real), Some(dried as real)).totalKcal
            == wet + (raw + (raw + 1) / 2) + 4 * dried
  {
    WetFoodIsIdentity(wet);
    GramsToKcalOnWholeGrams(raw);
    GramsToKcalOnWholeGrams(dried);
  }

  /** Non-negative masses give a non-negative total. */
  lemma ManualTotalNonNegative(wetFood: Option<real>, rawMeat: Option<real>, freezeDried: Option<real>)
    requires MassOrZero(wetFood) >= 0.0 && MassOrZero(rawMeat) >= 0.0 && MassOrZero(freezeDried) >= 0.0
    ensures CalculateManualCalories(wetFood, rawMeat, freezeDried).totalKcal >= 0
  {
    GramsToKcalNonNegative(MassOrZero(wetFood), Ratio(WetFood));
    GramsToKcalNonNegative(MassOrZero(rawMeat), Ratio(RawMeat));
    GramsToKcalNonNegative(MassOrZero(freezeDried), Ratio(FreezeDried));
  }
}
