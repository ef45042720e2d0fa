# Cat calorie calculator — Dafny model

A model of the calculation core of a small browser page that works out a cat's
daily energy needs. From the body weight it computes the resting energy
requirement (RER = round(70 · weight^0.75) kcal/day). From RER and a life-stage
factor pair it computes the daily energy range (DER). It then converts both
ends of that range into grams of wet food, raw meat and freeze-dried food. A
manual mode runs the other way: it turns entered masses back into kcal and
totals them.

Around this sit two compute paths that accept input differently. The explicit
submit (`calculateCalories`) refuses bad input with a reason. The silent live
update (`autoCalculate`) only hides the results. The weight field also clamps
negative entries to 0.

Everything is stated over Dafny's exact `real`, not IEEE doubles:

- `Math.round(x)` is `(x + 0.5).Floor`, the nearest integer with ties going up
  (`Rounding.JsRound`).
- `Math.pow(w, 0.75)` is a parameter `pow: real -> real`. Where a property needs
  the true value, a lemma requires `IsQuarterPower(w, pow(w))`: the value is
  positive and its fourth power is `w^3`. This is the "square root of the square
  root of w cubed" of the source's comment. With that, RER is decided exactly in
  rational arithmetic (`Energy.RerExact`).
- An empty or unparseable input field is `None`; a parsed number is `Some(v)`.
  A chosen life stage is the pair of factors its option value encodes.

Modules: `Wrappers` (Option, Result), `Rounding`, `RealOrder` (order facts
about products and powers of reals), `Energy` (RER and DER), `Food` (ratios, conversions, manual total), `Calculator`
(both compute paths and the clamp), `Reference` (the page's RER table).

## Model

| member | source | states |
|---|---|---|
| `Rounding.JsRound` | script.js:18 | The result is the integer nearest to x, and a tie (fractional part exactly 1/2) goes up: r − 1/2 ≤ x < r + 1/2. |
| `Rounding.JsRoundMonotone` | script.js:18 | Rounding never reverses order: x ≤ y implies round(x) ≤ round(y). |
| `Energy.CalculateRer` | script.js:13-19 | RER is the integer nearest to 70·pow(weight), ties rounded up, and it is non-negative whenever the power is. |
| `Energy.QuarterPowerOrder` | script.js:14-17 | For exact quarter powers p1, p2 of weights w1, w2: w1 ≤ w2 if and only if p1 ≤ p2. |
| `Energy.RerMonotone` | script.js:13-19 | A heavier cat never gets a smaller RER when pow is exact at both weights. |
| `Energy.RerExact` | script.js:13-19 | With an exact power, RER equals n ≥ 1 if and only if ((2n−1)/140)^4 ≤ w^3 < ((2n+1)/140)^4, an exact rational test. |
| `Energy.CalculateDer` | script.js:30-35 | Each end of the DER range is the integer nearest to RER times its factor, ties rounded up. |
| `Energy.DerOrder` | script.js:30-35 | For RER ≥ 0 the range keeps the order of its factors: minFactor ≤ maxFactor gives min ≤ max, and an inverted pair passes through inverted or collapsed, since nothing is checked. |
| `Energy.DerUnitFactor` | script.js:30-35 | A factor of exactly 1 returns an integer RER unchanged at that end of the range. |
| `Food.Ratio` | script.js:249-253 | Every energy density is at least 1 kcal/g, and only wet food has density exactly 1. |
| `Food.KcalToGrams` | script.js:261-263 | The gram amount is the integer nearest to kcal / ratio, ties up, and it is non-negative for non-negative energy. |
| `Food.GramsToKcal` | script.js:271-273 | The energy is the integer nearest to grams · ratio, ties up. |
| `Food.KcalToGramsMonotone` | script.js:261-263 | For a positive ratio, more kcal never converts to fewer grams. |
| `Food.GramsToKcalMonotone` | script.js:271-273 | For a non-negative ratio, more grams never convert to fewer kcal. |
| `Food.WetFoodIsIdentity` | script.js:249-273 | At the wet-food ratio both conversions return a whole number unchanged. |
| `Food.GramsToKcalOnWholeGrams` | script.js:249-253 | On whole grams g, freeze-dried food gives exactly 4g kcal, and raw meat gives g + ⌊(g+1)/2⌋, so an odd half kcal is rounded up. |
| `Food.GramsToKcalNonNegative` | script.js:271-273 | A non-negative mass at a non-negative ratio never gives negative energy. |
| `Food.KcalRoundTrip` | script.js:261-273 | Converting kcal to grams and back lands strictly above kcal − ratio/2 − 1/2 and at most kcal + ratio/2 + 1/2. |
| `Food.CalculateManualCalories` | script.js:278-290 | The total is the sum of the three per-food energies, and each is the integer nearest to its mass times its own food's ratio (1, 1.5, 4). |
| `Food.ManualMissingContributesZero` | script.js:280-290 | A missing mass contributes 0 kcal: the total without the wet-food mass equals the full total minus the wet-food energy. |
| `Food.ManualTotalOnWholeGrams` | script.js:284-290 | For whole-gram inputs the total has the closed form wet + (raw + ⌊(raw+1)/2⌋) + 4·freezeDried. |
| `Food.ManualTotalNonNegative` | script.js:284-290 | Non-negative masses give a non-negative total. |
| `Calculator.PortionOf` | script.js:80-95 | Each end of a food's gram range is the integer nearest to the matching DER end divided by that food's ratio. |
| `Calculator.PortionOrdered` | script.js:80-95 | An ordered DER range gives an ordered gram range for every food type. |
| `Calculator.ComputeReport` | script.js:66-95 | The shared computation chains RER, DER and the three gram ranges; the wet-food gram range equals the DER range itself. |
| `Calculator.ReportOrdered` | script.js:66-95 | min ≤ max survives every stage. A non-negative power and an ordered factor pair give RER ≥ 0, an ordered DER range and an ordered gram range for every food. |
| `Calculator.Submit` | script.js:40-71 | The checks run in a fixed order. A missing, zero or negative weight fails first, then an empty life stage, then a weight above 20. Each has its own reason, exactly 20 kg is accepted, and nothing is computed on failure. |
| `Calculator.AutoCalculate` | script.js:159-201 | The results are hidden exactly when the weight is missing or ≤ 0 or no life stage is chosen; otherwise the report is computed, with no upper weight bound. |
| `Calculator.AutoCalculateAgreesWithSubmit` | script.js:159-201 | The live path shows the same report whenever the submit succeeds. The only inputs the submit refuses but the live path computes are weights above 20 kg with a life stage chosen. |
| `Calculator.SubmitBoundaries` | script.js:49-64 | 20 kg is accepted and anything above is implausible. 0 kg is an invalid weight even with no life stage. A missing life stage is reported before an implausible weight. |
| `Calculator.ClampNegative` | script.js:218-221 | The weight field never holds a negative reading after the listener runs: a negative reading becomes exactly 0, and non-negative and unreadable entries are left unchanged. |
| `Calculator.ClampIdempotent` | script.js:219-221 | Clamping twice is the same as clamping once. |
| `Calculator.OnWeightInput` | script.js:218-223 | After a keystroke the field holds the clamped reading (a negative reading becomes 0, anything else is kept), and the displayed results are the same as the live update on the unclamped value would give: the clamp is invisible to the results. |
| `Reference.ReferenceRerAgrees` | script.js:309-325 | With the 15 kg entry corrected to 534, every table entry equals calculateRER of its weight when the power is exact. |
| `Reference.ReferenceRerAsWrittenWrongAt15` | script.js:324 | As written, the table lists 533 for 15 kg, while the formula gives 534 for the exact power. |

## Findings

| source | as written | input that shows it | evidently intended | confidence | as-written member | corrected member |
|---|---|---|---|---|---|---|
| script.js:324 | `referenceRER[15]` is 533 | weight 15 kg: 70·15^0.75 ≈ 533.54, so `calculateRER(15)` is 534 | 534, agreeing with `calculateRER` as the other 14 entries do | high (margin 0.04 kcal from the rounding edge, far above double error); not executed | `Reference.ReferenceRerAsWrittenWrongAt15` | `Reference.ReferenceRerAgrees` |

Facts about `script.js` worth stating plainly:

- RER rounding is `Math.round`, so ties go toward +∞.
- The live update has no 20 kg cap. It computes for any positive weight; only the explicit submit refuses weights above 20 kg.
- The 15 kg entry of the reference table is the finding above.

## Left out

- DOM reads and writes, `alert`, `focus`, `scrollIntoView` and the display toggling are presentation only. The model returns what would be displayed (`Report`, `ManualResult`, or `None` for hidden results).
- `saveData`, `getData`, `saveUserData`, `loadUserData`: wrappers over the browser's local storage, which is outside the model. So is the save/reload round trip of the inputs.
- Event wiring in the `DOMContentLoaded` handler is left out: the initial live update, the change listeners and the Enter key that triggers the submit. Only the input listener's clamp-then-update step is modelled (`Calculator.OnWeightInput`).
- `parseFloat` and the `split(',')` of the life-stage value are library coercion. A weight is `Option<real>` and a life stage is an already-split `Factors` pair. A malformed factor string that parses to `NaN` is not modelled. Neither is the difference between `parseFloat` and the `Number` coercion of `this.value < 0`.
- The value of `Math.pow(w, 0.75)` is a parameter. Its double rounding, and IEEE double arithmetic in general (overflow to `Infinity`, `NaN`, round-off in `rer * factor` and `kcal / ratio`), are not modelled: the model is exact rational arithmetic.
- Food.KcalToGrams: requires a positive ratio. JavaScript would return `Infinity` or `NaN` for a zero ratio, which no integer can represent, and every call passes a `FOOD_RATIOS` constant.
- Recomputing on the same inputs gives the same outputs because every member is a pure function. No separate statement is made about it.
