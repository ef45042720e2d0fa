/** The two compute paths of the page: the explicit submit (calculateCalories),
    which refuses bad input with a reason, and the silent live update
    (autoCalculate), which only hides the results; plus the weight field's
    negative-value clamp. */
module Calculator {
  import opened Wrappers
  import opened Energy
  import opened Food

  /** Heaviest weight, in kg, the explicit submit accepts as plausible for a cat. */
  const MaxPlausibleWeight: real := 20.0

  /** A life-stage selection: the pair of DER factors its option value encodes. */
  datatype Factors = Factors(minFactor: real, maxFactor: real)

  /** Why the explicit submit refused to compute; each has its own prompt. */
  datatype Rejection = InvalidWeight | MissingLifeStage | ImplausibleWeight

  /** A gram range for one food type. */
  datatype Portion = Portion(min: int, max: int)

  /** Everything a successful computation displays. */
  datatype Report = Report(rer: int, der: DerRange, wetFood: Portion, rawMeat: Portion, freezeDried: Portion)

  /** The gram range of one food type that carries the DER range's energy. */
  function PortionOf(der: DerRange, food: FoodType): (p: Portion)
    ensures p.min as real - 0.5 <= der.min as real / Ratio(food) < p.min as real + 0.5
    ensures p.max as real - 0.5 <= der.max as real / Ratio(food) < p.max as real + 0.5
  {
    Portion(KcalToGrams(der.min as real, Ratio(food)), KcalToGrams(der.max as real, Ratio(food)))
  }

  /** An ordered DER range gives an ordered gram range for every food type. */
  lemma PortionOrdered(der: DerRange, food: FoodType)
    requires der.min <= der.max
    ensures PortionOf(der, food).min <= PortionOf(der, food).max
  {
    KcalToGramsMonotone(der.min as real, der.max as real, Ratio(food));
  }

  /** The computation shared by both paths once the inputs are accepted:
      RER, the DER range, and the gram range of each food type. Wet food holds
      1 kcal per gram, so its gram range is the DER range itself. */
  function ComputeReport(pow: real -> real, weight: real, factors: Factors): (rep: Report)
    ensures rep.rer as real - 0.5 <= RerCoefficient * pow(weight) < rep.rer as real + 0.5
    ensures rep.der == CalculateDer(rep.rer, factors.minFactor, factors.maxFactor)
    ensures rep.wetFood == Portion(rep.der.min, rep.der.max)
    ensures rep.rawMeat == PortionOf(rep.der, RawMeat)
    ensures rep.freezeDried == PortionOf(rep.der, FreezeDried)
  {
    var rer := CalculateRer(pow, weight);
    var der := CalculateDer(rer, factors.minFactor, factors.maxFactor);
    WetFoodIsIdentity(der.min);
    WetFoodIsIdentity(der.max);
    Report(rer, der, PortionOf(der, WetFood), PortionOf(der, RawMeat), PortionOf(der, FreezeDried))
  }

  /** min <= max survives every stage: with a non-negative power and an ordered
      factor pair, RER is non-negative, the DER range is ordered, and so is the
      gram range of every food type. */
  lemma ReportOrdered(pow: real -> real, weight: real, factors: Factors)
    requires pow(weight) >= 0.0
    requires factors.minFactor <= factors.maxFactor
    ensures ComputeReport(pow, weight, factors).rer >= 0
    ensures ComputeReport(pow, weight, factors).der.min <= ComputeReport(pow, weight, factors).der.max
    ensures ComputeReport(pow, weight, factors).wetFood.min <= ComputeReport(pow, weight, factors).wetFood.max
    ensures ComputeReport(pow, weight, factors).rawMeat.min <= ComputeReport(pow, weight, factors).rawMeat.max
    ensures ComputeReport(pow, weight, factors).freezeDried.min <= ComputeReport(pow, weight, factors).freezeDried.max
  {
    var rep := ComputeReport(pow, weight, factors);
    DerOrder(rep.rer, factors.minFactor, factors.maxFactor);
    PortionOrdered(rep.der, RawMeat);
    PortionOrdered(rep.der, FreezeDried);
  }

  /** calculateCalories, the explicit submit. The checks run in a fixed order:
      a missing, zero or negative weight first, then an empty life stage, then a
      weight above 20 kg; the first that fails is the reason given, and nothing
      is computed. A weight of exactly 20 kg is accepted. */
  function Submit(pow: real -> real, weight: Option<real>, lifeStage: Option<Factors>): (r: Result<Report, Rejection>)
    ensures r == Failure(InvalidWeight) <==> weight.None? || weight.value <= 0.0
    ensures r == Failure(MissingLifeStage) <==> weight.Some? && weight.value > 0.0 && lifeStage.None?
    ensures r == Failure(ImplausibleWeight) <==> weight.Some? && lifeStage.Some? && weight.value > MaxPlausibleWeight
    ensures r.Success? <==> weight.Some? && 0.0 < weight.value <= MaxPlausibleWeight && lifeStage.Some?
    ensures r.Success? ==> r.value == ComputeReport(pow, weight.value, lifeStage.value)
  {
    if weight.None? || weight.value <= 0.0 then Failure(InvalidWeight)
    else if lifeStage.None? then Failure(MissingLifeStage)
    else if weight.value > MaxPlausibleWeight then Failure(ImplausibleWeight)
    else Success(ComputeReport(pow, weight.value, lifeStage.value))
  }

  /** autoCalculate, the silent live update: the results are hidden (None)
      exactly when the weight is missing or not positive or no life stage is
      chosen. There is no upper bound on the weight on this path. */
  function AutoCalculate(pow: real -> real, weight: Option<real>, lifeStage: Option<Factors>): (shown: Option<Report>)
    ensures shown.None? <==> weight.None? || weight.value <= 0.0 || lifeStage.None?
    ensures shown.Some? ==> shown.value == ComputeReport(pow, weight.value, lifeStage.value)
  {
    if weight.None? || weight.value <= 0.0 || lifeStage.None? then None
    else Some(ComputeReport(pow, weight.value, lifeStage.value))
  }

  /** The two paths agree wherever the submit accepts; they differ exactly on
      weights above 20 kg with a life stage chosen, which the submit refuses as
      implausible and the live update computes anyway. Every other refusal of
      the submit hides the results on the live path. */
  lemma AutoCalculateAgreesWithSubmit(pow: real -> real, weight: Option<real>, lifeStage: Option<Factors>)
    ensures Submit(pow, weight, lifeStage).Success?
            ==> AutoCalculate(pow, weight, lifeStage) == Some(Submit(pow, weight, lifeStage).value)
    ensures Submit(pow, weight, lifeStage).Failure? && AutoCalculate(pow, weight, lifeStage).Some?
            <==> Submit(pow, weight, lifeStage) == Failure(ImplausibleWeight)
    ensures Submit(pow, weight, lifeStage).Failure? && AutoCalculate(pow, weight, lifeStage).Some?
            <==> weight.Some? && weight.value > MaxPlausibleWeight && lifeStage.Some?
  {
  }

  /** The boundaries of the submit: 20 kg passes, anything above is implausible,
      0 kg is an invalid weight even with no life stage chosen, and a missing
      life stage is reported before an implausible weight. */
  lemma SubmitBoundaries(pow: real -> real, factors: Factors, heavy: real)
    requires heavy > MaxPlausibleWeight
    ensures Submit(pow, Some(20.0), Some(factors)).Success?
    ensures Submit(pow, Some(heavy), Some(factors)) == Failure(ImplausibleWeight)
    ensures Submit(pow, Some(0.0), None) == Failure(InvalidWeight)
    ensures Submit(pow, Some(heavy), None) == Failure(MissingLifeStage)
  {
  }

  /** The weight field's input listener: a negative reading is replaced by 0;
      anything else, an unreadable entry included, is left as it is. */
  function ClampNegative(field: Option<real>): (clamped: Option<real>)
    ensures clamped.None? <==> field.None?
    ensures clamped.Some? ==> clamped.value >= 0.0
    ensures field.Some? && field.value >= 0.0 ==> clamped == field
    ensures field.Some? && field.value < 0.0 ==> clamped == Some(0.0)
  {
    match field
    case None => None
    case Some(v) => if v < 0.0 then Some(0.0) else Some(v)
  }

  /** Clamping a second time changes nothing. */
  lemma ClampIdempotent(field: Option<real>)
    ensures ClampNegative(ClampNegative(field)) == ClampNegative(field)
  {
  }

  /** What one keystroke in the weight field leaves behind: the field's value
      and the results on display. */
  datatype InputOutcome = InputOutcome(field: Option<real>, shown: Option<Report>)

  /** The weight field's input listener: clamp, then run the live update. The
      clamp never changes what is displayed: a negative weight was already
      hidden, and the 0 that replaces it is hidden too. */
  function OnWeightInput(pow: real -> real, field: Option<real>, lifeStage: Option<Factors>): (out: InputOutcome)
    ensures out.field == ClampNegative(field)
    ensures out.field.Some? ==> out.field.value >= 0.0
    ensures out.shown == AutoCalculate(pow, field, lifeStage)
  {
    var clamped := ClampNegative(field);
    InputOutcome(clamped, AutoCalculate(pow, clamped, lifeStage))
  }
}
