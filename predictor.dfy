/**
 * src/predictor.py: `predict_from_input` (input clamping, the split of a
 * performance score into goals and assists, the post-processing of the two
 * learned models and the closed-form fallback), the row extraction of
 * `predict_player_value` and `predict_performance`, and the lazy loading of
 * the models held in module globals.
 *
 * The learned models and the scaler are opaque functions, rounding is an
 * opaque function `round(x, digits)`, and the outcome of `load_models` is a
 * parameter (None when it raises).
 */
module Predictor {
  import opened Wrappers
  import opened Frames
  import MT = ModelTrainer

  /** A Python float that may be NaN (what `float()` of a NaN cell gives). */
  datatype Float = Fin(v: real) | NaN

  /** `round(x, digits)`. */
  type Rounding = (real, nat) -> real

  /** The three unpickled objects: the two regressors and the fitted scaler. */
  datatype Handles = Handles(perf: MT.Features -> real, value: MT.Features -> real, scaler: MT.Features -> MT.Features)

  /** The dictionary `predict_from_input` returns. */
  datatype Prediction = Prediction(predictedGoals: real, predictedAssists: real, performanceScore: real, marketValue: real)

  // ---------------------------------------------------------------------------
  // Input clamping

  /** Python's `max(0, x)` on a float: NaN compares false, so it gives 0. */
  function Max0(x: Float): (r: real)
    ensures r >= 0.0
    ensures x.NaN? ==> r == 0.0
    ensures x.Fin? && x.v >= 0.0 ==> r == x.v
    ensures x.Fin? && x.v < 0.0 ==> r == 0.0
  {
    match x
    case NaN => 0.0
    case Fin(v) => if v > 0.0 then v else 0.0
  }

  /** `max(16, min(50, age))`: NaN is 50. */
  function ClampAge(x: Float): (r: real)
    ensures 16.0 <= r <= 50.0
    ensures x.NaN? ==> r == 50.0
    ensures x.Fin? && 16.0 <= x.v <= 50.0 ==> r == x.v
  {
    var m := match x
      case NaN => 50.0
      case Fin(v) => if v < 50.0 then v else 50.0;
    if m > 16.0 then m else 16.0
  }

  /** The validated feature vector `[goals, assists, minutes_played, age]`. */
  function Clamp(goals: Float, assists: Float, minutes: Float, age: Float): (f: MT.Features)
    ensures MT.InDomain(f) && f.minutes >= 0.0
  {
    MT.Features(Max0(goals), Max0(assists), Max0(minutes), ClampAge(age))
  }

  // ---------------------------------------------------------------------------
  // Shared arithmetic

  /**
   * The shares of goals and weighted assists in `goals + 0.8 * assists`; an
   * even split when that total is 0.
   */
  function Ratios(goals: real, assists: real): (r: (real, real))
    requires goals >= 0.0 && assists >= 0.0
    ensures r.0 >= 0.0 && r.1 >= 0.0 && r.0 + r.1 == 1.0
    ensures goals + assists * 0.8 == 0.0 ==> r == (0.5, 0.5)
    ensures goals + assists * 0.8 > 0.0 ==>
      r.0 * (goals + assists * 0.8) == goals && r.1 * (goals + assists * 0.8) == assists * 0.8
  {
    var total := goals + assists * 0.8;
    if total > 0.0 then (goals / total, (assists * 0.8) / total) else (0.5, 0.5)
  }

  /** `max(1, matches_estimate / 35)` with `matches_estimate = max(1, minutes / 90)`. */
  function MatchDivisor(minutes: real): (r: real)
    ensures r >= 1.0
    ensures minutes <= 3150.0 ==> r == 1.0
    ensures minutes > 3150.0 ==> r * 3150.0 == minutes
  {
    var matches := if minutes / 90.0 > 1.0 then minutes / 90.0 else 1.0;
    if matches / 35.0 > 1.0 then matches / 35.0 else 1.0
  }

  /** `max(0, round(x, 1))`. */
  function RoundedCount(x: real, round: Rounding): (r: real)
    ensures r >= 0.0
    ensures round(x, 1) >= 0.0 ==> r == round(x, 1)
  {
    if round(x, 1) > 0.0 then round(x, 1) else 0.0
  }

  /** `max(0.1, v)`. */
  function ValueFloor(v: real): (r: real)
    ensures r >= 0.1 && r >= v
    ensures v >= 0.1 ==> r == v
  {
    if v > 0.1 then v else 0.1
  }

  // ---------------------------------------------------------------------------
  // The two branches

  /** The learned score scaled to one match. */
  function PerMatchScore(f: MT.Features, h: Handles): real {
    h.perf(h.scaler(f)) / MatchDivisor(f.minutes)
  }

  /** The branch taken when the models are loaded. */
  function ModelPrediction(f: MT.Features, h: Handles, round: Rounding): (r: Prediction)
    requires f.goals >= 0.0 && f.assists >= 0.0
    ensures r.predictedGoals >= 0.0 && r.predictedAssists >= 0.0
    ensures r.marketValue >= 0.1 && r.marketValue >= h.value(h.scaler(f))
    ensures r.performanceScore == round(h.perf(h.scaler(f)), 2)
  {
    var x := h.scaler(f);
    var ratios := Ratios(f.goals, f.assists);
    var perMatch := PerMatchScore(f, h);
    Prediction(RoundedCount(perMatch * ratios.0, round),
               RoundedCount(perMatch * ratios.1 * 1.25, round),
               round(h.perf(x), 2),
               ValueFloor(h.value(x)))
  }

  /** The fallback's age multiplier, as the predictor writes it. */
  function FallbackAgeMultiplier(age: real): real {
    if 23.0 <= age <= 28.0 then 1.1
    else if age < 23.0 then 0.95 + (age - 18.0) * 0.03
    else 1.0 - (age - 28.0) * 0.02
  }

  /** The fallback's time factor, as the predictor writes it. */
  function FallbackTimeFactor(minutes: real): real {
    if minutes > 2000.0 then 1.0 else if minutes > 1000.0 then 0.9 else 0.7
  }

  /** `per_match_perf` of the fallback. */
  function FallbackPerMatch(f: MT.Features): real {
    (f.goals + f.assists * 0.8) * FallbackAgeMultiplier(f.age) * FallbackTimeFactor(f.minutes) * 0.15
  }

  /** The closed-form branch, written out as in the predictor. */
  function FallbackPrediction(f: MT.Features, round: Rounding): (r: Prediction)
    requires f.goals >= 0.0 && f.assists >= 0.0
    ensures r.predictedGoals >= 0.0 && r.predictedAssists >= 0.0
    ensures r.marketValue >= 0.1
  {
    var perMatch := FallbackPerMatch(f);
    var ratios := Ratios(f.goals, f.assists);
    var baseValue := f.goals * 2.5 + f.assists * 1.8;
    var ageValueFactor := if f.age < 23.0 then 1.3 else if f.age <= 28.0 then 1.0 else 0.6 - (f.age - 28.0) * 0.05;
    var consistency := if 1.0 <= f.minutes / 2500.0 then 1.0 else f.minutes / 2500.0;
    Prediction(RoundedCount(perMatch * ratios.0, round),
               RoundedCount(perMatch * ratios.1 * 1.25, round),
               round(perMatch, 2),
               ValueFloor(baseValue * ageValueFactor * consistency / 10.0))
  }

  /** `predict_from_input` once the load state is known. */
  function Predict(goals: Float, assists: Float, minutes: Float, age: Float, models: Option<Handles>, round: Rounding): (r: Prediction)
    ensures r.predictedGoals >= 0.0 && r.predictedAssists >= 0.0 && r.marketValue >= 0.1
  {
    var f := Clamp(goals, assists, minutes, age);
    match models
    case Some(h) => ModelPrediction(f, h, round)
    case None => FallbackPrediction(f, round)
  }

  /**
   * On the inputs clamping yields, the fallback's performance score is the
   * rounded performance target of training.
   */
  lemma FallbackPerformanceMatchesTraining(f: MT.Features, round: Rounding)
    requires MT.InDomain(f)
    ensures FallbackPrediction(f, round).performanceScore == round(MT.PerformanceTarget(f), 2)
  {
    MT.PerformanceUnclamped(f);
    assert FallbackAgeMultiplier(f.age) == MT.AgeMultiplier(f.age);
    assert FallbackTimeFactor(f.minutes) == MT.TimeFactor(f.minutes);
    assert FallbackPerMatch(f) == MT.RawPerformance(f);
  }

  /** The fallback's market value is the value target of training, for any features. */
  lemma FallbackValueMatchesTraining(f: MT.Features, round: Rounding)
    requires f.goals >= 0.0 && f.assists >= 0.0
    ensures FallbackPrediction(f, round).marketValue == MT.ValueTarget(f)
  {
    assert MT.ValueAgeFactor(f.age) ==
      (if f.age < 23.0 then 1.3 else if f.age <= 28.0 then 1.0 else 0.6 - (f.age - 28.0) * 0.05);
    assert MT.Consistency(f.minutes) == (if 1.0 <= f.minutes / 2500.0 then 1.0 else f.minutes / 2500.0);
  }

  // ---------------------------------------------------------------------------
  // Row extraction

  /**
   * `safe_get(key, default)`: a missing key, None or '' give the default, a
   * NaN cell gives NaN (there is no NaN check), and text `float()` rejects
   * gives the default.
   */
  function SafeGet(row: Row, key: string, default: Float): (r: Float)
    ensures key !in row ==> r == default
    ensures key in row && (row[key] == NoneValue || row[key] == Str("")) ==> r == default
    ensures key in row && row[key] == Missing ==> r == NaN
    ensures key in row && row[key].Num? ==> r == Fin(row[key].value)
  {
    if key !in row then default
    else match row[key]
      case NoneValue => default
      case Missing => NaN
      case Num(v, _) => Fin(v)
      case Str(s) => if s == "" then default else if ParseFloat(s).Some? then Fin(ParseFloat(s).value) else default
  }

  /** On every cell but NaN, `safe_get` and `safe_convert` read the same number. */
  lemma SafeGetAgreesWithSafeConvert(row: Row, key: string, d: real)
    requires key in row && row[key] != Missing
    ensures SafeGet(row, key, Fin(d)) == Fin(MT.SafeConvert(row[key], d))
  {
  }

  /** `float * 90`. */
  function Times90(x: Float): Float {
    match x
    case NaN => NaN
    case Fin(v) => Fin(v * 90.0)
  }

  /** The four inputs a row yields. */
  datatype RowInputs = RowInputs(goals: Float, assists: Float, minutes: Float, age: Float)

  /**
   * Goals, assists, minutes (Min, else 90 per match) and age of a row, with
   * defaults 0, 0, 0 and 25.
   */
  function Extract(row: Row): (r: RowInputs)
    ensures "Gls" !in row ==> r.goals == Fin(0.0)
    ensures "Ast" !in row ==> r.assists == Fin(0.0)
    ensures "Min" !in row ==> r.minutes == Times90(SafeGet(row, "MP", Fin(0.0)))
    ensures "Min" !in row && "MP" !in row ==> r.minutes == Fin(0.0)
    ensures "Age" !in row ==> r.age == Fin(25.0)
  {
    var minutes := Times90(SafeGet(row, "MP", Fin(0.0)));
    RowInputs(SafeGet(row, "Gls", Fin(0.0)), SafeGet(row, "Ast", Fin(0.0)),
              SafeGet(row, "Min", minutes), SafeGet(row, "Age", Fin(25.0)))
  }

  /** A NaN age in a row is predicted as a 50-year-old, not with the default 25. */
  lemma NaNAgeIsFifty(row: Row)
    requires "Age" in row && row["Age"] == Missing
    ensures Clamp(Extract(row).goals, Extract(row).assists, Extract(row).minutes, Extract(row).age).age == 50.0
  {
  }

  // ---------------------------------------------------------------------------
  // Module state

  /** The module globals PERF_MODEL, VALUE_MODEL, SCALER and MODELS_LOADED. */
  class ModelCache {
    var perfModel: Option<MT.Features -> real>
    var valueModel: Option<MT.Features -> real>
    var scaler: Option<MT.Features -> MT.Features>
    var modelsLoaded: bool
    /** How many times `load_models` has been called. */
    ghost var loadCalls: nat

    /** Either all three handles are set and the flag is up, or none is and it is down. */
    ghost predicate Valid()
      reads this
    {
      if modelsLoaded then perfModel.Some? && valueModel.Some? && scaler.Some?
      else perfModel.None? && valueModel.None? && scaler.None?
    }

    /** The handles the ML branch uses, when `MODELS_LOADED and SCALER is not None`. */
    function Loaded(): (r: Option<Handles>)
      reads this
      ensures r.Some? <==> modelsLoaded && perfModel.Some? && valueModel.Some? && scaler.Some?
    {
      if modelsLoaded && perfModel.Some? && valueModel.Some? && scaler.Some? then
        Some(Handles(perfModel.value, valueModel.value, scaler.value))
      else None
    }

    /** The state at import: nothing loaded. */
    constructor()
      ensures Valid() && !modelsLoaded && loadCalls == 0
    {
      perfModel, valueModel, scaler := None, None, None;
      modelsLoaded := false;
      loadCalls := 0;
    }

    /**
     * `_ensure_models_loaded`: once the flag is up nothing happens and
     * `load_models` is not called; otherwise it is called once, and its
     * failure leaves all handles None and the flag down, so the next call
     * tries again.
     */
    method EnsureModelsLoaded(attempt: Option<Handles>)
      requires Valid()
      modifies this
      ensures Valid()
      ensures old(modelsLoaded) ==> Loaded() == old(Loaded()) && loadCalls == old(loadCalls)
      ensures !old(modelsLoaded) ==> loadCalls == old(loadCalls) + 1 && Loaded() == attempt
      ensures modelsLoaded <==> old(modelsLoaded) || attempt.Some?
    {
      if !modelsLoaded {
        loadCalls := loadCalls + 1;
        match attempt {
          case Some(h) =>
            perfModel, valueModel, scaler := Some(h.perf), Some(h.value), Some(h.scaler);
            modelsLoaded := true;
          case None =>
            modelsLoaded := false;
            perfModel, valueModel, scaler := None, None, None;
        }
      }
    }

    /** `predict_from_input`: load if needed, then predict with the branch the state selects. */
    method PredictFromInput(goals: Float, assists: Float, minutes: Float, age: Float, attempt: Option<Handles>, round: Rounding)
      returns (r: Prediction)
      requires Valid()
      modifies this
      ensures Valid()
      ensures old(modelsLoaded) ==> Loaded() == old(Loaded()) && loadCalls == old(loadCalls)
      ensures !old(modelsLoaded) ==> loadCalls == old(loadCalls) + 1 && Loaded() == attempt
      ensures r == Predict(goals, assists, minutes, age, Loaded(), round)
    {
      EnsureModelsLoaded(attempt);
      r := Predict(goals, assists, minutes, age, Loaded(), round);
    }

    /** `predict_player_value`: the market value of a row, rounded to 2 places. */
    method PredictPlayerValue(row: Row, attempt: Option<Handles>, round: Rounding) returns (value: real)
      requires Valid()
      modifies this
      ensures Valid()
      ensures old(modelsLoaded) ==> Loaded() == old(Loaded()) && loadCalls == old(loadCalls)
      ensures !old(modelsLoaded) ==> loadCalls == old(loadCalls) + 1 && Loaded() == attempt
      ensures var x := Extract(row);
        value == round(Predict(x.goals, x.assists, x.minutes, x.age, Loaded(), round).marketValue, 2)
    {
      var x := Extract(row);
      var result := PredictFromInput(x.goals, x.assists, x.minutes, x.age, attempt, round);
      value := round(result.marketValue, 2);
    }

    /** `predict_performance`: exactly the goals and assists `predict_from_input` gives for the row. */
    method PredictPerformance(row: Row, attempt: Option<Handles>, round: Rounding) returns (goals: real, assists: real)
      requires Valid()
      modifies this
      ensures Valid()
      ensures old(modelsLoaded) ==> Loaded() == old(Loaded()) && loadCalls == old(loadCalls)
      ensures !old(modelsLoaded) ==> loadCalls == old(loadCalls) + 1 && Loaded() == attempt
      ensures goals >= 0.0 && assists >= 0.0
      ensures var x := Extract(row); var p := Predict(x.goals, x.assists, x.minutes, x.age, Loaded(), round);
        goals == p.predictedGoals && assists == p.predictedAssists
    {
      var x := Extract(row);
      var result := PredictFromInput(x.goals, x.assists, x.minutes, x.age, attempt, round);
      goals, assists := result.predictedGoals, result.predictedAssists;
    }
  }
}
