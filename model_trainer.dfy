/**
 * The data preparation of src/model_trainer.py: `safe_convert`, the per-row
 * loop of `prepare_data` that filters rows and computes the heuristic
 * performance and market-value targets, and the guard of `train_models`
 * against an empty training set. Numbers are exact reals.
 */
module ModelTrainer {
  import opened Wrappers
  import opened Frames
  import DataLoader

  // ---------------------------------------------------------------------------
  // safe_convert

  /**
   * `safe_convert(value, default)`: NaN, None, '' and text `float()` rejects
   * give `default`; anything else its float value. It is exactly
   * `pd.to_numeric(value, errors='coerce')` with `default` in place of NaN.
   */
  function SafeConvert(c: Cell, default: real): (r: real)
    ensures ToNumeric(c).Some? ==> r == ToNumeric(c).value
    ensures ToNumeric(c).None? ==> r == default
  {
    if IsNA(c) || c == Str("") then default
    else match c
      case Num(v, _) => v
      case Str(s) => if ParseFloat(s).Some? then ParseFloat(s).value else default
      case _ => default
  }

  /** The number a Python default of `row.get` stands for (it is never printed). */
  function Number(v: real): Cell {
    Num(v, "")
  }

  // ---------------------------------------------------------------------------
  // One row of prepare_data

  /** Goals, assists, matches played (MP) and age as read from a row. */
  datatype Stats = Stats(goals: real, assists: real, matches: real, age: real)

  /** The model inputs: goals, assists, minutes played, age. */
  datatype Features = Features(goals: real, assists: real, minutes: real, age: real)

  /** One training sample: the features and the two targets. */
  datatype Sample = Sample(x: Features, perf: real, value: real)

  /**
   * The four `safe_convert(row.get(key, d))` reads. A missing key reads its
   * `get` default (0 for Gls, Ast and MP, 25 for Age); a NaN cell reads the
   * `safe_convert` default 0, so a NaN age is 0.
   */
  function ReadStats(row: Row): (s: Stats)
    ensures "Gls" !in row ==> s.goals == 0.0
    ensures "Ast" !in row ==> s.assists == 0.0
    ensures "MP" !in row ==> s.matches == 0.0
    ensures "Age" !in row ==> s.age == 25.0
    ensures "Age" in row && IsNA(row["Age"]) ==> s.age == 0.0
  {
    Stats(SafeConvert(Get(row, "Gls", Number(0.0)), 0.0),
          SafeConvert(Get(row, "Ast", Number(0.0)), 0.0),
          SafeConvert(Get(row, "MP", Number(0.0)), 0.0),
          SafeConvert(Get(row, "Age", Number(25.0)), 0.0))
  }

  /** The rows `prepare_data` skips: a negative count or an age outside [16, 50]. */
  predicate Skipped(s: Stats) {
    s.goals < 0.0 || s.assists < 0.0 || s.matches < 0.0 || s.age < 16.0 || s.age > 50.0
  }

  /** Minutes played: the Min column when the row has that key, else 90 minutes per match. */
  function MinutesPlayed(row: Row, s: Stats): (m: real)
    ensures "Min" !in row ==> m == s.matches * 90.0
    ensures "Min" in row && IsNA(row["Min"]) ==> m == 0.0
  {
    SafeConvert(Get(row, "Min", Number(s.matches * 90.0)), 0.0)
  }

  /** The feature domain every sample lies in. */
  predicate InDomain(f: Features) {
    f.goals >= 0.0 && f.assists >= 0.0 && 16.0 <= f.age <= 50.0
  }

  // ---------------------------------------------------------------------------
  // Target formulas

  /** Peak of 1.1 on [23, 28], rising towards it below and falling after it. */
  function AgeMultiplier(age: real): (r: real)
    ensures 16.0 <= age <= 50.0 ==> r > 0.0
    ensures r <= 1.1
    ensures r == 1.1 <==> 23.0 <= age <= 28.0
  {
    if 23.0 <= age <= 28.0 then 1.1
    else if age < 23.0 then 0.95 + (age - 18.0) * 0.03
    else 1.0 - (age - 28.0) * 0.02
  }

  /** Regular starters (over 2000 minutes) 1.0, over 1000 minutes 0.9, else 0.7. */
  function TimeFactor(minutes: real): (r: real)
    ensures 0.7 <= r <= 1.0
    ensures r == 1.0 <==> minutes > 2000.0
    ensures r == 0.7 <==> minutes <= 1000.0
  {
    if minutes > 2000.0 then 1.0
    else if minutes > 1000.0 then 0.9
    else 0.7
  }

  /** 1.3 under 23, 1.0 up to 28, then 0.6 falling by 0.05 a year. */
  function ValueAgeFactor(age: real): (r: real)
    ensures age <= 28.0 ==> r >= 1.0
    ensures age > 28.0 ==> r < 0.6
    ensures age >= 40.0 ==> r <= 0.0
  {
    if age < 23.0 then 1.3
    else if age <= 28.0 then 1.0
    else 0.6 - (age - 28.0) * 0.05
  }

  /** `min(1.0, minutes / 2500)`. */
  function Consistency(minutes: real): (r: real)
    ensures r <= 1.0
    ensures minutes >= 0.0 ==> r >= 0.0
    ensures minutes >= 2500.0 ==> r == 1.0
  {
    if minutes / 2500.0 < 1.0 then minutes / 2500.0 else 1.0
  }

  /** The formula before the clamp: goals plus 0.8 per assist, scaled by age and playing time. */
  function RawPerformance(f: Features): real {
    (f.goals + f.assists * 0.8) * AgeMultiplier(f.age) * TimeFactor(f.minutes) * 0.15
  }

  /** The performance target `max(0, predicted_performance)`. */
  function PerformanceTarget(f: Features): (r: real)
    ensures r >= 0.0
    ensures r >= RawPerformance(f)
  {
    var p := RawPerformance(f);
    if p > 0.0 then p else 0.0
  }

  /** The value target `max(0.1, estimated_value)`, in millions. */
  function ValueTarget(f: Features): (r: real)
    ensures r >= 0.1
  {
    var base := f.goals * 2.5 + f.assists * 1.8;
    var estimated := base * ValueAgeFactor(f.age) * Consistency(f.minutes) / 10.0;
    if estimated > 0.1 then estimated else 0.1
  }

  /** On the feature domain the clamp of the performance target never acts. */
  lemma PerformanceUnclamped(f: Features)
    requires InDomain(f)
    ensures PerformanceTarget(f) == RawPerformance(f)
    ensures PerformanceTarget(f) > 0.0 <==> f.goals + f.assists > 0.0
  {
    var base := f.goals + f.assists * 0.8;
    var m := AgeMultiplier(f.age);
    var tf := TimeFactor(f.minutes);
    assert base >= 0.0 && m > 0.0 && tf > 0.0;
    assert base * m >= 0.0;
    if base > 0.0 {
      assert base * m > 0.0;
      assert base * m * tf > 0.0;
    } else {
      assert base == 0.0;
    }
  }

  /** The multiplier drops by more than 0.1 as soon as a player is past 28. */
  lemma AgeMultiplierDropsAfterPeak(age: real)
    requires age > 28.0
    ensures AgeMultiplier(age) + 0.1 < AgeMultiplier(28.0)
  {
  }

  /**
   * With non-negative minutes, a player of 40 or more, or one without
   * minutes, is worth the floor of 0.1 whatever the goals and assists.
   */
  lemma ValueTargetFloor(f: Features)
    requires f.goals >= 0.0 && f.assists >= 0.0 && f.minutes >= 0.0
    requires f.age >= 40.0 || f.minutes == 0.0
    ensures ValueTarget(f) == 0.1
  {
    var base := f.goals * 2.5 + f.assists * 1.8;
    var a := ValueAgeFactor(f.age);
    var c := Consistency(f.minutes);
    assert base >= 0.0 && c >= 0.0;
    if f.minutes == 0.0 {
      assert c == 0.0;
    } else {
      assert a <= 0.0;
      assert base * a <= 0.0;
      assert base * a * c <= 0.0;
    }
  }

  // ---------------------------------------------------------------------------
  // The loop of prepare_data

  /** The sample of a row whose statistics read `s` and whose minutes read `minutes`, unless skipped. */
  function SampleFrom(s: Stats, minutes: real): (r: Option<Sample>)
    ensures r.Some? <==> !Skipped(s)
    ensures r.Some? ==> InDomain(r.value.x) && r.value.x.minutes == minutes
  {
    if Skipped(s) then None
    else
      var f := Features(s.goals, s.assists, minutes, s.age);
      Some(Sample(f, PerformanceTarget(f), ValueTarget(f)))
  }

  /** What one row contributes: nothing when skipped, else its sample. */
  function SampleOf(row: Row): (r: Option<Sample>)
    ensures r.Some? <==> !Skipped(ReadStats(row))
    ensures r.Some? ==> InDomain(r.value.x) && r.value.x.minutes == MinutesPlayed(row, ReadStats(row))
  {
    var s := ReadStats(row);
    SampleFrom(s, MinutesPlayed(row, s))
  }

  /** What each row contributes, row by row. */
  function Contributions(rows: seq<Row>): (r: seq<Option<Sample>>)
    ensures |r| == |rows|
    ensures forall i :: 0 <= i < |rows| ==> r[i] == SampleOf(rows[i])
  {
    seq(|rows|, i requires 0 <= i < |rows| => SampleOf(rows[i]))
  }

  /** The present values, in order: what appending only on success collects. */
  function Collect(opts: seq<Option<Sample>>): (r: seq<Sample>)
    ensures |r| <= |opts|
    ensures forall k :: 0 <= k < |r| ==> Some(r[k]) in opts
  {
    if opts == [] then []
    else
      var prev := Collect(opts[..|opts| - 1]);
      assert forall k :: 0 <= k < |prev| ==> Some(prev[k]) in opts[..|opts| - 1];
      match opts[|opts| - 1]
      case None => prev
      case Some(s) => prev + [s]
  }

  /** The positions of the present values. */
  function Present(opts: seq<Option<Sample>>): (r: seq<nat>)
    ensures forall k :: 0 <= k < |r| ==> r[k] < |opts| && opts[r[k]].Some?
    ensures forall k, l :: 0 <= k < l < |r| ==> r[k] < r[l]
    ensures forall i :: 0 <= i < |opts| && opts[i].Some? ==> i in r
  {
    if opts == [] then []
    else
      var n := |opts| - 1;
      var prev := Present(opts[..n]);
      if opts[n].Some? then prev + [n] else prev
  }

  /** The k-th collected value is the value at the k-th present position. */
  lemma {:induction false} CollectFollowsPresent(opts: seq<Option<Sample>>)
    ensures |Collect(opts)| == |Present(opts)|
    ensures forall k :: 0 <= k < |Collect(opts)| ==> opts[Present(opts)[k]] == Some(Collect(opts)[k])
  {
    if opts != [] {
      CollectFollowsPresent(opts[..|opts| - 1]);
    }
  }

  /** The samples of the rows, in row order. */
  function Samples(rows: seq<Row>): (r: seq<Sample>)
    ensures |r| <= |rows|
  {
    Collect(Contributions(rows))
  }

  /** Every sample lies in the feature domain and has targets within their floors. */
  lemma SamplesInDomain(rows: seq<Row>, k: nat)
    requires k < |Samples(rows)|
    ensures var s := Samples(rows)[k]; InDomain(s.x) && s.perf >= 0.0 && s.value >= 0.1
  {
    var opts := Contributions(rows);
    var s := Samples(rows)[k];
    assert Some(s) in opts;
    var i :| 0 <= i < |opts| && opts[i] == Some(s);
    assert SampleOf(rows[i]) == Some(s);
  }

  /**
   * The k-th sample comes from the k-th row that is not skipped: skipped rows
   * add nothing, and the others add their sample in row order.
   */
  lemma SamplesFollowRows(rows: seq<Row>)
    ensures var origins := Present(Contributions(rows));
      |Samples(rows)| == |origins| &&
      (forall k :: 0 <= k < |origins| ==> origins[k] < |rows|) &&
      (forall k, l :: 0 <= k < l < |origins| ==> origins[k] < origins[l]) &&
      (forall i :: 0 <= i < |rows| && !Skipped(ReadStats(rows[i])) ==> i in origins) &&
      (forall k :: 0 <= k < |origins| ==> SampleOf(rows[origins[k]]) == Some(Samples(rows)[k]))
  {
    CollectFollowsPresent(Contributions(rows));
  }

  /** No sample at all exactly when every row is skipped. */
  lemma NoSamplesIffAllSkipped(rows: seq<Row>)
    ensures Samples(rows) == [] <==> forall i :: 0 <= i < |rows| ==> Skipped(ReadStats(rows[i]))
  {
    SamplesFollowRows(rows);
    if Samples(rows) != [] {
      var i := Present(Contributions(rows))[0];
      assert SampleOf(rows[i]).Some?;
    }
  }

  /** The three output lists hold the samples' features and targets, position by position. */
  predicate Unzips(features: seq<Features>, perf: seq<real>, value: seq<real>, s: seq<Sample>) {
    |features| == |s| && |perf| == |s| && |value| == |s| &&
    forall k :: 0 <= k < |s| ==> features[k] == s[k].x && perf[k] == s[k].perf && value[k] == s[k].value
  }

  /** Collecting one more value appends it when it is present. */
  lemma CollectSnoc(opts: seq<Option<Sample>>, i: nat)
    requires i < |opts|
    ensures Collect(opts[..i + 1]) == Collect(opts[..i]) + (if opts[i].Some? then [opts[i].value] else [])
  {
    assert opts[..i + 1][..i] == opts[..i];
  }

  /** Appending a sample to the three lists keeps them the unzipped samples. */
  lemma UnzipsSnoc(features: seq<Features>, perf: seq<real>, value: seq<real>, s: seq<Sample>, x: Sample)
    requires Unzips(features, perf, value, s)
    ensures Unzips(features + [x.x], perf + [x.perf], value + [x.value], s + [x])
  {
  }

  /** The rows `prepare_data` trains on: the two tables concatenated. */
  function TrainingRows(t1: Table, t2: Table): seq<Row> {
    DataLoader.Concat(t1, t2).rows
  }

  /** `prepare_data`: the loop over the combined rows appending to the three lists. */
  method PrepareData(t1: Table, t2: Table) returns (features: seq<Features>, perfTargets: seq<real>, valueTargets: seq<real>)
    ensures Unzips(features, perfTargets, valueTargets, Samples(TrainingRows(t1, t2)))
  {
    var rows := TrainingRows(t1, t2);
    features, perfTargets, valueTargets := [], [], [];
    var i := 0;
    while i < |rows|
      invariant i <= |rows|
      invariant Unzips(features, perfTargets, valueTargets, Collect(Contributions(rows)[..i]))
    {
      CollectSnoc(Contributions(rows), i);
      var stats := ReadStats(rows[i]);
      if !Skipped(stats) {
        var minutes := MinutesPlayed(rows[i], stats);
        var f := Features(stats.goals, stats.assists, minutes, stats.age);
        assert Contributions(rows)[i] == Some(Sample(f, PerformanceTarget(f), ValueTarget(f)));
        UnzipsSnoc(features, perfTargets, valueTargets, Collect(Contributions(rows)[..i]),
          Sample(f, PerformanceTarget(f), ValueTarget(f)));
        features := features + [f];
        perfTargets := perfTargets + [PerformanceTarget(f)];
        valueTargets := valueTargets + [ValueTarget(f)];
      } else {
        assert Contributions(rows)[i] == None;
      }
      i := i + 1;
    }
    assert Contributions(rows)[..i] == Contributions(rows);
  }

  /**
   * `train_models` up to the fit: ValueError when no row survives the filter,
   * raised before anything is fitted; otherwise the samples it fits on.
   */
  method TrainModels(t1: Table, t2: Table) returns (r: Result<seq<Sample>, PyError>)
    ensures r.Failure? <==> forall i :: 0 <= i < |TrainingRows(t1, t2)| ==> Skipped(ReadStats(TrainingRows(t1, t2)[i]))
    ensures r.Failure? ==> r.error == ValueError
    ensures r.Success? ==> r.value == Samples(TrainingRows(t1, t2))
  {
    var features, perfTargets, valueTargets := PrepareData(t1, t2);
    NoSamplesIffAllSkipped(TrainingRows(t1, t2));
    if |features| == 0 {
      return Failure(ValueError);
    }
    var samples := seq(|features|, k requires 0 <= k < |features| => Sample(features[k], perfTargets[k], valueTargets[k]));
    return Success(samples);
  }

  // ---------------------------------------------------------------------------
  // Consequences of reading the concatenated table

  /**
   * When only the second file has a Min column, a row of the first file reads
   * NaN there, so its minutes are 0 rather than 90 per match.
   */
  lemma MinutesLostAcrossFiles(t1: Table, t2: Table, i: nat)
    requires WellFormed(t1) && i < |t1.rows|
    requires "Min" in t2.columns && "Min" !in t1.columns
    ensures var row := TrainingRows(t1, t2)[i]; MinutesPlayed(row, ReadStats(row)) == 0.0
  {
    var columns := DataLoader.Concat(t1, t2).columns;
    assert "Min" !in t1.rows[i];
    assert "Min" in columns;
    assert TrainingRows(t1, t2)[i]["Min"] == Missing;
  }

  /**
   * When only the second file has an Age column, a row of the first file reads
   * a NaN age, which converts to 0, so the row is skipped instead of taking
   * the default age 25.
   */
  lemma AgeLostAcrossFiles(t1: Table, t2: Table, i: nat)
    requires WellFormed(t1) && i < |t1.rows|
    requires "Age" in t2.columns && "Age" !in t1.columns
    ensures SampleOf(TrainingRows(t1, t2)[i]).None?
  {
    var columns := DataLoader.Concat(t1, t2).columns;
    assert "Age" !in t1.rows[i];
    assert "Age" in columns;
    assert TrainingRows(t1, t2)[i]["Age"] == Missing;
  }
}
