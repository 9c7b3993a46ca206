# Football player search and prediction core, in Dafny

This project models the core of a small football-statistics assistant written in
Python with pandas. Two CSV files of player statistics are combined into one
table. That table is used in three ways:

- An English query ("top scorer", "more than 10 goals", "goalkeeper", a player's
  name with a typo) is turned into one player row.
- Training data for two regressors is prepared from the table. Rows with
  impossible statistics are skipped. Synthetic performance and market-value
  targets are computed from goals, assists, minutes and age.
- The performance and market value of a player are predicted. The learned
  models are used when they can be loaded; otherwise a closed-form fallback
  is used.

A last helper decides whether a player is still active.

Modules and the source files they model:

- `Utils` (`utils.dfy`): `src/utils.py`. Whitespace and case normalisation
  (proved idempotent, and proved equal to joining the lower-cased words of
  the text with single spaces), integer extraction, the comparison-phrase classifier,
  and the two keyword tables.
- `UtilsExamples` (`utils_examples.dfy`): families of concrete queries, and
  what the classifier makes of each.
- `Frames` (`frames.dfy`): the parts of pandas and Python that the core relies
  on.
  - Cells are text, numbers, NaN or `None`.
  - A row maps column names to cells.
  - Also modelled: `row.get`, `astype(str)`, `float()` and `int()` on text,
    `pd.to_numeric(errors='coerce')`, and `int()` on a float.
- `DataLoader` (`data_loader.dfy`): `src/data_loader.py`, meaning `concat`,
  `drop_duplicates(subset="Player")` and `fillna("Unknown")`.
- `Search` (`search.dfy`): `src/search.py`, the six-step `smart_search`
  cascade.
  - Each step is a function returning the position of the row it picks.
  - Each loop of the source is a method proved equal to that function.
  - The source raises an exception in four situations, listed under
    "## Findings": the two fuzzy lookups (src/search.py:51 and 157) and two
    cases of the superlative step (src/search.py:82-87 and 100-106). The
    steps involved are modelled twice: as written (members named
    `...AsWritten`, returning the exception) and corrected. The corrected
    versions are what the cascade uses.
  - `SmartSearchAgrees` proves the two agree on every input where the source
    does not raise.
- `ModelTrainer` (`model_trainer.dfy`): from `src/model_trainer.py`, the
  functions `safe_convert` and `prepare_data` (its row loop, as a method with
  invariants) and the empty-data guard of `train_models`.
- `Predictor` (`predictor.dfy`): `src/predictor.py`.
  - `predict_from_input` is modelled with both branches.
  - The row extraction of `predict_player_value` and `predict_performance` is
    modelled.
  - The module globals that cache the loaded models are a class,
    `ModelCache`, whose methods update them.
- `StatusCheck` (`status_check.dfy`): `src/status_check.py`.

Numbers are exact reals. The similarity ratio of `difflib`, the learned
models, the scaler and `round` are function parameters. The outcome of
`load_models` (handles, or a failure) is a method parameter.

Behaviours of the code a caller may not expect:

- A NaN cell is not replaced by a default when a row is predicted. `safe_get`
  in `predict_player_value` has no NaN check, so a NaN cell reaches
  `max(0, nan)` (giving 0) or `max(16, min(50, nan))` (giving 50).
  - A NaN age is therefore predicted as age 50, not 25 (`NaNAgeIsFifty`).
- `predict_from_input` clamps out-of-range inputs and never rejects them
  (`Predict`).
- The training filter checks matches played (MP) for negativity, not minutes;
  the minutes come from `Min` (`Skipped`).
- `is_active` catches only ValueError. A `None` MP value makes `int()` raise
  TypeError, which escapes, although the note at the end of
  src/status_check.py says a missing value gives False (`IsActive`).
- The sign ">=" is classified as ">", and "<=" as "<". Those families are
  tested first, and ">=" contains ">" (`GreaterOrEqualSignReadsAsGreater`).

## Model

| member | source | states |
|---|---|---|
| Utils.Strip | src/utils.py:45 | `strip()` leaves no whitespace at either end and removes only whitespace |
| Utils.StripIsInfix | src/utils.py:45 | `strip()` returns an infix of the text, and everything before and after that infix is whitespace |
| Utils.ToLower | src/utils.py:45 | `lower()` maps each character to its lower case and keeps the length |
| Utils.Collapse | src/utils.py:47 | replacing whitespace runs by one space yields a text whose only whitespace is single spaces, and keeps the first character |
| Utils.CollapseKeepsWord | src/utils.py:47 | a text without whitespace is left unchanged by the substitution |
| Utils.CollapseRun | src/utils.py:47 | a whitespace run between a text not ending in whitespace and a text not starting with it becomes exactly one space, and the two sides are collapsed independently |
| Utils.CollapseJoinsWords | src/utils.py:47 | on a text with no whitespace at either end, the substitution equals its words (as `str.split()` finds them) joined by single spaces |
| Utils.Normalize | src/utils.py:42-48 | the result is normalised (stripped, no upper case, no whitespace run) and holds exactly the non-whitespace characters of the input, lower-cased, in order |
| Utils.NormalizeText | src/utils.py:42-48 | `None` normalises to the empty string; any other text to its lower-cased words joined by single spaces; every result is normalised |
| Utils.NormalizeJoinsWords | src/utils.py:44-48 | strip, lower-case and whitespace substitution together equal `" ".join(s.lower().split())` |
| Utils.NormalizeKeepsNormalized | src/utils.py:42-48 | a normalised text is left unchanged by normalisation |
| Utils.NormalizeIdempotent | src/utils.py:42-48 | normalising twice is normalising once |
| Utils.ExtractIntegers | src/utils.py:51-52 | the list of integers is empty exactly when the text has no digit |
| Utils.ExtractIntegersSkipsText | src/utils.py:51-52 | a digit-free prefix contributes no integer |
| Utils.ExtractIntegersLeadingRun | src/utils.py:51-52 | a maximal run of digits contributes its decimal value, ahead of the integers after it |
| Utils.LowerKeepsIntegers | src/utils.py:56-59 | lower-casing the query first does not change the integers found in it |
| Utils.ParseComparison | src/utils.py:55-78 | `(None, None)` exactly when the text has no digit; otherwise the operand is the first integer of the text |
| Utils.ParseComparisonFamilies | src/utils.py:58-78 | for a text with a digit: ">" exactly when a "greater" phrase occurs; "<" exactly when a "less" phrase does and no earlier family; ">=" and "<=" likewise; "==" exactly when no family phrase occurs |
| Utils.GreaterOrEqualSignReadsAsGreater | src/utils.py:58-61 | a text containing ">=" and a digit is classified ">" with its first integer |
| Utils.LessOrEqualSignReadsAsLess | src/utils.py:62-65 | a text containing "<=" and a digit but no "greater" phrase is classified "<" |
| Utils.AtLeastOnlyFromWords | src/utils.py:66-69 | the operator ">=" is returned only for a text containing "at least" |
| Utils.AtMostOnlyFromWords | src/utils.py:70-73 | the operator "<=" is returned only for a text containing "at most" |
| Utils.KeywordTableTargets | src/utils.py:5-39 | every keyword maps to one of the eight table columns, every position word to GK, DF, MF or FW |
| UtilsExamples.ExtractIntegersExample | src/utils.py:50-52 | "more than N goals" yields exactly [N], for every digit string N |
| UtilsExamples.GreaterOrEqualSignExample | src/utils.py:57-61 | ">=N" is classified (">", N) |
| UtilsExamples.LessOrEqualSignExample | src/utils.py:62-65 | "<=N" is classified ("<", N) |
| UtilsExamples.AtLeastExample | src/utils.py:66-69 | "at least N" is classified (">=", N) |
| UtilsExamples.AtMostExample | src/utils.py:70-73 | "at most N" is classified ("<=", N) |
| UtilsExamples.BareNumberExample | src/utils.py:74-77 | "age N" is classified ("==", N) |
| Frames.Get | src/model_trainer.py:48-51 | `row.get(key, d)` is the cell when the key is present, else `d` |
| Frames.ParseFloat | src/model_trainer.py:19 | `float()` accepts only a text containing a digit |
| Frames.ParseInt | src/status_check.py:4 | `int()` accepts only a text made of whitespace, signs and digits |
| Frames.DigitsParse | src/status_check.py:4 | a digit string reads as its decimal value under both `int()` and `float()` |
| Frames.IntTextParsesAsFloat | src/status_check.py:4 | whatever `int()` accepts, `float()` accepts with the same value |
| Frames.DecimalPointIsNotInt | src/status_check.py:4-7 | a text containing "." makes `int()` raise ValueError |
| Frames.ToNumeric | src/search.py:119 | coercion turns NaN and None into NaN and keeps numbers |
| Frames.Trunc | src/status_check.py:4 | `int()` of a float rounds toward zero |
| DataLoader.UnionColumns | src/data_loader.py:13 | the combined columns are exactly those of either file, the first file's first and in order |
| DataLoader.Widen | src/data_loader.py:13 | a source row gets every combined column, keeping its own cells and NaN in the others |
| DataLoader.WidenAll | src/data_loader.py:13 | every row of a file is widened, in order |
| DataLoader.Concat | src/data_loader.py:13 | the concatenation is well formed and holds the first file's rows, then the second's, widened |
| DataLoader.KeyOf | src/data_loader.py:16 | all missing Player values share one key |
| DataLoader.KeptPrefix | src/data_loader.py:16 | the kept positions increase, and a row is kept exactly when no earlier row has its Player value |
| DataLoader.DropDuplicates | src/data_loader.py:16 | the result is the kept rows, in order, with the same columns |
| DataLoader.KeptKeysDistinct | src/data_loader.py:16 | no two surviving rows share a Player value (so at most one lacks it) |
| DataLoader.FirstOccurrenceKept | src/data_loader.py:16 | the first row with a given Player value is kept |
| DataLoader.DropDuplicatesKeepsFirst | src/data_loader.py:16 | every Player value of the input survives, carried by its first occurrence |
| DataLoader.FillCell | src/data_loader.py:19 | NaN and None become "Unknown"; other cells are unchanged |
| DataLoader.FillRow | src/data_loader.py:19 | every cell of a row is filled and no key is added or lost |
| DataLoader.FillNa | src/data_loader.py:19 | no cell of the result is missing; rows and columns are kept |
| DataLoader.LoadAndCombine | src/data_loader.py:3-21 | KeyError exactly when neither file has a Player column |
| DataLoader.LoadAndCombineRows | src/data_loader.py:13-19 | each result row is the filled, widened source row that `drop_duplicates` kept |
| DataLoader.FirstFileWins | src/data_loader.py:13-16 | a player present in the first file is taken from the first file |
| DataLoader.ColumnFromOtherFileIsUnknown | src/data_loader.py:13-19 | a column only the second file has reads "Unknown" in rows from the first file |
| Search.BestPrefix | src/search.py:22-31 | the pick is a non-None choice of positive score that no choice beats and no earlier choice equals |
| Search.FuzzyChoice | src/search.py:14-31 | `_fuzzy_choice` returns the first best-scoring choice and its score, or (None, 0.0) |
| Search.BestLoop | src/search.py:22-31 | the loop computes the running best of every prefix (loop invariant) |
| Search.First | src/search.py:44-45 | `df[mask].iloc[0]` is the first row satisfying the mask, and None means no row does |
| Search.FirstFrom | src/search.py:44-45 | the first row from a position on that satisfies the mask |
| Search.ColumnTexts | src/search.py:48 | the column's text values, one per row in order |
| Search.CandidateScores | src/search.py:48-50 | an accepted candidate is a non-empty value of the column, scores at least the threshold, and scores no less than any other value |
| Search.LookupAsWritten | src/search.py:51 | as written: IndexError exactly when no row's lower-cased value equals the normalised candidate |
| Search.Lookup | src/search.py:51 | corrected: agrees with the source whenever the source finds a row, and always finds the candidate's own row |
| Search.LookupFindsBest | src/search.py:51 | the row found holds the candidate up to normalisation |
| Search.NameStep | src/search.py:33-52 | a hit needs a Player column; agrees with the source wherever the source does not raise |
| Search.NameStepMatches | src/search.py:41-51 | a name hit equals the query up to case, or scores at least the threshold against it |
| Search.MatchPlayerByName | src/search.py:33-52 | the method computes the name step |
| Search.Top | src/search.py:84-87 | the row picked has the largest sort key |
| Search.SuperlativeStep | src/search.py:82-106 | on a non-empty table, each superlative phrase whose column exists (and no earlier one) picks a row with the largest value: Gls for "top scorer", Ast for "most assists", Value for "highest value", else Gls + 0.8·Ast; a row is found exactly when the table is non-empty and some phrase applies with its column (for "highest value": Value, Gls or Ast) present; agrees with the source wherever it does not raise |
| Search.KeywordHit | src/search.py:109-142 | nothing unless the keyword is in the query and the column in the table; then the first row, in table order, whose numeric value satisfies the comparison, and when there is none (or no comparison), the first row whose column contains the keyword |
| Search.KeywordsFrom | src/search.py:109-142 | a hit is a row of the table |
| Search.KeywordsFromFirst | src/search.py:109-142 | the result is the hit of the first keyword entry that has one |
| Search.KeywordsFromNone | src/search.py:109-142 | no result means no keyword entry has a hit |
| Search.KeywordStep | src/search.py:109-142 | the loop over the keyword table computes the keyword step |
| Search.PositionHit | src/search.py:145-149 | the hit is the first row whose upper-cased Pos is the code; no hit means no such row |
| Search.PositionsFrom | src/search.py:145-149 | a hit is a row of the table |
| Search.PositionsFromFirst | src/search.py:145-149 | the result is the hit of the first position entry that has one |
| Search.PositionsFromNone | src/search.py:145-149 | no result means no position entry has a hit |
| Search.PositionStep | src/search.py:145-149 | the loop over the position table computes the position step |
| Search.FuzzyColumnHit | src/search.py:152-157 | corrected: agrees with the source wherever the source does not raise |
| Search.FuzzyColumnHitScores | src/search.py:153-157 | an accepted candidate always yields a row, whose value scores at least 0.7 against the query |
| Search.FuzzyFrom | src/search.py:152-157 | a hit is a row of the table |
| Search.FuzzyFromAgrees | src/search.py:152-157 | the loop as written and corrected give the same row when the source does not raise |
| Search.FuzzyColumnsStep | src/search.py:152-157 | the loop over Squad, Nation and Pos computes the fuzzy step |
| Search.AnyColumnHit | src/search.py:160-166 | the first row whose lower-cased value contains the query; no hit means no such row |
| Search.AnyFrom | src/search.py:160-166 | a hit contains the query in some remaining column; no hit means no remaining column contains it in any row |
| Search.AnyFromFirstColumn | src/search.py:160-166 | the result comes from the first column, in column order, that has a matching row |
| Search.AnyColumnStep | src/search.py:160-166 | the loop over the columns computes the last step |
| Search.LaterSteps | src/search.py:108-168 | a hit of steps 3 to 6 is a row of the table |
| Search.Cascade | src/search.py:76-168 | a hit of the cascade is a row of the table |
| Search.SmartSearchSpec | src/search.py:60-168 | a `None` query finds nothing; a hit is a row of the table |
| Search.SmartSearch | src/search.py:60-168 | the method computes the cascade, step by step |
| Search.ExactNameWins | src/search.py:41-45 | an exact case-insensitive name match wins over every other rule, and the first such row is returned |
| Search.TopScorerHasMostGoals | src/search.py:82-87 | without a name match, "top scorer" picks a row with the most goals |
| Search.LaterStepsAgree | src/search.py:108-168 | steps 3 to 6 as written and corrected agree wherever the source does not raise |
| Search.SmartSearchAgrees | src/search.py:60-168 | `smart_search` as written and the corrected cascade return the same row wherever the source does not raise |
| Search.TrailingSpaceNormalizes | src/utils.py:42-48 | a normalised name followed by a space normalises to the name |
| Search.TrailingSpaceCandidate | src/search.py:43-51 | a cell holding the name plus a space is no exact match, is the fuzzy candidate, and makes the source's lookup raise IndexError |
| Search.TrailingSpaceNameRaises | src/search.py:51 | the name step as written raises IndexError on that table; corrected, it returns the row |
| Search.TrailingSpaceSquadRaises | src/search.py:157 | the fuzzy Squad step as written raises IndexError on that table; corrected, it returns the row |
| Search.HighestValueAsked | src/search.py:94 | "highest value" is a highest-value query |
| Search.HighestValueAsksNothingElse | src/search.py:82-93 | "highest value" is neither a top-scorer nor a most-assists query |
| Search.HighestValueWithoutAssistsRaises | src/search.py:100-106 | with Gls but neither Ast nor Value, the source raises AttributeError; corrected, it picks a row with the most goals |
| Search.TopScorerOnEmptyTableRaises | src/search.py:82-87 | on an empty table with Gls, the source raises IndexError; corrected, it finds nothing |
| ModelTrainer.SafeConvert | src/model_trainer.py:14-21 | the float value when the cell coerces to a number, the default otherwise (NaN, None, '', bad text) |
| ModelTrainer.ReadStats | src/model_trainer.py:48-51 | a missing Gls, Ast or MP reads 0, a missing Age 25, a NaN Age 0 |
| ModelTrainer.MinutesPlayed | src/model_trainer.py:58 | without a Min key, 90 minutes per match; a NaN Min reads 0 |
| ModelTrainer.AgeMultiplier | src/model_trainer.py:74-79 | positive on the age domain, at most 1.1, and 1.1 exactly on ages 23 to 28 |
| ModelTrainer.TimeFactor | src/model_trainer.py:82-87 | between 0.7 and 1.0; 1.0 exactly over 2000 minutes, 0.7 exactly up to 1000 |
| ModelTrainer.ValueAgeFactor | src/model_trainer.py:98-103 | at least 1 up to age 28, below 0.6 after, and not positive from age 40 |
| ModelTrainer.Consistency | src/model_trainer.py:106 | at most 1, not negative for non-negative minutes, 1 from 2500 minutes |
| ModelTrainer.PerformanceTarget | src/model_trainer.py:90-91 | not negative, and never below the unclamped formula |
| ModelTrainer.ValueTarget | src/model_trainer.py:95-110 | at least 0.1 |
| ModelTrainer.PerformanceUnclamped | src/model_trainer.py:90-91 | on the feature domain the clamp never acts, and the target is positive exactly when goals plus assists is |
| ModelTrainer.AgeMultiplierDropsAfterPeak | src/model_trainer.py:74-79 | past 28 the multiplier is more than 0.1 below its peak |
| ModelTrainer.ValueTargetFloor | src/model_trainer.py:95-110 | with non-negative inputs, a player aged 40 or more, or without minutes, is worth exactly the floor 0.1 |
| ModelTrainer.SampleOf | src/model_trainer.py:46-110 | a row yields a sample exactly when it is not skipped, and that sample lies in the feature domain |
| ModelTrainer.Contributions | src/model_trainer.py:46-110 | what each row contributes, row by row |
| ModelTrainer.Collect | src/model_trainer.py:61-110 | appending only for kept rows collects present values only |
| ModelTrainer.Present | src/model_trainer.py:53-55 | the kept positions increase and include every kept row |
| ModelTrainer.CollectFollowsPresent | src/model_trainer.py:53-61 | the k-th collected sample comes from the k-th kept position |
| ModelTrainer.Samples | src/model_trainer.py:46-112 | there are never more samples than rows |
| ModelTrainer.SamplesInDomain | src/model_trainer.py:46-110 | every sample has valid features, a performance target of at least 0 and a value target of at least 0.1 |
| ModelTrainer.SamplesFollowRows | src/model_trainer.py:46-112 | the samples are those of the non-skipped rows, in row order, one each |
| ModelTrainer.NoSamplesIffAllSkipped | src/model_trainer.py:53-55 | no sample at all exactly when every row is skipped |
| ModelTrainer.PrepareData | src/model_trainer.py:39-112 | the three lists are the features and targets of the samples of the combined rows |
| ModelTrainer.TrainModels | src/model_trainer.py:117-120 | ValueError exactly when every row is skipped; otherwise training uses exactly the samples |
| ModelTrainer.MinutesLostAcrossFiles | src/model_trainer.py:58 | in the concatenated table, when only the second file has Min, rows of the first file read 0 minutes |
| ModelTrainer.AgeLostAcrossFiles | src/model_trainer.py:51-55 | in the concatenated table, when only the second file has Age, rows of the first file are skipped |
| Predictor.Max0 | src/predictor.py:55-57 | not negative, the identity on non-negative numbers, 0 for NaN |
| Predictor.ClampAge | src/predictor.py:58 | in [16, 50], the identity inside, 50 for NaN |
| Predictor.Clamp | src/predictor.py:55-58 | the validated vector lies in the feature domain with non-negative minutes |
| Predictor.Ratios | src/predictor.py:76-82 | the shares are non-negative, sum to 1, split goals and weighted assists in proportion, and are 0.5 each when both are 0 |
| Predictor.MatchDivisor | src/predictor.py:85-86 | at least 1, 1 up to 3150 minutes, and minutes over 3150 otherwise |
| Predictor.RoundedCount | src/predictor.py:88-89 | not negative, and the rounded value whenever that is not negative |
| Predictor.ValueFloor | src/predictor.py:93 | at least 0.1 and at least the value, which it keeps when it is at least 0.1 |
| Predictor.ModelPrediction | src/predictor.py:66-93 | counts are non-negative, the value is at least 0.1 and the model's, the score is the rounded model score |
| Predictor.FallbackPrediction | src/predictor.py:94-132 | counts are non-negative and the value is at least 0.1 |
| Predictor.Predict | src/predictor.py:41-139 | on any input, including NaN, counts are non-negative and the value is at least 0.1 |
| Predictor.FallbackPerformanceMatchesTraining | src/predictor.py:96-105 | on clamped inputs the fallback score is the rounded training performance target |
| Predictor.FallbackValueMatchesTraining | src/predictor.py:119-129 | the fallback market value is the training value target |
| Predictor.SafeGet | src/predictor.py:146-156 | a missing key, None or '' give the default, NaN stays NaN, numbers are kept |
| Predictor.SafeGetAgreesWithSafeConvert | src/predictor.py:146-156 | on every cell but NaN, `safe_get` reads what `safe_convert` reads |
| Predictor.Extract | src/predictor.py:158-162 | defaults 0, 0 and 25 for missing Gls, Ast and Age; without Min, 90 minutes per match played |
| Predictor.NaNAgeIsFifty | src/predictor.py:162 | a NaN age is predicted as age 50 |
| Predictor.ModelCache.Loaded | src/predictor.py:66 | the ML branch is taken exactly when the flag is up and all handles are set |
| Predictor.ModelCache.constructor | src/predictor.py:23-26 | nothing is loaded at import |
| Predictor.ModelCache.EnsureModelsLoaded | src/predictor.py:28-39 | once loaded nothing changes and nothing is reloaded; otherwise one load attempt, after which all handles are set or all are None |
| Predictor.ModelCache.PredictFromInput | src/predictor.py:41-139 | loads if needed, then predicts with the branch the new state selects |
| Predictor.ModelCache.PredictPlayerValue | src/predictor.py:141-165 | the market value of the row's inputs, rounded to 2 places; loads the models only when none are loaded yet, and otherwise keeps the loaded ones |
| Predictor.ModelCache.PredictPerformance | src/predictor.py:167-194 | the non-negative predicted goals and assists of the row's inputs; loads the models only when none are loaded yet, and otherwise keeps the loaded ones |
| StatusCheck.IsActive | src/status_check.py:1-7 | TypeError exactly when MP is None; no MP or NaN is inactive; a number is active exactly when at least 1 |
| StatusCheck.NegativeDigitsParse | src/status_check.py:4 | `int("-" + d)` is minus the value of the digits |
| StatusCheck.DigitsActivity | src/status_check.py:4 | MP written as digits is active exactly when its value is positive |
| StatusCheck.NegativeInactive | src/status_check.py:4 | MP written with a minus sign is inactive |
| StatusCheck.TextWithoutDigitInactive | src/status_check.py:3-7 | MP text without a digit is inactive |
| StatusCheck.UnknownInactive | src/status_check.py:3-7 | the filler "Unknown" is inactive |
| StatusCheck.DecimalTextInactive | src/status_check.py:3-7 | MP text with a decimal point ("3.0") is inactive |

## Left out

- Reading the CSV files and the fixed file paths: the two tables are parameters.
- Row indices: rows are identified by position. A search result is the
  position of the row, not the pandas Series with its index and helper
  column.
- Similarity: `difflib.SequenceMatcher.ratio` is a function parameter with
  values in [0, 1]. The unused `cutoff` parameter of `_fuzzy_choice` is left
  out.
- KeywordHit, AnyColumnHit: `str.contains` is a regular-expression search in
  the source. It is modelled as a plain substring test. A query holding regex
  metacharacters can therefore behave differently, and the handler at
  src/search.py:165-166, which skips a column when the pattern is invalid, is
  not modelled.
- KeywordHit: the handler at src/search.py:132-133 wraps `pd.to_numeric(...,
  errors='coerce')` and the comparisons, which do not raise on the cells
  modelled here, so it is not modelled. Its recovery, a search of the column
  for the whole query, is itself an unguarded regular-expression search.
- Top: pandas' descending sort is not stable. The model returns the first
  row of maximal key. Contracts claim only maximality, so any tie-breaking
  satisfies them.
- Text-to-number conversion accepts plain decimal notation only: an optional
  sign, digits, and at most one point. Exponents, "inf", "nan", underscores
  and non-ASCII digits are not modelled. A number's `str()` rendering is
  carried in the cell rather than computed.
- DataLoader.Concat: when a column only one file has gives an integer column
  NaN cells, pandas upcasts that column to float, so a cell rendered "3"
  becomes "3.0" in the combined table. The model keeps each number's own
  rendering, so the text matching of search steps 5 and 6 (`astype(str)`)
  sees "3" where the source sees "3.0".
- Floating point: numbers are exact reals, so rounding error and overflow are
  not modelled. `round(x, digits)` is a function parameter.
- Predictor.ModelCache.PredictPlayerValue: returns the rounded number, not the
  formatted "$…M" string.
- The regressors, the scaler, `train_test_split`, fitting, the error
  metrics, pickling and `load_models`: the learned models are function
  parameters. The result of a load attempt is a method parameter.
- `print` warnings and progress messages.
- `float()` on a non-numeric argument of `predict_from_input`: its inputs are
  numbers or NaN.
- The branch of `safe_get` for a row without a `get` method: rows always have
  one here.
- Unicode case mapping and whitespace: characters are treated as ASCII.
- main.py, train_models.py, random_predict.py, model_visualizer.py and
  TestingConnectionOfTheCSVsWithTheCode.py: these are the interactive shell
  and scripts around the core and are not part of this model.

## Findings

| source | as written | input that shows it | evidently intended | confidence | as-written member | corrected member |
|---|---|---|---|---|---|---|
| src/search.py:51 | looks the fuzzy winner up by comparing each lower-cased Player cell with the normalised winner | a Player cell "name " (trailing space) queried by "name": the fuzzy step picks it with score 1, no cell equals "name", `iloc[0]` raises IndexError | return the row the winner came from | not executed | Search.TrailingSpaceNameRaises | Search.NameStep |
| src/search.py:157 | the same lookup in the fuzzy Squad/Nation/Pos step | a Squad cell "name " queried by "name" raises IndexError | return the row the winner came from | not executed | Search.TrailingSpaceSquadRaises | Search.FuzzyColumnHit |
| src/search.py:100-106 | without a Value column, reads `df.get('Gls', 0)` and `df.get('Ast', 0)` and calls `fillna` on both | "highest value" on a table with Player and Gls but no Ast: `get` returns the scalar 0, which has no `fillna`, so AttributeError | a missing column counts as 0 | not executed | Search.HighestValueWithoutAssistsRaises | Search.SuperlativeStep |
| src/search.py:82-87 | takes `iloc[0]` of the sorted table | "top scorer" on an empty table with a Gls column raises IndexError | no row, and the cascade goes on | not executed | Search.TopScorerOnEmptyTableRaises | Search.SuperlativeStep |
