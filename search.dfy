/**
 * `smart_search` (src/search.py): the cascade that turns an English query into
 * one row of the player table. The steps are tried in order: player name
 * (exact, then fuzzy), superlatives ("top scorer", "most assists", "highest
 * value"), column keywords with an optional numeric comparison, position
 * words, fuzzy matching on Squad/Nation/Pos, and finally a substring search
 * over every column. A hit is reported as the position of the row.
 *
 * Four situations make the source raise instead of answering; they are modelled
 * as written (the `...AsWritten` members, which return the exception) and
 * corrected (the members the cascade uses). `SmartSearchAgrees` shows the two
 * give the same row whenever the source does not raise.
 */
module Search {
  import opened Wrappers
  import opened Utils
  import opened Frames

  /** A similarity score. */
  type Ratio = r: real | 0.0 <= r <= 1.0

  /** `difflib.SequenceMatcher(None, a, b).ratio()`, supplied by the caller. */
  type Similarity = (string, string) -> Ratio

  /** The score both fuzzy steps of `smart_search` demand. */
  const Threshold: real := 0.7

  // ---------------------------------------------------------------------------
  // _fuzzy_choice

  /** The running best of `_fuzzy_choice`: nothing yet, or a choice, its position and its score. */
  datatype Pick = NoPick | Picked(choice: string, at: nat, score: real)

  function ScoreOf(p: Pick): real {
    if p.Picked? then p.score else 0.0
  }

  /** How `_fuzzy_choice` scores one choice: the ratio of the query to the normalised choice. */
  function ScoreAgainst(q: string, sim: Similarity): string -> Ratio {
    c => sim(q, Normalize(c))
  }

  /**
   * The best choice among the first `n`: `None` entries are skipped and a later
   * choice replaces the best only with a strictly higher score.
   */
  function BestPrefix(choices: seq<Option<string>>, n: nat, score: string -> Ratio): (p: Pick)
    requires n <= |choices|
    ensures p.Picked? ==> (p.at < n && choices[p.at] == Some(p.choice) &&
      p.score == score(p.choice) && p.score > 0.0)
    ensures forall i :: 0 <= i < n && choices[i].Some? ==> score(choices[i].value) <= ScoreOf(p)
    ensures p.Picked? ==> forall i :: 0 <= i < p.at && choices[i].Some? ==> score(choices[i].value) < p.score
  {
    if n == 0 then NoPick
    else
      var p := BestPrefix(choices, n - 1, score);
      match choices[n - 1]
      case None => p
      case Some(c) =>
        var s := score(c);
        if s > ScoreOf(p) then Picked(c, n - 1, s) else p
  }

  /** `_fuzzy_choice(query, choices)`: the first choice of highest positive score, if any. */
  function FuzzyBest(query: string, choices: seq<Option<string>>, sim: Similarity): Pick {
    if choices == [] then NoPick else BestPrefix(choices, |choices|, ScoreAgainst(Normalize(query), sim))
  }

  /** One more choice: it replaces the best so far only with a strictly higher score. */
  lemma BestPrefixStep(choices: seq<Option<string>>, i: nat, score: string -> Ratio)
    requires i < |choices|
    ensures var p := BestPrefix(choices, i, score);
      BestPrefix(choices, i + 1, score) ==
        if choices[i].Some? && score(choices[i].value) > ScoreOf(p)
        then Picked(choices[i].value, i, score(choices[i].value)) else p
  {
  }

  /** `_fuzzy_choice`, returning `(best, best_score)`. */
  method FuzzyChoice(query: string, choices: seq<Option<string>>, sim: Similarity)
    returns (best: Option<string>, score: real)
    ensures var p := FuzzyBest(query, choices, sim);
      best == (if p.Picked? then Some(p.choice) else None) && score == ScoreOf(p)
  {
    if choices == [] {
      return None, 0.0;
    }
    best, score := BestLoop(choices, ScoreAgainst(Normalize(query), sim));
  }

  /** The loop of `_fuzzy_choice` over the choices, under any scoring. */
  method BestLoop(choices: seq<Option<string>>, ratio: string -> Ratio) returns (best: Option<string>, score: real)
    ensures var p := BestPrefix(choices, |choices|, ratio);
      best == (if p.Picked? then Some(p.choice) else None) && score == ScoreOf(p)
  {
    best, score := None, 0.0;
    var i := 0;
    while i < |choices|
      invariant 0 <= i <= |choices|
      invariant var p := BestPrefix(choices, i, ratio);
        best == (if p.Picked? then Some(p.choice) else None) && score == ScoreOf(p)
    {
      BestPrefixStep(choices, i, ratio);
      if choices[i].Some? {
        var s := ratio(choices[i].value);
        if s > score {
          best, score := choices[i], s;
        }
      }
      i := i + 1;
    }
  }

  // ---------------------------------------------------------------------------
  // Row selection with boolean masks

  /** `op(value, val)` where NaN (`None`) never compares true. */
  predicate Satisfies(v: Option<real>, cmp: Comparison) {
    match v
    case None => false
    case Some(x) =>
      var k := cmp.operand as real;
      match cmp.op
      case Gt => x > k
      case Lt => x < k
      case Ge => x >= k
      case Le => x <= k
      case Eq => x == k
  }

  /** The boolean masks the search builds over one column. */
  datatype Mask =
    | LowerIs(col: string, text: string)      // df[col].astype(str).str.lower() == text
    | UpperIs(col: string, text: string)      // df[col].astype(str).str.upper() == text
    | LowerHas(col: string, text: string)     // df[col].astype(str).str.lower().str.contains(text)
    | Compares(col: string, cmp: Comparison)  // pd.to_numeric(df[col], errors='coerce') <op> val
    | TextIs(col: string, text: string)       // df[col].astype(str) == text

  predicate Holds(m: Mask, row: Row) {
    match m
    case LowerIs(col, text) => ToLower(Text(row, col)) == text
    case UpperIs(col, text) => ToUpper(Text(row, col)) == text
    case LowerHas(col, text) => Contains(ToLower(Text(row, col)), text)
    case Compares(col, cmp) => Satisfies(ToNumeric(CellAt(row, col)), cmp)
    case TextIs(col, text) => Text(row, col) == text
  }

  function FirstFrom(rows: seq<Row>, m: Mask, k: nat): (r: Option<nat>)
    requires k <= |rows|
    ensures r.Some? ==> k <= r.value < |rows| && Holds(m, rows[r.value])
    ensures forall j :: k <= j < |rows| && (r.None? || j < r.value) ==> !Holds(m, rows[j])
    decreases |rows| - k
  {
    if k == |rows| then None
    else if Holds(m, rows[k]) then Some(k)
    else FirstFrom(rows, m, k + 1)
  }

  /** `df[mask].iloc[0]` when the selection is not empty: the first selected row. */
  function First(rows: seq<Row>, m: Mask): (r: Option<nat>)
    ensures r.Some? ==> r.value < |rows| && Holds(m, rows[r.value])
    ensures forall j :: 0 <= j < |rows| && (r.None? || j < r.value) ==> !Holds(m, rows[j])
  {
    FirstFrom(rows, m, 0)
  }

  // ---------------------------------------------------------------------------
  // Fuzzy match on a column, and the lookup of the row it came from

  /** `df[col].astype(str).tolist()`. */
  function ColumnTexts(t: Table, col: string): (r: seq<Option<string>>)
    ensures |r| == |t.rows|
    ensures forall i :: 0 <= i < |r| ==> r[i] == Some(Text(t.rows[i], col))
  {
    seq(|t.rows|, i requires 0 <= i < |t.rows| => Some(Text(t.rows[i], col)))
  }

  /** `best, score = _fuzzy_choice(q, df[col].astype(str).tolist())`, kept when `best and score >= threshold`. */
  function Candidate(t: Table, col: string, q: string, threshold: real, sim: Similarity): Option<string> {
    var p := FuzzyBest(q, ColumnTexts(t, col), sim);
    if p.Picked? && p.choice != [] && p.score >= threshold then Some(p.choice) else None
  }

  /** A candidate is a non-empty value of the column that scores best and at least `threshold`. */
  lemma CandidateScores(t: Table, col: string, q: string, threshold: real, sim: Similarity)
    requires Candidate(t, col, q, threshold, sim).Some?
    ensures var best := Candidate(t, col, q, threshold, sim).value;
      best != [] && threshold <= ScoreAgainst(Normalize(q), sim)(best) &&
      (exists j :: 0 <= j < |t.rows| && Text(t.rows[j], col) == best) &&
      forall j :: 0 <= j < |t.rows| ==>
        ScoreAgainst(Normalize(q), sim)(Text(t.rows[j], col)) <= ScoreAgainst(Normalize(q), sim)(best)
  {
    var texts := ColumnTexts(t, col);
    var ratio := ScoreAgainst(Normalize(q), sim);
    var p := BestPrefix(texts, |texts|, ratio);
    assert p == FuzzyBest(q, texts, sim);
    assert Text(t.rows[p.at], col) == p.choice;
    assert forall j :: 0 <= j < |t.rows| ==> texts[j].Some? && texts[j].value == Text(t.rows[j], col);
  }

  /**
   * `df[df[col].astype(str).str.lower() == normalize_text(best)].iloc[0]`: the
   * raw cell is only lower-cased while `best` is normalised, so a name with
   * surrounding or doubled whitespace finds no row and `iloc[0]` raises.
   */
  function LookupAsWritten(t: Table, col: string, best: string): (r: Result<nat, PyError>)
    ensures r.Success? ==> r.value < |t.rows| && ToLower(Text(t.rows[r.value], col)) == Normalize(best)
    ensures r.Failure? <==> NoLowerMatch(t, col, Normalize(best))
    ensures r.Failure? ==> r.error == IndexError
  {
    match FirstLower(t, col, Normalize(best))
    case Some(i) => Success(i)
    case None => Failure(IndexError)
  }

  /** No row's lower-cased text in `col` is `n`. */
  predicate NoLowerMatch(t: Table, col: string, n: string) {
    forall j :: 0 <= j < |t.rows| ==> ToLower(Text(t.rows[j], col)) != n
  }

  /** The first row whose lower-cased text in `col` is `n`. */
  function FirstLower(t: Table, col: string, n: string): (r: Option<nat>)
    ensures r.Some? ==> r.value < |t.rows| && ToLower(Text(t.rows[r.value], col)) == n
    ensures r.Some? ==> forall j :: 0 <= j < r.value ==> ToLower(Text(t.rows[j], col)) != n
    ensures r.None? <==> NoLowerMatch(t, col, n)
  {
    First(t.rows, LowerIs(col, n))
  }

  /** A text whose lower case is already normal form normalises to that lower case. */
  lemma LowerNormalForm(x: string, n: string)
    requires ToLower(x) == n && IsNormalized(n)
    ensures Normalize(x) == n
  {
    if x != [] {
      assert !IsSpace(x[0]) && !IsSpace(x[|x| - 1]) by {
        assert n[0] == LowerChar(x[0]) && n[|n| - 1] == LowerChar(x[|x| - 1]);
      }
    }
    assert TrimStart(x) == x;
    assert TrimEnd(x) == x;
    CollapseKeepsCollapsed(n);
  }

  /**
   * The lookup the fuzzy steps evidently mean: as written when that finds a
   * row, otherwise the first row whose text is `best` itself.
   */
  function Lookup(t: Table, col: string, best: string): (r: Option<nat>)
    ensures r.Some? ==> (r.value < |t.rows| &&
      (ToLower(Text(t.rows[r.value], col)) == Normalize(best) || Text(t.rows[r.value], col) == best))
    ensures forall j :: 0 <= j < |t.rows| && Text(t.rows[j], col) == best ==> r.Some?
    ensures LookupAsWritten(t, col, best).Success? ==> r == Some(LookupAsWritten(t, col, best).value)
  {
    match FirstLower(t, col, Normalize(best))
    case Some(i) => Some(i)
    case None => First(t.rows, TextIs(col, best))
  }

  /** The row the corrected lookup returns holds `best` up to normalisation. */
  lemma LookupFindsBest(t: Table, col: string, best: string)
    requires Lookup(t, col, best).Some?
    ensures Normalize(Text(t.rows[Lookup(t, col, best).value], col)) == Normalize(best)
  {
    var x := Text(t.rows[Lookup(t, col, best).value], col);
    if x != best {
      NormalizeKeepsNormalized(Normalize(best));
      LowerNormalForm(x, Normalize(best));
    }
  }

  // ---------------------------------------------------------------------------
  // 1) _match_player_by_name

  /** `_match_player_by_name(df, q, threshold)` as written; `Failure` is the exception it raises. */
  function NameStepAsWritten(t: Table, q: string, threshold: real, sim: Similarity): Result<Option<nat>, PyError> {
    if "Player" !in t.columns then Success(None)
    else
      var qn := Normalize(q);
      match First(t.rows, LowerIs("Player", qn))
      case Some(i) => Success(Some(i))
      case None =>
        match Candidate(t, "Player", qn, threshold, sim)
        case None => Success(None)
        case Some(best) =>
          match LookupAsWritten(t, "Player", best)
          case Success(i) => Success(Some(i))
          case Failure(e) => Failure(e)
  }

  /**
   * `_match_player_by_name` with the corrected lookup: an exact
   * (case-insensitive) name match, otherwise a name scoring at least
   * `threshold` against the query.
   */
  function NameStep(t: Table, q: string, threshold: real, sim: Similarity): (r: Option<nat>)
    ensures r.Some? ==> "Player" in t.columns && r.value < |t.rows|
    ensures NameStepAsWritten(t, q, threshold, sim).Success? ==> r == NameStepAsWritten(t, q, threshold, sim).value
  {
    if "Player" !in t.columns then None
    else
      var qn := Normalize(q);
      match First(t.rows, LowerIs("Player", qn))
      case Some(i) => Some(i)
      case None =>
        match Candidate(t, "Player", qn, threshold, sim)
        case None => None
        case Some(best) =>
          var r := Lookup(t, "Player", best);
          assert NameStepAsWritten(t, q, threshold, sim) ==
            (match LookupAsWritten(t, "Player", best)
             case Success(i) => Success(Some(i))
             case Failure(e) => Failure(e));
          r
  }

  /** A name hit is the query itself up to case, or a name scoring at least `threshold` against it. */
  lemma NameStepMatches(t: Table, q: string, threshold: real, sim: Similarity)
    requires NameStep(t, q, threshold, sim).Some?
    ensures var name := Text(t.rows[NameStep(t, q, threshold, sim).value], "Player");
      ToLower(name) == Normalize(q) || threshold <= sim(Normalize(q), Normalize(name))
  {
    var qn := Normalize(q);
    var exact := First(t.rows, LowerIs("Player", qn));
    if exact.Some? {
      assert NameStep(t, q, threshold, sim) == exact;
      return;
    }
    var best := Candidate(t, "Player", qn, threshold, sim).value;
    assert NameStep(t, q, threshold, sim) == Lookup(t, "Player", best);
    NormalizeIdempotent(q);
    CandidateScores(t, "Player", qn, threshold, sim);
    assert threshold <= ScoreAgainst(qn, sim)(best);
    LookupFindsBest(t, "Player", best);
    assert ScoreAgainst(qn, sim)(best) == sim(qn, Normalize(best));
  }

  // ---------------------------------------------------------------------------
  // 2) Superlatives

  predicate AsksTopScorer(q: string) {
    Contains(q, "top scorer") || Contains(q, "top scorers") || Contains(q, "most goals") || Contains(q, "highest goals")
  }

  predicate AsksMostAssists(q: string) {
    Contains(q, "most assists") || Contains(q, "top assist")
  }

  predicate AsksHighestValue(q: string) {
    Contains(q, "highest value") || Contains(q, "most valuable") || Contains(q, "highest market value")
  }

  /** `pd.to_numeric(df[col], errors='coerce').fillna(0)` at one row; a column the row lacks reads 0. */
  function NumberOrZero(row: Row, col: string): real {
    match ToNumeric(CellAt(row, col))
    case Some(v) => v
    case None => 0.0
  }

  /** What a superlative sorts by: one column, or goals plus 0.8 times assists. */
  datatype Ranking = ByColumn(col: string) | GoalsAndAssists

  function RankValue(k: Ranking, row: Row): real {
    match k
    case ByColumn(col) => NumberOrZero(row, col)
    case GoalsAndAssists => NumberOrZero(row, "Gls") + 0.8 * NumberOrZero(row, "Ast")
  }

  /** The sort key of every row. */
  function RankValues(rows: seq<Row>, k: Ranking): (r: seq<real>)
    ensures |r| == |rows|
    ensures forall j :: 0 <= j < |rows| ==> r[j] == RankValue(k, rows[j])
  {
    seq(|rows|, j requires 0 <= j < |rows| => RankValue(k, rows[j]))
  }

  /** A position of the largest of the first `n` keys (the first such position). */
  function ArgMaxPrefix(keys: seq<real>, n: nat): (r: nat)
    requires 0 < n <= |keys|
    ensures r < n
    ensures forall j :: 0 <= j < n ==> keys[j] <= keys[r]
    ensures forall j :: 0 <= j < r ==> keys[j] < keys[r]
  {
    if n == 1 then 0
    else
      var r := ArgMaxPrefix(keys, n - 1);
      if keys[n - 1] > keys[r] then n - 1 else r
  }

  /** `sort_values(key, ascending=False).iloc[0]` on a non-empty table. */
  function Top(rows: seq<Row>, k: Ranking): (r: nat)
    requires rows != []
    ensures r < |rows|
    ensures forall j :: 0 <= j < |rows| ==> RankValue(k, rows[j]) <= RankValue(k, rows[r])
  {
    var keys := RankValues(rows, k);
    var r := ArgMaxPrefix(keys, |keys|);
    assert forall j :: 0 <= j < |rows| ==> keys[j] <= keys[r];
    r
  }

  /** `iloc[0]` of the sorted copy: IndexError on an empty table. */
  function RankedAsWritten(t: Table, k: Ranking): Result<Option<nat>, PyError> {
    if t.rows == [] then Failure(IndexError) else Success(Some(Top(t.rows, k)))
  }

  /**
   * Step 2 as written. Without a Value column the combined score reads
   * `df.get(col, 0)` for Gls and Ast; for the missing one that is the scalar 0,
   * which has no `fillna`, so the step raises AttributeError.
   */
  function SuperlativeStepAsWritten(q: string, t: Table): Result<Option<nat>, PyError> {
    var cols := t.columns;
    if AsksTopScorer(q) && "Gls" in cols then RankedAsWritten(t, ByColumn("Gls"))
    else if AsksMostAssists(q) && "Ast" in cols then RankedAsWritten(t, ByColumn("Ast"))
    else if AsksHighestValue(q) && "Value" in cols then RankedAsWritten(t, ByColumn("Value"))
    else if AsksHighestValue(q) && ("Gls" in cols || "Ast" in cols) then
      if "Gls" in cols && "Ast" in cols then RankedAsWritten(t, GoalsAndAssists)
      else Failure(AttributeError)
    else Success(None)
  }

  /**
   * Step 2 corrected: a missing Gls or Ast counts as 0, as the `get(col, 0)`
   * default intends, and an empty table has no top row.
   */
  function SuperlativeStep(q: string, t: Table): (r: Option<nat>)
    ensures r.Some? ==> r.value < |t.rows|
    ensures AsksTopScorer(q) && "Gls" in t.columns && t.rows != [] ==>
      r.Some? && forall j :: 0 <= j < |t.rows| ==> NumberOrZero(t.rows[j], "Gls") <= NumberOrZero(t.rows[r.value], "Gls")
    ensures !(AsksTopScorer(q) && "Gls" in t.columns) && AsksMostAssists(q) && "Ast" in t.columns && t.rows != [] ==>
      r.Some? && forall j :: 0 <= j < |t.rows| ==> NumberOrZero(t.rows[j], "Ast") <= NumberOrZero(t.rows[r.value], "Ast")
    ensures (!(AsksTopScorer(q) && "Gls" in t.columns) && !(AsksMostAssists(q) && "Ast" in t.columns) &&
             AsksHighestValue(q) && "Value" in t.columns && t.rows != []) ==>
      r.Some? && forall j :: 0 <= j < |t.rows| ==> NumberOrZero(t.rows[j], "Value") <= NumberOrZero(t.rows[r.value], "Value")
    ensures (!(AsksTopScorer(q) && "Gls" in t.columns) && !(AsksMostAssists(q) && "Ast" in t.columns) &&
             AsksHighestValue(q) && "Value" !in t.columns && ("Gls" in t.columns || "Ast" in t.columns) && t.rows != []) ==>
      r.Some? && forall j :: 0 <= j < |t.rows| ==> RankValue(GoalsAndAssists, t.rows[j]) <= RankValue(GoalsAndAssists, t.rows[r.value])
    ensures r.Some? <==> (t.rows != [] && ((AsksTopScorer(q) && "Gls" in t.columns) || (AsksMostAssists(q) && "Ast" in t.columns) ||
                          (AsksHighestValue(q) && ("Value" in t.columns || "Gls" in t.columns || "Ast" in t.columns))))
    ensures SuperlativeStepAsWritten(q, t).Success? ==> r == SuperlativeStepAsWritten(q, t).value
  {
    var cols := t.columns;
    if t.rows == [] then None
    else if AsksTopScorer(q) && "Gls" in cols then Some(Top(t.rows, ByColumn("Gls")))
    else if AsksMostAssists(q) && "Ast" in cols then Some(Top(t.rows, ByColumn("Ast")))
    else if AsksHighestValue(q) && "Value" in cols then Some(Top(t.rows, ByColumn("Value")))
    else if AsksHighestValue(q) && ("Gls" in cols || "Ast" in cols) then Some(Top(t.rows, GoalsAndAssists))
    else None
  }

  // ---------------------------------------------------------------------------
  // The loops of steps 3 and 4 return the first hit of a fixed table of entries

  /** The first present hit from position `k` on. */
  function FirstSome(hits: seq<Option<nat>>, k: nat): Option<nat>
    requires k <= |hits|
    decreases |hits| - k
  {
    if k == |hits| then None
    else if hits[k].Some? then hits[k]
    else FirstSome(hits, k + 1)
  }

  /** A result is the hit at some position from `k` on, and no earlier position has one. */
  lemma {:induction false} FirstSomeIsFirst(hits: seq<Option<nat>>, k: nat)
    requires k <= |hits| && FirstSome(hits, k).Some?
    ensures exists e :: (k <= e < |hits| && hits[e] == FirstSome(hits, k) &&
      forall e' :: k <= e' < e ==> hits[e'].None?)
    decreases |hits| - k
  {
    if hits[k].None? {
      FirstSomeIsFirst(hits, k + 1);
    } else {
      assert hits[k] == FirstSome(hits, k);
    }
  }

  /** No result means no hit from `k` on. */
  lemma {:induction false} FirstSomeNone(hits: seq<Option<nat>>, k: nat)
    requires k <= |hits| && FirstSome(hits, k).None?
    ensures forall e :: k <= e < |hits| ==> hits[e].None?
    decreases |hits| - k
  {
    if k < |hits| {
      FirstSomeNone(hits, k + 1);
    }
  }

  // ---------------------------------------------------------------------------
  // 3) Column keywords, with the comparison `parse_comparison(q)` read from the query

  /**
   * Step 3 for one `word -> col`: when the query holds `word`, first the rows
   * whose numeric `col` satisfies the comparison, then the rows whose `col`
   * contains `word`.
   */
  function KeywordHit(q: string, t: Table, word: string, col: string, cmp: Option<Comparison>): (r: Option<nat>)
    ensures r.Some? ==> Contains(q, word) && col in t.columns && r.value < |t.rows|
    ensures r.Some? ==> ((cmp.Some? && Satisfies(ToNumeric(CellAt(t.rows[r.value], col)), cmp.value)) ||
      Contains(ToLower(Text(t.rows[r.value], col)), ToLower(word)))
    ensures Contains(q, word) && col in t.columns && cmp.Some? && First(t.rows, Compares(col, cmp.value)).Some? ==>
      r == First(t.rows, Compares(col, cmp.value))
    ensures Contains(q, word) && col in t.columns && (cmp.None? || First(t.rows, Compares(col, cmp.value)).None?) ==>
      r == First(t.rows, LowerHas(col, ToLower(word)))
    ensures !Contains(q, word) || col !in t.columns ==> r.None?
  {
    if !Contains(q, word) || col !in t.columns then None
    else
      var numeric := if cmp.Some? then First(t.rows, Compares(col, cmp.value)) else None;
      if numeric.Some? then numeric else First(t.rows, LowerHas(col, ToLower(word)))
  }

  /** The hit of the `e`-th `COLUMN_MAPPING` entry. */
  function KeywordEntryHit(q: string, t: Table, cmp: Option<Comparison>, e: nat): Option<nat>
    requires e < |ColumnMapping|
  {
    KeywordHit(q, t, ColumnMapping[e].0, ColumnMapping[e].1, cmp)
  }

  /** The hits of all `COLUMN_MAPPING` entries, in insertion order. */
  function KeywordHits(q: string, t: Table, cmp: Option<Comparison>): (r: seq<Option<nat>>)
    ensures |r| == |ColumnMapping|
    ensures forall e :: 0 <= e < |r| ==> r[e] == KeywordEntryHit(q, t, cmp, e)
  {
    seq(|ColumnMapping|, e requires 0 <= e < |ColumnMapping| => KeywordEntryHit(q, t, cmp, e))
  }

  /** The loop over `COLUMN_MAPPING` (in insertion order) from entry `k` on. */
  function KeywordsFrom(q: string, t: Table, cmp: Option<Comparison>, k: nat): (r: Option<nat>)
    requires k <= |ColumnMapping|
    ensures r.Some? ==> r.value < |t.rows|
  {
    var hits := KeywordHits(q, t, cmp);
    var r := FirstSome(hits, k);
    if r.None? then r
    else
      FirstSomeIsFirst(hits, k);
      r
  }

  /**
   * Step 3 returns the hit of the first `COLUMN_MAPPING` entry that has one:
   * that entry's word is in the query and its column in the table, and every
   * earlier entry found nothing.
   */
  lemma KeywordsFromFirst(q: string, t: Table, cmp: Option<Comparison>, k: nat)
    requires k <= |ColumnMapping| && KeywordsFrom(q, t, cmp, k).Some?
    ensures exists e :: (k <= e < |ColumnMapping| && KeywordEntryHit(q, t, cmp, e) == KeywordsFrom(q, t, cmp, k) &&
      forall e' :: k <= e' < e ==> KeywordEntryHit(q, t, cmp, e').None?)
  {
    FirstSomeIsFirst(KeywordHits(q, t, cmp), k);
  }

  /** When step 3 finds nothing, no `COLUMN_MAPPING` entry has a hit. */
  lemma KeywordsFromNone(q: string, t: Table, cmp: Option<Comparison>, k: nat)
    requires k <= |ColumnMapping| && KeywordsFrom(q, t, cmp, k).None?
    ensures forall e :: k <= e < |ColumnMapping| ==> KeywordEntryHit(q, t, cmp, e).None?
  {
    FirstSomeNone(KeywordHits(q, t, cmp), k);
  }

  method KeywordStep(q: string, t: Table, cmp: Option<Comparison>) returns (r: Option<nat>)
    ensures r == KeywordsFrom(q, t, cmp, 0)
  {
    var k := 0;
    while k < |ColumnMapping|
      invariant 0 <= k <= |ColumnMapping|
      invariant KeywordsFrom(q, t, cmp, 0) == KeywordsFrom(q, t, cmp, k)
    {
      r := KeywordEntryHit(q, t, cmp, k);
      if r.Some? {
        return;
      }
      k := k + 1;
    }
    return None;
  }

  // ---------------------------------------------------------------------------
  // 4) Position synonyms

  /** Step 4 for one `word -> code`: the first row whose upper-cased Pos is `code`. */
  function PositionHit(q: string, t: Table, word: string, code: string): (r: Option<nat>)
    ensures r.Some? ==> Contains(q, word) && r.value < |t.rows| && ToUpper(Text(t.rows[r.value], "Pos")) == code
    ensures r.Some? ==> forall j :: 0 <= j < r.value ==> ToUpper(Text(t.rows[j], "Pos")) != code
    ensures Contains(q, word) && "Pos" in t.columns && r.None? ==>
      forall j :: 0 <= j < |t.rows| ==> ToUpper(Text(t.rows[j], "Pos")) != code
  {
    if Contains(q, word) && "Pos" in t.columns then First(t.rows, UpperIs("Pos", code)) else None
  }

  /** The hit of the `e`-th `POSITION_SYNONYMS` entry. */
  function PositionEntryHit(q: string, t: Table, e: nat): Option<nat>
    requires e < |PositionSynonyms|
  {
    PositionHit(q, t, PositionSynonyms[e].0, PositionSynonyms[e].1)
  }

  /** The hits of all `POSITION_SYNONYMS` entries, in insertion order. */
  function PositionHits(q: string, t: Table): (r: seq<Option<nat>>)
    ensures |r| == |PositionSynonyms|
    ensures forall e :: 0 <= e < |r| ==> r[e] == PositionEntryHit(q, t, e)
  {
    seq(|PositionSynonyms|, e requires 0 <= e < |PositionSynonyms| => PositionEntryHit(q, t, e))
  }

  /** The loop over `POSITION_SYNONYMS` (in insertion order) from entry `k` on. */
  function PositionsFrom(q: string, t: Table, k: nat): (r: Option<nat>)
    requires k <= |PositionSynonyms|
    ensures r.Some? ==> r.value < |t.rows|
  {
    var hits := PositionHits(q, t);
    var r := FirstSome(hits, k);
    if r.None? then r
    else
      FirstSomeIsFirst(hits, k);
      r
  }

  /**
   * Step 4 returns the hit of the first `POSITION_SYNONYMS` entry that has
   * one (the first row whose upper-cased Pos is that entry's code); every
   * earlier entry found nothing.
   */
  lemma PositionsFromFirst(q: string, t: Table, k: nat)
    requires k <= |PositionSynonyms| && PositionsFrom(q, t, k).Some?
    ensures exists e :: (k <= e < |PositionSynonyms| && PositionEntryHit(q, t, e) == PositionsFrom(q, t, k) &&
      forall e' :: k <= e' < e ==> PositionEntryHit(q, t, e').None?)
  {
    FirstSomeIsFirst(PositionHits(q, t), k);
  }

  /** When step 4 finds nothing, no `POSITION_SYNONYMS` entry has a hit. */
  lemma PositionsFromNone(q: string, t: Table, k: nat)
    requires k <= |PositionSynonyms| && PositionsFrom(q, t, k).None?
    ensures forall e :: k <= e < |PositionSynonyms| ==> PositionEntryHit(q, t, e).None?
  {
    FirstSomeNone(PositionHits(q, t), k);
  }

  method PositionStep(q: string, t: Table) returns (r: Option<nat>)
    ensures r == PositionsFrom(q, t, 0)
  {
    var k := 0;
    while k < |PositionSynonyms|
      invariant 0 <= k <= |PositionSynonyms|
      invariant PositionsFrom(q, t, 0) == PositionsFrom(q, t, k)
    {
      r := PositionEntryHit(q, t, k);
      if r.Some? {
        return;
      }
      k := k + 1;
    }
    return None;
  }

  // ---------------------------------------------------------------------------
  // 5) Fuzzy match on Squad, Nation and Pos

  const FuzzyColumns: seq<string> := ["Squad", "Nation", "Pos"]

  /** Step 5 for one column, as written. */
  function FuzzyColumnHitAsWritten(q: string, t: Table, col: string, sim: Similarity): Result<Option<nat>, PyError> {
    if col !in t.columns then Success(None)
    else
      match Candidate(t, col, q, Threshold, sim)
      case None => Success(None)
      case Some(best) =>
        match LookupAsWritten(t, col, best)
        case Success(i) => Success(Some(i))
        case Failure(e) => Failure(e)
  }

  /** Step 5 for one column, with the corrected lookup: a value that passes the fuzzy test always yields its row. */
  function FuzzyColumnHit(q: string, t: Table, col: string, sim: Similarity): (r: Option<nat>)
    ensures r.Some? ==> col in t.columns && r.value < |t.rows|
    ensures FuzzyColumnHitAsWritten(q, t, col, sim).Success? ==> r == FuzzyColumnHitAsWritten(q, t, col, sim).value
  {
    if col !in t.columns then None
    else
      match Candidate(t, col, q, Threshold, sim)
      case None => None
      case Some(best) => Lookup(t, col, best)
  }

  /** A value passing the fuzzy test yields a row, and that row holds a value scoring at least 0.7 against the query. */
  lemma FuzzyColumnHitScores(q: string, t: Table, col: string, sim: Similarity)
    ensures col in t.columns && Candidate(t, col, q, Threshold, sim).Some? ==> FuzzyColumnHit(q, t, col, sim).Some?
    ensures FuzzyColumnHit(q, t, col, sim).Some? ==>
      Threshold <= sim(Normalize(q), Normalize(Text(t.rows[FuzzyColumnHit(q, t, col, sim).value], col)))
  {
    if col !in t.columns || Candidate(t, col, q, Threshold, sim).None? {
      return;
    }
    var best := Candidate(t, col, q, Threshold, sim).value;
    CandidateScores(t, col, q, Threshold, sim);
    LookupFindsBest(t, col, best);
    assert ScoreAgainst(Normalize(q), sim)(best) == sim(Normalize(q), Normalize(best));
  }

  /** The loop over Squad, Nation and Pos from column `k` on. */
  function FuzzyFrom(q: string, t: Table, sim: Similarity, k: nat): (r: Option<nat>)
    requires k <= |FuzzyColumns|
    ensures r.Some? ==> r.value < |t.rows|
    decreases |FuzzyColumns| - k
  {
    if k == |FuzzyColumns| then None
    else
      var hit := FuzzyColumnHit(q, t, FuzzyColumns[k], sim);
      if hit.Some? then hit else FuzzyFrom(q, t, sim, k + 1)
  }

  function FuzzyFromAsWritten(q: string, t: Table, sim: Similarity, k: nat): Result<Option<nat>, PyError>
    requires k <= |FuzzyColumns|
    decreases |FuzzyColumns| - k
  {
    if k == |FuzzyColumns| then Success(None)
    else
      match FuzzyColumnHitAsWritten(q, t, FuzzyColumns[k], sim)
      case Success(None) => FuzzyFromAsWritten(q, t, sim, k + 1)
      case other => other
  }

  lemma {:induction false} FuzzyFromAgrees(q: string, t: Table, sim: Similarity, k: nat)
    requires k <= |FuzzyColumns| && FuzzyFromAsWritten(q, t, sim, k).Success?
    ensures FuzzyFromAsWritten(q, t, sim, k).value == FuzzyFrom(q, t, sim, k)
    decreases |FuzzyColumns| - k
  {
    if k < |FuzzyColumns| && FuzzyColumnHitAsWritten(q, t, FuzzyColumns[k], sim) == Success(None) {
      FuzzyFromAgrees(q, t, sim, k + 1);
    }
  }

  method FuzzyColumnsStep(q: string, t: Table, sim: Similarity) returns (r: Option<nat>)
    ensures r == FuzzyFrom(q, t, sim, 0)
  {
    var k := 0;
    while k < |FuzzyColumns|
      invariant 0 <= k <= |FuzzyColumns|
      invariant FuzzyFrom(q, t, sim, 0) == FuzzyFrom(q, t, sim, k)
    {
      r := FuzzyColumnHit(q, t, FuzzyColumns[k], sim);
      if r.Some? {
        return;
      }
      k := k + 1;
    }
    return None;
  }

  // ---------------------------------------------------------------------------
  // 6) Any column containing the query

  /** Step 6 for one column: the first row whose lower-cased text contains the query. */
  function AnyColumnHit(q: string, t: Table, col: string): (r: Option<nat>)
    ensures r.Some? ==> r.value < |t.rows| && Contains(ToLower(Text(t.rows[r.value], col)), q)
    ensures r.Some? ==> forall j :: 0 <= j < r.value ==> !Contains(ToLower(Text(t.rows[j], col)), q)
    ensures r.None? ==> forall j :: 0 <= j < |t.rows| ==> !Contains(ToLower(Text(t.rows[j], col)), q)
  {
    First(t.rows, LowerHas(col, q))
  }

  /** The loop over the table's columns, in order, from column `k` on. */
  function AnyFrom(q: string, t: Table, k: nat): (r: Option<nat>)
    requires k <= |t.columns|
    ensures r.Some? ==> (r.value < |t.rows| &&
      exists c :: k <= c < |t.columns| && Contains(ToLower(Text(t.rows[r.value], t.columns[c])), q))
    ensures r.None? ==> forall c, j :: k <= c < |t.columns| && 0 <= j < |t.rows| ==>
      !Contains(ToLower(Text(t.rows[j], t.columns[c])), q)
    decreases |t.columns| - k
  {
    if k == |t.columns| then None
    else
      var hit := AnyColumnHit(q, t, t.columns[k]);
      if hit.Some? then hit else AnyFrom(q, t, k + 1)
  }

  /**
   * Step 6 returns the first matching row of the first column, in column
   * order, that has any matching row.
   */
  lemma {:induction false} AnyFromFirstColumn(q: string, t: Table, k: nat)
    requires k <= |t.columns| && AnyFrom(q, t, k).Some?
    ensures exists c :: (k <= c < |t.columns| && AnyFrom(q, t, k) == AnyColumnHit(q, t, t.columns[c]) &&
      forall c' :: k <= c' < c ==> AnyColumnHit(q, t, t.columns[c']).None?)
    decreases |t.columns| - k
  {
    if AnyColumnHit(q, t, t.columns[k]).None? {
      AnyFromFirstColumn(q, t, k + 1);
    } else {
      assert AnyFrom(q, t, k) == AnyColumnHit(q, t, t.columns[k]);
    }
  }

  method AnyColumnStep(q: string, t: Table) returns (r: Option<nat>)
    ensures r == AnyFrom(q, t, 0)
  {
    var k := 0;
    while k < |t.columns|
      invariant 0 <= k <= |t.columns|
      invariant AnyFrom(q, t, 0) == AnyFrom(q, t, k)
    {
      r := AnyColumnHit(q, t, t.columns[k]);
      if r.Some? {
        return;
      }
      k := k + 1;
    }
    return None;
  }

  // ---------------------------------------------------------------------------
  // smart_search

  function OrElse(a: Option<nat>, b: Option<nat>): Option<nat> {
    if a.Some? then a else b
  }

  /** Runs `b` only when `a` returned without a row. */
  function Then(a: Result<Option<nat>, PyError>, b: Result<Option<nat>, PyError>): Result<Option<nat>, PyError> {
    if a == Success(None) then b else a
  }

  /** Steps 3 to 6, which the source and the corrected cascade share but for step 5's lookup. */
  function LaterSteps(q: string, t: Table, sim: Similarity): (r: Option<nat>)
    ensures r.Some? ==> r.value < |t.rows|
  {
    OrElse(KeywordsFrom(q, t, ParseComparison(q), 0),
    OrElse(PositionsFrom(q, t, 0),
    OrElse(FuzzyFrom(q, t, sim, 0),
           AnyFrom(q, t, 0))))
  }

  function LaterStepsAsWritten(q: string, t: Table, sim: Similarity): Result<Option<nat>, PyError> {
    Then(Success(KeywordsFrom(q, t, ParseComparison(q), 0)),
    Then(Success(PositionsFrom(q, t, 0)),
    Then(FuzzyFromAsWritten(q, t, sim, 0),
         Success(AnyFrom(q, t, 0)))))
  }

  /** The cascade on a normalised query, with the three corrections. */
  function Cascade(q: string, t: Table, sim: Similarity): (r: Option<nat>)
    ensures r.Some? ==> r.value < |t.rows|
  {
    OrElse(NameStep(t, q, Threshold, sim), OrElse(SuperlativeStep(q, t), LaterSteps(q, t, sim)))
  }

  /** `smart_search(query, df)`: `None` for a `None` query, else the cascade on `normalize_text(query)`. */
  function SmartSearchSpec(query: Option<string>, t: Table, sim: Similarity): (r: Option<nat>)
    ensures query.None? ==> r.None?
    ensures r.Some? ==> r.value < |t.rows|
  {
    match query
    case None => None
    case Some(s) => Cascade(Normalize(s), t, sim)
  }

  /** `smart_search` exactly as written; `Failure` is the exception that escapes. */
  function SmartSearchAsWritten(query: Option<string>, t: Table, sim: Similarity): Result<Option<nat>, PyError> {
    match query
    case None => Success(None)
    case Some(s) =>
      var q := Normalize(s);
      Then(NameStepAsWritten(t, q, Threshold, sim),
      Then(SuperlativeStepAsWritten(q, t), LaterStepsAsWritten(q, t, sim)))
  }

  /** `_match_player_by_name(df, q, threshold)` with the corrected lookup. */
  method MatchPlayerByName(t: Table, q: string, threshold: real, sim: Similarity) returns (r: Option<nat>)
    ensures r == NameStep(t, q, threshold, sim)
  {
    if "Player" !in t.columns {
      return None;
    }
    var qn := Normalize(q);
    r := First(t.rows, LowerIs("Player", qn));
    if r.Some? {
      return;
    }
    var best, score := FuzzyChoice(qn, ColumnTexts(t, "Player"), sim);
    if best.Some? && best.value != [] && score >= threshold {
      assert Candidate(t, "Player", qn, threshold, sim) == best;
      r := Lookup(t, "Player", best.value);
    } else {
      assert Candidate(t, "Player", qn, threshold, sim) == None;
    }
  }

  /** `smart_search(query, df)`, returning the position of the row it picks. */
  method SmartSearch(query: Option<string>, t: Table, sim: Similarity) returns (r: Option<nat>)
    ensures r == SmartSearchSpec(query, t, sim)
  {
    if query.None? {
      return None;
    }
    var q := Normalize(query.value);
    r := MatchPlayerByName(t, q, Threshold, sim);
    if r.Some? {
      return;
    }
    r := SuperlativeStep(q, t);
    if r.Some? {
      return;
    }
    r := KeywordStep(q, t, ParseComparison(q));
    if r.Some? {
      return;
    }
    r := PositionStep(q, t);
    if r.Some? {
      return;
    }
    r := FuzzyColumnsStep(q, t, sim);
    if r.Some? {
      return;
    }
    r := AnyColumnStep(q, t);
  }

  // ---------------------------------------------------------------------------
  // Properties of the cascade

  /** An exact (case-insensitive) player name wins over every other rule: the first such row is returned. */
  lemma ExactNameWins(query: string, t: Table, sim: Similarity, i: nat)
    requires "Player" in t.columns && i < |t.rows|
    requires ToLower(Text(t.rows[i], "Player")) == Normalize(query)
    requires forall j :: 0 <= j < i ==> ToLower(Text(t.rows[j], "Player")) != Normalize(query)
    ensures SmartSearchSpec(Some(query), t, sim) == Some(i)
  {
    NormalizeIdempotent(query);
    var r := First(t.rows, LowerIs("Player", Normalize(Normalize(query))));
    assert Holds(LowerIs("Player", Normalize(Normalize(query))), t.rows[i]);
    assert r.Some? && r.value == i;
  }

  /** When no name matches, "top scorer" on a table with goals picks a row with the most goals. */
  lemma TopScorerHasMostGoals(query: string, t: Table, sim: Similarity)
    requires NameStep(t, Normalize(query), Threshold, sim).None?
    requires AsksTopScorer(Normalize(query)) && "Gls" in t.columns && t.rows != []
    ensures SmartSearchSpec(Some(query), t, sim).Some?
    ensures var i := SmartSearchSpec(Some(query), t, sim).value;
      forall j :: 0 <= j < |t.rows| ==> NumberOrZero(t.rows[j], "Gls") <= NumberOrZero(t.rows[i], "Gls")
  {
  }

  lemma ThenAgrees(a: Result<Option<nat>, PyError>, a': Option<nat>, b: Result<Option<nat>, PyError>, b': Option<nat>)
    requires Then(a, b).Success?
    requires a.Success? ==> a.value == a'
    requires b.Success? ==> b.value == b'
    ensures Then(a, b).value == OrElse(a', b')
  {
  }

  lemma LaterStepsAgree(q: string, t: Table, sim: Similarity)
    requires LaterStepsAsWritten(q, t, sim).Success?
    ensures LaterStepsAsWritten(q, t, sim).value == LaterSteps(q, t, sim)
  {
    var fuzzyW := FuzzyFromAsWritten(q, t, sim, 0);
    if fuzzyW.Success? {
      FuzzyFromAgrees(q, t, sim, 0);
    }
  }

  /** Wherever `smart_search` as written returns, the corrected cascade returns the same row. */
  lemma SmartSearchAgrees(query: Option<string>, t: Table, sim: Similarity)
    requires SmartSearchAsWritten(query, t, sim).Success?
    ensures SmartSearchAsWritten(query, t, sim).value == SmartSearchSpec(query, t, sim)
  {
    if query.Some? {
      var q := Normalize(query.value);
      var later := LaterStepsAsWritten(q, t, sim);
      var tail := Then(SuperlativeStepAsWritten(q, t), later);
      if later.Success? {
        LaterStepsAgree(q, t, sim);
      }
      if tail.Success? {
        ThenAgrees(SuperlativeStepAsWritten(q, t), SuperlativeStep(q, t), later, LaterSteps(q, t, sim));
      }
      ThenAgrees(NameStepAsWritten(t, q, Threshold, sim), NameStep(t, q, Threshold, sim), tail,
        OrElse(SuperlativeStep(q, t), LaterSteps(q, t, sim)));
    }
  }

  // ---------------------------------------------------------------------------
  // The inputs on which the source raises

  /** A normalised name followed by one space normalises back to the name. */
  lemma TrailingSpaceNormalizes(n: string)
    requires IsNormalized(n) && n != []
    ensures Normalize(n + " ") == n
  {
    var s := n + " ";
    assert s[..|n|] == n;
    assert s[|n| - 1] == n[|n| - 1];
    assert TrimStart(s) == s;
    var e := TrimEnd(s);
    assert |e| == |n|;
    assert TrimStart(n) == n;
    assert TrimEnd(n) == n;
    NormalizeKeepsNormalized(n);
  }

  /** A one-row table whose only cell, in column `col`, is the name `n` followed by a space. */
  function PaddedTable(col: string, n: string): Table {
    Table([col], [map[col := Str(n + " ")]])
  }

  /** On that table no cell equals the name exactly, and the fuzzy test offers the padded cell. */
  lemma TrailingSpaceCandidate(col: string, n: string, sim: Similarity)
    requires IsNormalized(n) && n != []
    requires forall a :: sim(a, a) == 1.0
    ensures First(PaddedTable(col, n).rows, LowerIs(col, n)) == None
    ensures Candidate(PaddedTable(col, n), col, n, Threshold, sim) == Some(n + " ")
    ensures LookupAsWritten(PaddedTable(col, n), col, n + " ") == Failure(IndexError)
  {
    var t := PaddedTable(col, n);
    NormalizeKeepsNormalized(n);
    TrailingSpaceNormalizes(n);
    assert Text(t.rows[0], col) == n + " ";
    assert |ToLower(n + " ")| != |n|;
    var texts := ColumnTexts(t, col);
    assert texts == [Some(n + " ")];
    assert ScoreAgainst(n, sim)(n + " ") == 1.0;
    assert FuzzyBest(n, texts, sim) == Picked(n + " ", 0, 1.0);
  }

  /**
   * A Player cell with a trailing space, queried by its exact name: the fuzzy
   * step picks it with score 1, the lookup compares "name " with "name" and
   * `iloc[0]` raises IndexError. The corrected step returns that row.
   */
  lemma TrailingSpaceNameRaises(n: string, sim: Similarity)
    requires IsNormalized(n) && n != []
    requires forall a :: sim(a, a) == 1.0
    ensures NameStepAsWritten(PaddedTable("Player", n), n, Threshold, sim) == Failure(IndexError)
    ensures NameStep(PaddedTable("Player", n), n, Threshold, sim) == Some(0)
  {
    var t := PaddedTable("Player", n);
    NormalizeKeepsNormalized(n);
    TrailingSpaceCandidate("Player", n, sim);
    assert Holds(TextIs("Player", n + " "), t.rows[0]);
  }

  /** The same lookup in step 5: a Squad cell with a trailing space raises IndexError; corrected, it is found. */
  lemma TrailingSpaceSquadRaises(n: string, sim: Similarity)
    requires IsNormalized(n) && n != []
    requires forall a :: sim(a, a) == 1.0
    ensures FuzzyColumnHitAsWritten(n, PaddedTable("Squad", n), "Squad", sim) == Failure(IndexError)
    ensures FuzzyColumnHit(n, PaddedTable("Squad", n), "Squad", sim) == Some(0)
  {
    var t := PaddedTable("Squad", n);
    TrailingSpaceCandidate("Squad", n, sim);
    assert "Squad" in t.columns;
    assert Holds(TextIs("Squad", n + " "), t.rows[0]);
    assert Lookup(t, "Squad", n + " ") == Some(0);
  }

  /** The phrase "highest value" asks for the highest value. */
  lemma HighestValueAsked()
    ensures AsksHighestValue("highest value")
  {
    StartsWithContains("highest value", "highest value");
  }

  /** ... and, lacking 'p', 'm' and 'o', for neither the top scorer nor the most assists. */
  lemma HighestValueAsksNothingElse()
    ensures !AsksTopScorer("highest value") && !AsksMostAssists("highest value")
  {
    var q := "highest value";
    assert 'p' !in q && 'm' !in q && 'o' !in q;
    AbsentCharBlocks(q, "top scorer", 2);
    AbsentCharBlocks(q, "top scorers", 2);
    AbsentCharBlocks(q, "most goals", 0);
    AbsentCharBlocks(q, "highest goals", 9);
    AbsentCharBlocks(q, "most assists", 0);
    AbsentCharBlocks(q, "top assist", 2);
  }

  /**
   * "highest value" on a table with goals but neither assists nor values:
   * the source raises AttributeError, the corrected step ranks by goals alone.
   */
  lemma HighestValueWithoutAssistsRaises(t: Table)
    requires t.columns == ["Player", "Gls"] && WellFormed(t) && t.rows != []
    ensures SuperlativeStepAsWritten("highest value", t) == Failure(AttributeError)
    ensures SuperlativeStep("highest value", t) == Some(Top(t.rows, GoalsAndAssists))
    ensures forall j :: 0 <= j < |t.rows| ==>
      NumberOrZero(t.rows[j], "Gls") <= NumberOrZero(t.rows[Top(t.rows, GoalsAndAssists)], "Gls")
  {
    HighestValueAsked();
    HighestValueAsksNothingElse();
    assert "Ast" !in t.columns && "Value" !in t.columns && "Gls" in t.columns;
    var top := Top(t.rows, GoalsAndAssists);
    forall j | 0 <= j < |t.rows|
      ensures NumberOrZero(t.rows[j], "Gls") <= NumberOrZero(t.rows[top], "Gls")
    {
      assert "Ast" !in t.rows[j] && "Ast" !in t.rows[top];
      assert RankValue(GoalsAndAssists, t.rows[j]) <= RankValue(GoalsAndAssists, t.rows[top]);
    }
  }

  /** "top scorer" on an empty table with a Gls column: `iloc[0]` raises IndexError; corrected, no row. */
  lemma TopScorerOnEmptyTableRaises(q: string, cols: seq<string>)
    requires AsksTopScorer(q) && "Gls" in cols
    ensures SuperlativeStepAsWritten(q, Table(cols, [])) == Failure(IndexError)
    ensures SuperlativeStep(q, Table(cols, [])) == None
  {
  }
}
