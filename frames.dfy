/**
 * The slice of pandas and of Python's scalar conversions that the search,
 * training and prediction code rely on: a table of rows keyed by column name,
 * cells that are text, numbers, NaN or None, `astype(str)`, `float()`,
 * `int()` and `pd.to_numeric(..., errors='coerce')`.
 */
module Frames {
  import opened Wrappers
  import opened Utils

  /**
   * One cell of a DataFrame. `Num` carries the number and the text pandas
   * prints for it (`astype(str)`), `Missing` is NaN (also what `concat` puts in
   * a column a source lacks) and `NoneValue` is Python's `None`.
   */
  datatype Cell = Str(s: string) | Num(value: real, text: string) | Missing | NoneValue

  /** The Python exceptions the modelled code can let escape. */
  datatype PyError = KeyError | TypeError | ValueError | IndexError | AttributeError

  /** `pd.isna`: NaN and None. */
  predicate IsNA(c: Cell) {
    c.Missing? || c.NoneValue?
  }

  /** One row (a pandas Series indexed by column name). */
  type Row = map<string, Cell>

  /** A DataFrame: the column order and the rows in index order. */
  datatype Table = Table(columns: seq<string>, rows: seq<Row>)

  /** Every row holds exactly the table's columns. */
  predicate WellFormed(t: Table) {
    forall i :: 0 <= i < |t.rows| ==> t.rows[i].Keys == set c | c in t.columns
  }

  /** `row.get(key, default)`. */
  function Get(row: Row, key: string, default: Cell): (r: Cell)
    ensures key !in row ==> r == default
    ensures key in row ==> r == row[key]
  {
    if key in row then row[key] else default
  }

  /** The cell of a column in a row of a table (a column a row lacks reads as NaN). */
  function CellAt(row: Row, col: string): Cell {
    Get(row, col, Missing)
  }

  /** `str(cell)`, i.e. what `astype(str)` makes of one cell. */
  function ToText(c: Cell): string {
    match c
    case Str(s) => s
    case Num(_, text) => text
    case Missing => "nan"
    case NoneValue => "None"
  }

  /** `df[col].astype(str)` at one row. */
  function Text(row: Row, col: string): string {
    ToText(CellAt(row, col))
  }

  // ---------------------------------------------------------------------------
  // Numbers written as text

  function Pow10(n: nat): (r: nat)
    ensures r >= 1
  {
    if n == 0 then 1 else 10 * Pow10(n - 1)
  }

  /** The index of the first '.', or `|t|` when there is none. */
  function DotIndex(t: string): (i: nat)
    ensures i <= |t|
    ensures i < |t| ==> t[i] == '.'
    ensures forall j :: 0 <= j < i ==> t[j] != '.'
    decreases |t|
  {
    if t == [] then 0 else if t[0] == '.' then 0 else 1 + DotIndex(t[1..])
  }

  /** An optional leading sign: whether it is '-', and the text after it. */
  function SplitSign(t: string): (r: (bool, string))
    ensures r.1 == (if t != [] && (t[0] == '-' || t[0] == '+') then t[1..] else t)
    ensures r.0 <==> t != [] && t[0] == '-'
  {
    if t != [] && t[0] == '-' then (true, t[1..])
    else if t != [] && t[0] == '+' then (false, t[1..])
    else (false, t)
  }

  /** Digits with at most one decimal point and at least one digit: "12", "1.5", "5.", ".5". */
  function ParseUnsigned(t: string): (r: Option<real>)
    ensures r.Some? ==> r.value >= 0.0
  {
    var i := DotIndex(t);
    var whole := t[..i];
    var frac := if i < |t| then t[i + 1..] else [];
    if AllDigits(whole) && AllDigits(frac) && (whole != [] || frac != []) then
      Some(DigitsValue(whole) as real + DigitsValue(frac) as real / Pow10(|frac|) as real)
    else None
  }

  /** The text `int()` and `float()` read: `s` stripped, without its sign. */
  function Body(s: string): string {
    SplitSign(Strip(s)).1
  }

  /** `float(s)` on a string, `None` standing for the ValueError it raises. */
  function ParseFloat(s: string): (r: Option<real>)
    ensures r.Some? ==> HasDigit(s)
  {
    match ParseUnsigned(Body(s))
    case None => None
    case Some(v) =>
      FloatTextHasDigit(s);
      Some(if SplitSign(Strip(s)).0 then -v else v)
  }

  /** `int(s)` on a string, `None` standing for the ValueError it raises. */
  function ParseInt(s: string): (r: Option<int>)
    ensures r.Some? ==> forall i :: 0 <= i < |s| ==>
      IsSpace(s[i]) || IsDigit(s[i]) || s[i] == '+' || s[i] == '-'
  {
    var body := Body(s);
    if body != [] && AllDigits(body) then
      IntegerTextChars(s);
      var n: int := DigitsValue(body);
      Some(if SplitSign(Strip(s)).0 then -n else n)
    else None
  }

  lemma UnsignedHasDigit(t: string)
    requires ParseUnsigned(t).Some?
    ensures exists j :: 0 <= j < |t| && IsDigit(t[j])
  {
    var i := DotIndex(t);
    if i > 0 {
      assert t[..i][0] == t[0];
    } else {
      assert t[i + 1..][0] == t[i + 1];
    }
  }

  /** Every character of the stripped text is a sign or a character of the body. */
  lemma StrippedChars(s: string)
    ensures forall k :: 0 <= k < |Strip(s)| ==>
      Strip(s)[k] == '+' || Strip(s)[k] == '-' || Strip(s)[k] in Body(s)
  {
    var t, b := Strip(s), Body(s);
    forall k | 0 <= k < |t| ensures t[k] == '+' || t[k] == '-' || t[k] in b {
      if k >= |t| - |b| {
        assert t[k] == b[k - (|t| - |b|)];
      }
    }
  }

  lemma FloatTextHasDigit(s: string)
    requires ParseUnsigned(Body(s)).Some?
    ensures HasDigit(s)
  {
    UnsignedHasDigit(Body(s));
    var j :| 0 <= j < |Body(s)| && IsDigit(Body(s)[j]);
    BodyDigitInText(s, j);
  }

  lemma BodyDigitInText(s: string, j: nat)
    requires j < |Body(s)| && IsDigit(Body(s)[j])
    ensures HasDigit(s)
  {
    var t := Strip(s);
    BodyInStripped(t);
    var i := VisibleCharIn(s, t, Body(s)[j]);
    HasDigitAt(s, i);
  }

  /** The text after the sign is part of the text. */
  lemma BodyInStripped(t: string)
    ensures forall j :: 0 <= j < |SplitSign(t).1| ==> SplitSign(t).1[j] in t
  {
    var b := SplitSign(t).1;
    forall j | 0 <= j < |b| ensures b[j] in t {
      assert b[j] == t[|t| - |b| + j];
    }
  }

  /** A character that is not whitespace and survives `strip` is a character of the input. */
  lemma VisibleCharIn(s: string, t: string, c: char) returns (i: nat)
    requires Squeeze(t) == Squeeze(s) && c in t && !IsSpace(c)
    ensures i < |s| && s[i] == c
  {
    SqueezeKeepsVisible(t);
    SqueezeOnlyFrom(s);
    var k :| 0 <= k < |t| && t[k] == c;
    assert c in Squeeze(s);
    i :| 0 <= i < |s| && s[i] == c;
  }

  lemma IntegerTextChars(s: string)
    requires AllDigits(Body(s))
    ensures forall i :: 0 <= i < |s| ==> IsSpace(s[i]) || IsDigit(s[i]) || s[i] == '+' || s[i] == '-'
  {
    var t, b := Strip(s), Body(s);
    StrippedChars(s);
    SqueezeOnlyFrom(t);
    SqueezeKeepsVisible(s);
    forall i | 0 <= i < |s| && !IsSpace(s[i]) ensures IsDigit(s[i]) || s[i] == '+' || s[i] == '-' {
      assert s[i] in Squeeze(t);
      assert s[i] in t;
    }
  }

  lemma HasDigitAt(s: string, i: nat)
    requires i < |s| && IsDigit(s[i])
    ensures HasDigit(s)
    decreases i
  {
    if i > 0 {
      HasDigitAt(s[1..], i - 1);
    }
  }

  /** Text without surrounding whitespace is left alone by `strip`. */
  lemma StripUnspaced(d: string)
    requires d != [] && !IsSpace(d[0]) && !IsSpace(d[|d| - 1])
    ensures Strip(d) == d
  {
    assert TrimStart(d) == d;
    assert TrimEnd(d) == d;
  }

  lemma UnsignedDigits(d: string)
    requires d != [] && AllDigits(d)
    ensures ParseUnsigned(d) == Some(DigitsValue(d) as real)
  {
    assert DotIndex(d) == |d|;
    assert d[..|d|] == d;
  }

  /** A plain run of digits reads as the same number under `int()` and `float()`. */
  lemma DigitsParse(d: string)
    requires d != [] && AllDigits(d)
    ensures ParseInt(d) == Some(DigitsValue(d) as int)
    ensures ParseFloat(d) == Some(DigitsValue(d) as real)
  {
    StripUnspaced(d);
    assert Body(d) == d;
    UnsignedDigits(d);
  }

  /** Whatever `int()` accepts, `float()` accepts too, with the same value. */
  lemma IntTextParsesAsFloat(s: string)
    requires ParseInt(s).Some?
    ensures ParseFloat(s) == Some(ParseInt(s).value as real)
  {
    var body := Body(s);
    assert DotIndex(body) == |body|;
    assert body[..|body|] == body;
  }

  /** Text with a decimal point is never an integer for `int()`: "3.0" raises. */
  lemma DecimalPointIsNotInt(s: string, i: nat)
    requires i < |s| && s[i] == '.'
    ensures ParseInt(s).None?
  {
  }

  /** `pd.to_numeric(cell, errors='coerce')`; `None` is the NaN that coercion yields. */
  function ToNumeric(c: Cell): (r: Option<real>)
    ensures IsNA(c) ==> r.None?
    ensures c.Num? ==> r == Some(c.value)
  {
    match c
    case Num(v, _) => Some(v)
    case Str(s) => ParseFloat(s)
    case _ => None
  }

  /** Python's `int(x)` on a float: rounds toward zero. */
  function Trunc(x: real): (r: int)
    ensures 0.0 <= x ==> 0 <= r && r as real <= x < r as real + 1.0
    ensures x < 0.0 ==> r <= 0 && r as real - 1.0 < x <= r as real
  {
    if x >= 0.0 then x.Floor else -((-x).Floor)
  }
}
