/**
 * `is_active` of src/status_check.py: a player is active when `int()` of the
 * MP cell (0 when the row has no MP) is positive. The ValueError `int()`
 * raises on NaN or on text that is not an integer is caught and means
 * inactive; the TypeError it raises on None is not caught.
 */
module StatusCheck {
  import opened Wrappers
  import opened Utils
  import opened Frames
  import UtilsExamples

  /** `int(player_row.get('MP', 0)) > 0`, with ValueError read as False. */
  function IsActive(row: Row): (r: Result<bool, PyError>)
    ensures r.Failure? <==> "MP" in row && row["MP"] == NoneValue
    ensures r.Failure? ==> r.error == TypeError
    ensures "MP" !in row ==> r == Success(false)
    ensures "MP" in row && row["MP"] == Missing ==> r == Success(false)
    ensures "MP" in row && row["MP"].Num? ==> (r == Success(true) <==> row["MP"].value >= 1.0)
    ensures r == Success(true) ==> ToNumeric(CellAt(row, "MP")).Some? && ToNumeric(CellAt(row, "MP")).value >= 1.0
  {
    match Get(row, "MP", Num(0.0, "0"))
    case NoneValue => Failure(TypeError)
    case Missing => Success(false)
    case Num(v, _) => Success(Trunc(v) > 0)
    case Str(s) =>
      match ParseInt(s)
      case None => Success(false)
      case Some(n) =>
        IntTextParsesAsFloat(s);
        Success(n > 0)
  }

  /** The row holding only the MP cell `c`. */
  function MatchesRow(c: Cell): Row {
    map["MP" := c]
  }

  /** `int("-" + d)` is minus the number the digits spell. */
  lemma NegativeDigitsParse(d: string)
    requires d != [] && AllDigits(d)
    ensures ParseInt("-" + d) == Some(-(DigitsValue(d) as int))
  {
    var s := "-" + d;
    assert s[|s| - 1] == d[|d| - 1];
    StripUnspaced(s);
    assert s[1..] == d;
    assert Body(s) == d;
  }

  /** MP written as digits is active exactly when the number is positive. */
  lemma DigitsActivity(d: string)
    requires d != [] && AllDigits(d)
    ensures IsActive(MatchesRow(Str(d))) == Success(DigitsValue(d) > 0)
  {
    DigitsParse(d);
  }

  /** MP written as a minus sign and digits ("-3", "-0") is never active. */
  lemma NegativeInactive(d: string)
    requires d != [] && AllDigits(d)
    ensures IsActive(MatchesRow(Str("-" + d))) == Success(false)
  {
    NegativeDigitsParse(d);
  }

  /** Text without any digit ("abc", "Unknown") makes `int()` raise ValueError: inactive. */
  lemma TextWithoutDigitInactive(s: string)
    requires !HasDigit(s)
    ensures IsActive(MatchesRow(Str(s))) == Success(false)
  {
    if ParseInt(s).Some? {
      IntTextParsesAsFloat(s);
    }
  }

  /** "Unknown", which the combined table uses for a missing cell, is inactive. */
  lemma UnknownInactive()
    ensures IsActive(MatchesRow(Str("Unknown"))) == Success(false)
  {
    var s := "Unknown";
    assert UtilsExamples.DigitFree(s) by {
      assert s == ['U', 'n', 'k', 'n', 'o', 'w', 'n'];
    }
    UtilsExamples.DigitFreeHasNoDigit(s);
    TextWithoutDigitInactive(s);
  }

  /** Text with a decimal point ("3.0") is not an integer for `int()`: inactive, whatever its value. */
  lemma DecimalTextInactive(s: string, i: nat)
    requires i < |s| && s[i] == '.'
    ensures IsActive(MatchesRow(Str(s))) == Success(false)
  {
    DecimalPointIsNotInt(s, i);
  }
}
