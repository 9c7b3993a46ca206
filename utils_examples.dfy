/**
 * Families of concrete queries and what `extract_integers` and
 * `parse_comparison` make of them. Each lemma holds for every number written
 * after (or inside) the fixed words, so "at least 5" and "at least 120" are both
 * instances.
 */
module UtilsExamples {
  import opened Wrappers
  import opened Utils

  predicate DigitFree(w: string) {
    forall i :: 0 <= i < |w| ==> !IsDigit(w[i])
  }

  lemma {:induction false} DigitFreeHasNoDigit(w: string)
    requires DigitFree(w)
    ensures !HasDigit(w)
    decreases |w|
  {
    if w != [] {
      DigitFreeHasNoDigit(w[1..]);
    }
  }

  /** Lower-case words followed by one number: the text is its own lower case and holds that number only. */
  lemma WordsThenNumber(w: string, d: string)
    requires NoUpper(w) && DigitFree(w)
    requires d != [] && AllDigits(d)
    ensures ToLower(w + d) == w + d
    ensures HasDigit(w + d)
    ensures ExtractIntegers(w + d) == [DigitsValue(d)]
  {
    var s := w + d;
    assert forall i :: 0 <= i < |s| ==> !IsUpper(s[i]) by {
      forall i | 0 <= i < |s| ensures !IsUpper(s[i]) {
        if i >= |w| {
          assert s[i] == d[i - |w|];
        }
      }
    }
    assert ToLower(s) == s;
    DigitFreeHasNoDigit(w);
    ExtractIntegersLeadingRun(d, "");
    assert d + "" == d;
    ExtractIntegersSkipsText(w, d);
  }

  /** A number between digit-free words is the only integer of the text. */
  lemma NumberBetweenWords(w: string, d: string, rest: string)
    requires DigitFree(w) && DigitFree(rest)
    requires d != [] && AllDigits(d)
    ensures ExtractIntegers(w + d + rest) == [DigitsValue(d)]
  {
    DigitFreeHasNoDigit(w);
    DigitFreeHasNoDigit(rest);
    ExtractIntegersLeadingRun(d, rest);
    ExtractIntegersSkipsText(w, d + rest);
    assert w + d + rest == w + (d + rest);
  }

  /** A character that is neither in the words nor a digit is not in words-then-number. */
  lemma CharNotInWordsThenNumber(w: string, d: string, c: char)
    requires AllDigits(d) && c !in w && !IsDigit(c)
    ensures c !in w + d
  {
    forall k | 0 <= k < |w + d| ensures (w + d)[k] != c {
      if k < |w| {
        assert (w + d)[k] == w[k];
      } else {
        assert (w + d)[k] == d[k - |w|];
      }
    }
  }

  /** Text that begins with `p` contains `p`. */
  lemma LeadingWords(w: string, d: string, p: string)
    requires StartsWith(w, p)
    ensures Contains(w + d, p)
  {
    assert (w + d)[..|p|] == w[..|p|];
    StartsWithContains(w + d, p);
  }

  // Each operator family is ruled out by a character its every pattern needs.

  lemma NoGreaterWords(s: string)
    requires 'h' !in s && 'v' !in s && '>' !in s
    ensures !SaysGreater(s)
  {
    AbsentCharBlocks(s, "more than", 6);
    AbsentCharBlocks(s, "over", 1);
    AbsentCharBlocks(s, "greater than", 9);
    AbsentCharBlocks(s, ">", 0);
  }

  lemma NoLessWords(s: string)
    requires 'h' !in s && 'u' !in s && '<' !in s
    ensures !SaysLess(s)
  {
    AbsentCharBlocks(s, "less than", 6);
    AbsentCharBlocks(s, "under", 0);
    AbsentCharBlocks(s, "<", 0);
  }

  lemma NoAtLeastWords(s: string)
    requires 'l' !in s && '>' !in s
    ensures !SaysAtLeast(s)
  {
    AbsentCharBlocks(s, "at least", 3);
    AbsentCharBlocks(s, ">=", 0);
  }

  lemma NoAtMostWords(s: string)
    requires 'm' !in s && '<' !in s
    ensures !SaysAtMost(s)
  {
    AbsentCharBlocks(s, "at most", 3);
    AbsentCharBlocks(s, "<=", 0);
  }

  // The character facts about the fixed words of the examples below.

  lemma MoreThanGoalsWords()
    ensures NoUpper("more than ") && DigitFree("more than ") && DigitFree(" goals")
  {
  }

  lemma SignWords()
    ensures NoUpper(">=") && DigitFree(">=") && StartsWith(">=", ">")
    ensures NoUpper("<=") && DigitFree("<=") && StartsWith("<=", "<")
    ensures 'h' !in "<=" && 'v' !in "<=" && '>' !in "<="
  {
  }

  lemma AtLeastWords()
    ensures NoUpper("at least ") && DigitFree("at least ") && StartsWith("at least ", "at least")
    ensures 'h' !in "at least " && 'v' !in "at least " && '>' !in "at least "
    ensures 'u' !in "at least " && '<' !in "at least "
  {
  }

  lemma AtMostWords()
    ensures NoUpper("at most ") && DigitFree("at most ") && StartsWith("at most ", "at most")
    ensures 'h' !in "at most " && 'v' !in "at most " && '>' !in "at most "
    ensures 'u' !in "at most " && '<' !in "at most " && 'l' !in "at most "
  {
  }

  lemma AgeWords()
    ensures NoUpper("age ") && DigitFree("age ")
    ensures 'h' !in "age " && 'v' !in "age " && '>' !in "age " && 'u' !in "age "
    ensures '<' !in "age " && 'l' !in "age " && 'm' !in "age "
  {
  }

  /** "more than 10 goals" gives [10], whatever the number. */
  lemma ExtractIntegersExample(d: string)
    requires d != [] && AllDigits(d)
    ensures ExtractIntegers("more than " + d + " goals") == [DigitsValue(d)]
  {
    MoreThanGoalsWords();
    NumberBetweenWords("more than ", d, " goals");
  }

  /** ">=10" reads as (">", 10): the ">" family is tried first. */
  lemma GreaterOrEqualSignExample(d: string)
    requires d != [] && AllDigits(d)
    ensures ParseComparison(">=" + d) == Some(Comparison(Gt, DigitsValue(d)))
  {
    SignWords();
    WordsThenNumber(">=", d);
    LeadingWords(">=", d, ">");
  }

  /** "<=5" reads as ("<", 5). */
  lemma LessOrEqualSignExample(d: string)
    requires d != [] && AllDigits(d)
    ensures ParseComparison("<=" + d) == Some(Comparison(Lt, DigitsValue(d)))
  {
    var w := "<=";
    SignWords();
    WordsThenNumber(w, d);
    CharNotInWordsThenNumber(w, d, 'h');
    CharNotInWordsThenNumber(w, d, 'v');
    CharNotInWordsThenNumber(w, d, '>');
    NoGreaterWords(w + d);
    LeadingWords(w, d, "<");
  }

  /** "at least 5" reads as (">=", 5). */
  lemma AtLeastExample(d: string)
    requires d != [] && AllDigits(d)
    ensures ParseComparison("at least " + d) == Some(Comparison(Ge, DigitsValue(d)))
  {
    var w := "at least ";
    AtLeastWords();
    WordsThenNumber(w, d);
    CharNotInWordsThenNumber(w, d, 'h');
    CharNotInWordsThenNumber(w, d, 'v');
    CharNotInWordsThenNumber(w, d, '>');
    CharNotInWordsThenNumber(w, d, 'u');
    CharNotInWordsThenNumber(w, d, '<');
    NoGreaterWords(w + d);
    NoLessWords(w + d);
    LeadingWords(w, d, "at least");
  }

  /** "at most 5" reads as ("<=", 5). */
  lemma AtMostExample(d: string)
    requires d != [] && AllDigits(d)
    ensures ParseComparison("at most " + d) == Some(Comparison(Le, DigitsValue(d)))
  {
    var w := "at most ";
    AtMostWords();
    WordsThenNumber(w, d);
    CharNotInWordsThenNumber(w, d, 'h');
    CharNotInWordsThenNumber(w, d, 'v');
    CharNotInWordsThenNumber(w, d, '>');
    CharNotInWordsThenNumber(w, d, 'u');
    CharNotInWordsThenNumber(w, d, '<');
    CharNotInWordsThenNumber(w, d, 'l');
    NoGreaterWords(w + d);
    NoLessWords(w + d);
    NoAtLeastWords(w + d);
    LeadingWords(w, d, "at most");
  }

  /** "age 22" reads as ("==", 22). */
  lemma BareNumberExample(d: string)
    requires d != [] && AllDigits(d)
    ensures ParseComparison("age " + d) == Some(Comparison(Eq, DigitsValue(d)))
  {
    var w := "age ";
    AgeWords();
    WordsThenNumber(w, d);
    CharNotInWordsThenNumber(w, d, 'h');
    CharNotInWordsThenNumber(w, d, 'v');
    CharNotInWordsThenNumber(w, d, '>');
    CharNotInWordsThenNumber(w, d, 'u');
    CharNotInWordsThenNumber(w, d, '<');
    CharNotInWordsThenNumber(w, d, 'l');
    CharNotInWordsThenNumber(w, d, 'm');
    NoGreaterWords(w + d);
    NoLessWords(w + d);
    NoAtLeastWords(w + d);
    NoAtMostWords(w + d);
  }
}
