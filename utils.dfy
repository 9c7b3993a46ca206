/**
 * Query text utilities of the search pipeline (src/utils.py): whitespace and
 * case normalisation, extraction of the integers written in a query,
 * classification of a comparison phrase, and the two keyword tables that drive
 * the search cascade. Characters are treated as ASCII.
 */
module Utils {
  import opened Wrappers

  // ---------------------------------------------------------------------------
  // Characters

  /** `str.isspace()` (and the regex class `\s`) on ASCII: space, \t \n \v \f \r and \x1c-\x1f. */
  predicate IsSpace(c: char) {
    c == ' ' || (9 <= c as int <= 13) || (28 <= c as int <= 31)
  }

  predicate IsUpper(c: char) { 'A' <= c <= 'Z' }

  predicate IsLower(c: char) { 'a' <= c <= 'z' }

  /** The regex class `\d` on ASCII. */
  predicate IsDigit(c: char) { '0' <= c <= '9' }

  /** `str.lower()` on one character. */
  function LowerChar(c: char): (r: char)
    ensures !IsUpper(r)
    ensures IsSpace(r) <==> IsSpace(c)
    ensures IsDigit(r) <==> IsDigit(c)
    ensures !IsUpper(c) ==> r == c
  {
    if IsUpper(c) then (c as int + 32) as char else c
  }

  /** `str.upper()` on one character. */
  function UpperChar(c: char): (r: char)
    ensures !IsLower(r)
    ensures !IsLower(c) ==> r == c
  {
    if IsLower(c) then (c as int - 32) as char else c
  }

  /** `str.lower()`. */
  function ToLower(s: string): (r: string)
    ensures |r| == |s|
    ensures forall i :: 0 <= i < |s| ==> r[i] == LowerChar(s[i])
  {
    seq(|s|, i requires 0 <= i < |s| => LowerChar(s[i]))
  }

  /** `str.upper()`. */
  function ToUpper(s: string): (r: string)
    ensures |r| == |s|
    ensures forall i :: 0 <= i < |s| ==> r[i] == UpperChar(s[i])
  {
    seq(|s|, i requires 0 <= i < |s| => UpperChar(s[i]))
  }

  // ---------------------------------------------------------------------------
  // Whitespace

  /** The characters of `s` that are not whitespace, in order: what normalisation must keep. */
  function Squeeze(s: string): string
  {
    if s == [] then [] else (if IsSpace(s[0]) then [] else [s[0]]) + Squeeze(s[1..])
  }

  lemma {:induction false} SqueezeAppend(a: string, b: string)
    ensures Squeeze(a + b) == Squeeze(a) + Squeeze(b)
    decreases |a|
  {
    if a == [] {
      assert a + b == b;
    } else {
      var h := if IsSpace(a[0]) then [] else [a[0]];
      calc {
        Squeeze(a + b);
        { assert a + b == [a[0]] + (a[1..] + b); }
        Squeeze([a[0]] + (a[1..] + b));
        { SqueezeCons(a[0], a[1..] + b); }
        h + Squeeze(a[1..] + b);
        { SqueezeAppend(a[1..], b); }
        h + (Squeeze(a[1..]) + Squeeze(b));
        (h + Squeeze(a[1..])) + Squeeze(b);
        { SqueezeCons(a[0], a[1..]); assert a == [a[0]] + a[1..]; }
        Squeeze(a) + Squeeze(b);
      }
    }
  }

  /** Every character `Squeeze` keeps comes from its input. */
  lemma {:induction false} SqueezeOnlyFrom(x: string)
    ensures forall c :: c in Squeeze(x) ==> c in x
    decreases |x|
  {
    if x != [] {
      SqueezeOnlyFrom(x[1..]);
      forall c | c in Squeeze(x) ensures c in x {
        if c != x[0] {
          assert c in Squeeze(x[1..]);
          assert c in x[1..];
        }
      }
    }
  }

  /** `Squeeze` keeps every character that is not whitespace. */
  lemma {:induction false} SqueezeKeepsVisible(x: string)
    ensures forall i :: 0 <= i < |x| && !IsSpace(x[i]) ==> x[i] in Squeeze(x)
    decreases |x|
  {
    if x != [] {
      SqueezeKeepsVisible(x[1..]);
      forall i | 0 <= i < |x| && !IsSpace(x[i]) ensures x[i] in Squeeze(x) {
        if i > 0 {
          assert x[i] == x[1..][i - 1];
        }
      }
    }
  }

  /** Leading whitespace removed (`lstrip`). */
  function TrimStart(s: string): (r: string)
    ensures |r| <= |s| && r == s[|s| - |r|..]
    ensures r == [] || !IsSpace(r[0])
    ensures forall i :: 0 <= i < |s| - |r| ==> IsSpace(s[i])
    ensures Squeeze(r) == Squeeze(s)
    decreases |s|
  {
    if s != [] && IsSpace(s[0]) then TrimStart(s[1..]) else s
  }

  /** Trailing whitespace removed (`rstrip`). */
  function TrimEnd(s: string): (r: string)
    ensures |r| <= |s| && r == s[..|r|]
    ensures r == [] || !IsSpace(r[|r| - 1])
    ensures forall i :: |r| <= i < |s| ==> IsSpace(s[i])
    ensures Squeeze(r) == Squeeze(s)
    decreases |s|
  {
    if s != [] && IsSpace(s[|s| - 1]) then
      var init := s[..|s| - 1];
      assert s == init + [s[|s| - 1]];
      SqueezeAppend(init, [s[|s| - 1]]);
      TrimEnd(init)
    else s
  }

  /** `str.strip()`. */
  function Strip(s: string): (r: string)
    ensures r == [] || (!IsSpace(r[0]) && !IsSpace(r[|r| - 1]))
    ensures Squeeze(r) == Squeeze(s)
  {
    TrimEnd(TrimStart(s))
  }

  /** Where the text `strip()` keeps starts: after the leading whitespace. */
  function StripStart(s: string): (i: nat)
    ensures i <= |s|
  {
    |s| - |TrimStart(s)|
  }

  /**
   * `strip()` removes whitespace at the two ends only: the result is the infix
   * of the text at `StripStart`, and everything around it is whitespace.
   */
  lemma StripIsInfix(s: string)
    ensures StripStart(s) + |Strip(s)| <= |s|
    ensures Strip(s) == s[StripStart(s)..StripStart(s) + |Strip(s)|]
    ensures forall k :: 0 <= k < StripStart(s) ==> IsSpace(s[k])
    ensures forall k :: StripStart(s) + |Strip(s)| <= k < |s| ==> IsSpace(s[k])
  {
    var t := TrimStart(s);
    var r := TrimEnd(t);
    var i := |s| - |t|;
    assert t == s[i..];
    assert r == t[..|r|];
    forall k | i + |r| <= k < |s|
      ensures IsSpace(s[k])
    {
      assert s[k] == t[k - i];
    }
  }

  predicate NoUpper(s: string) {
    forall i :: 0 <= i < |s| ==> !IsUpper(s[i])
  }

  /** The only whitespace is the plain space, and no two spaces are adjacent. */
  predicate Collapsed(s: string) {
    (forall i :: 0 <= i < |s| && IsSpace(s[i]) ==> s[i] == ' ') &&
    (forall i :: 0 <= i < |s| - 1 && s[i] == ' ' ==> s[i + 1] != ' ')
  }

  /** What `normalize_text` promises of its result. */
  predicate IsNormalized(s: string) {
    Collapsed(s) && NoUpper(s) && (s == [] || (!IsSpace(s[0]) && !IsSpace(s[|s| - 1])))
  }

  lemma SqueezeCons(c: char, x: string)
    ensures Squeeze([c] + x) == (if IsSpace(c) then [] else [c]) + Squeeze(x)
  {
    assert ([c] + x)[1..] == x;
  }

  lemma CollapsedCons(c: char, x: string)
    requires Collapsed(x)
    requires !IsSpace(c) || (c == ' ' && (x == [] || !IsSpace(x[0])))
    ensures Collapsed([c] + x)
  {
    var y := [c] + x;
    forall i | 0 <= i < |y| && IsSpace(y[i]) ensures y[i] == ' ' {
      if i > 0 { assert y[i] == x[i - 1]; }
    }
    forall i | 0 <= i < |y| - 1 && y[i] == ' ' ensures y[i + 1] != ' ' {
      assert y[i + 1] == x[i];
      if i > 0 { assert y[i] == x[i - 1]; }
    }
  }

  lemma SuffixKeepsNoUpper(s: string, t: string)
    requires |t| <= |s| && t == s[|s| - |t|..]
    ensures NoUpper(s) ==> NoUpper(t)
  {
    forall i | 0 <= i < |t| ensures t[i] == s[|s| - |t| + i] { }
  }

  /** `re.sub(r'\s+', ' ', s)`: every maximal run of whitespace becomes one space. */
  function Collapse(s: string): (r: string)
    ensures |r| <= |s|
    ensures Collapsed(r)
    ensures s != [] && !IsSpace(s[0]) ==> r != [] && r[0] == s[0]
    decreases |s|
  {
    if s == [] then []
    else if IsSpace(s[0]) then
      var tail := Collapse(TrimStart(s));
      CollapsedCons(' ', tail);
      [' '] + tail
    else
      var tail := Collapse(s[1..]);
      CollapsedCons(s[0], tail);
      [s[0]] + tail
  }

  /** Collapsing keeps every non-whitespace character, in order. */
  lemma {:induction false} CollapseKeepsSqueeze(s: string)
    ensures Squeeze(Collapse(s)) == Squeeze(s)
    decreases |s|
  {
    if s != [] {
      assert s == [s[0]] + s[1..];
      SqueezeCons(s[0], s[1..]);
      if IsSpace(s[0]) {
        var tail := Collapse(TrimStart(s));
        CollapseKeepsSqueeze(TrimStart(s));
        SqueezeCons(' ', tail);
      } else {
        var tail := Collapse(s[1..]);
        CollapseKeepsSqueeze(s[1..]);
        SqueezeCons(s[0], tail);
      }
    }
  }

  /** A text that does not end in whitespace still does not after collapsing. */
  lemma {:induction false} CollapseKeepsLast(s: string)
    requires s != [] && !IsSpace(s[|s| - 1])
    ensures Collapse(s) != [] && !IsSpace(Collapse(s)[|Collapse(s)| - 1])
    decreases |s|
  {
    if IsSpace(s[0]) {
      var rest := TrimStart(s);
      assert rest != [] && rest[|rest| - 1] == s[|s| - 1];
      CollapseKeepsLast(rest);
    } else if |s| > 1 {
      CollapseKeepsLast(s[1..]);
    }
  }

  /** Collapsing introduces no upper-case letter. */
  lemma {:induction false} CollapseKeepsNoUpper(s: string)
    requires NoUpper(s)
    ensures NoUpper(Collapse(s))
    decreases |s|
  {
    if s != [] {
      if IsSpace(s[0]) {
        SuffixKeepsNoUpper(s, TrimStart(s));
        CollapseKeepsNoUpper(TrimStart(s));
      } else {
        SuffixKeepsNoUpper(s, s[1..]);
        CollapseKeepsNoUpper(s[1..]);
      }
    }
  }

  lemma {:induction false} LowerCommutesWithSqueeze(s: string)
    ensures Squeeze(ToLower(s)) == ToLower(Squeeze(s))
    decreases |s|
  {
    if s != [] {
      assert ToLower(s)[1..] == ToLower(s[1..]);
      LowerCommutesWithSqueeze(s[1..]);
      var head := if IsSpace(s[0]) then [] else [s[0]];
      assert ToLower(head + Squeeze(s[1..])) == ToLower(head) + ToLower(Squeeze(s[1..]));
    }
  }

  /** `normalize_text` on a string: strip, lower-case, collapse whitespace runs. */
  function Normalize(s: string): (r: string)
    ensures IsNormalized(r)
    ensures Squeeze(r) == ToLower(Squeeze(s))
  {
    var stripped := Strip(s);
    var lowered := ToLower(stripped);
    LowerCommutesWithSqueeze(stripped);
    CollapseKeepsSqueeze(lowered);
    assert lowered != [] ==> Collapse(lowered) != [] && !IsSpace(Collapse(lowered)[|Collapse(lowered)| - 1]) by {
      if lowered != [] {
        CollapseKeepsLast(lowered);
      }
    }
    CollapseKeepsNoUpper(lowered);
    Collapse(lowered)
  }

  /** `normalize_text(s)`, where `None` stands for Python's `None`. */
  function NormalizeText(s: Option<string>): (r: string)
    ensures s.None? ==> r == ""
    ensures s.Some? ==> r == JoinSpaces(Words(ToLower(s.value)))
    ensures IsNormalized(r)
  {
    match s
    case None => ""
    case Some(text) =>
      NormalizeJoinsWords(text);
      Normalize(text)
  }

  lemma {:induction false} CollapseKeepsCollapsed(s: string)
    requires Collapsed(s)
    ensures Collapse(s) == s
    decreases |s|
  {
    if s != [] {
      assert Collapsed(s[1..]) by {
        forall i | 0 <= i < |s[1..]| - 1 && s[1..][i] == ' ' ensures s[1..][i + 1] != ' ' {
          assert s[i + 1] == ' ';
        }
      }
      CollapseKeepsCollapsed(s[1..]);
      if IsSpace(s[0]) {
        assert s[0] == ' ';
        assert |s| > 1 ==> !IsSpace(s[1]);
        assert TrimStart(s[1..]) == s[1..];
        assert TrimStart(s) == s[1..];
        assert Collapse(s) == [' '] + Collapse(s[1..]);
      } else {
        assert Collapse(s) == [s[0]] + Collapse(s[1..]);
      }
      assert s == [s[0]] + s[1..];
    }
  }

  /** A normalised string is a fixed point of normalisation. */
  lemma NormalizeKeepsNormalized(t: string)
    requires IsNormalized(t)
    ensures Normalize(t) == t
  {
    assert TrimStart(t) == t;
    assert TrimEnd(t) == t;
    assert ToLower(t) == t;
    CollapseKeepsCollapsed(t);
  }

  /** `normalize_text` is idempotent. */
  lemma NormalizeIdempotent(s: string)
    ensures Normalize(Normalize(s)) == Normalize(s)
  {
    NormalizeKeepsNormalized(Normalize(s));
  }

  // ---------------------------------------------------------------------------
  // Normalisation as split-and-join

  /** Length of the run of non-whitespace characters that starts `s`. */
  function WordLen(s: string): (n: nat)
    ensures n <= |s|
    ensures forall k :: 0 <= k < n ==> !IsSpace(s[k])
    ensures n == |s| || IsSpace(s[n])
    decreases |s|
  {
    if s == [] || IsSpace(s[0]) then 0 else 1 + WordLen(s[1..])
  }

  /** `str.split()` without arguments: the maximal runs of non-whitespace characters, in order. */
  function Words(s: string): seq<string>
    decreases |s|
  {
    if s == [] then []
    else if IsSpace(s[0]) then Words(s[1..])
    else
      var n := WordLen(s);
      [s[..n]] + Words(s[n..])
  }

  /** `" ".join(ws)`. */
  function JoinSpaces(ws: seq<string>): string
    decreases |ws|
  {
    if ws == [] then "" else if |ws| == 1 then ws[0] else ws[0] + " " + JoinSpaces(ws[1..])
  }

  predicate AllSpace(s: string) {
    forall k :: 0 <= k < |s| ==> IsSpace(s[k])
  }

  /** Leading whitespace does not change the words. */
  lemma {:induction false} WordsSkipLeadingSpace(sp: string, y: string)
    requires AllSpace(sp)
    ensures Words(sp + y) == Words(y)
    decreases |sp|
  {
    if sp != [] {
      assert (sp + y)[1..] == sp[1..] + y;
      WordsSkipLeadingSpace(sp[1..], y);
    } else {
      assert sp + y == y;
    }
  }

  /** A word of `m` ends where it ends in `m + t` when `t` starts with whitespace. */
  lemma {:induction false} WordLenAppend(m: string, t: string)
    requires t == [] || IsSpace(t[0])
    ensures WordLen(m + t) == WordLen(m)
    decreases |m|
  {
    if m == [] {
      assert m + t == t;
    } else if !IsSpace(m[0]) {
      assert (m + t)[1..] == m[1..] + t;
      WordLenAppend(m[1..], t);
    }
  }

  /** Trailing whitespace does not change the words. */
  lemma {:induction false} WordsSkipTrailingSpace(m: string, t: string)
    requires m == [] || !IsSpace(m[|m| - 1])
    requires AllSpace(t)
    ensures Words(m + t) == Words(m)
    decreases |m|
  {
    if m == [] {
      assert m + t == t + [];
      WordsSkipLeadingSpace(t, []);
    } else if IsSpace(m[0]) {
      assert (m + t)[1..] == m[1..] + t;
      WordsSkipTrailingSpace(m[1..], t);
    } else {
      var n := WordLen(m);
      WordLenAppend(m, t);
      assert (m + t)[..n] == m[..n];
      assert (m + t)[n..] == m[n..] + t;
      WordsSkipTrailingSpace(m[n..], t);
    }
  }

  /** Stripping does not change the words. */
  lemma WordsOfStripped(x: string, i: nat, j: nat)
    requires i <= j <= |x|
    requires forall k :: (0 <= k < i || j <= k < |x|) ==> IsSpace(x[k])
    requires x[i..j] == [] || !IsSpace(x[i..j][|x[i..j]| - 1])
    ensures Words(x[i..j]) == Words(x)
  {
    assert x == x[..i] + (x[i..j] + x[j..]);
    WordsSkipLeadingSpace(x[..i], x[i..j] + x[j..]);
    WordsSkipTrailingSpace(x[i..j], x[j..]);
  }

  /** A text without whitespace is left unchanged by collapsing. */
  lemma CollapseKeepsWord(x: string)
    requires forall k :: 0 <= k < |x| ==> !IsSpace(x[k])
    ensures Collapse(x) == x
  {
    CollapseKeepsCollapsed(x);
  }

  /** Removing leading whitespace commutes with appending after a visible character. */
  lemma {:induction false} TrimStartAppend(a: string, c: string)
    requires a != [] && !IsSpace(a[|a| - 1])
    ensures TrimStart(a + c) == TrimStart(a) + c
    decreases |a|
  {
    if IsSpace(a[0]) {
      assert (a + c)[1..] == a[1..] + c;
      TrimStartAppend(a[1..], c);
    }
  }

  /** A run of whitespace is removed entirely by `lstrip`. */
  lemma {:induction false} TrimStartRun(w: string, b: string)
    requires AllSpace(w)
    requires b == [] || !IsSpace(b[0])
    ensures TrimStart(w + b) == b
    decreases |w|
  {
    if w == [] {
      assert w + b == b;
    } else {
      assert (w + b)[1..] == w[1..] + b;
      TrimStartRun(w[1..], b);
    }
  }

  /** Collapsing a text that starts with whitespace: one space, then the rest after `lstrip`. */
  lemma CollapseLeadingSpace(s: string)
    requires s != [] && IsSpace(s[0])
    ensures Collapse(s) == [' '] + Collapse(TrimStart(s))
  {
  }

  /** Collapsing a text that starts with a visible character keeps it. */
  lemma CollapseLeadingVisible(s: string)
    requires s != [] && !IsSpace(s[0])
    ensures Collapse(s) == [s[0]] + Collapse(s[1..])
  {
  }

  /** A leading whitespace run before a visible character collapses to one space. */
  lemma CollapseRunFirst(w: string, b: string)
    requires w != [] && AllSpace(w)
    requires b == [] || !IsSpace(b[0])
    ensures Collapse(w + b) == " " + Collapse(b)
  {
    var s := w + b;
    assert s[0] == w[0];
    CollapseLeadingSpace(s);
    TrimStartRun(w, b);
  }

  /** Collapsing turns one whitespace run between two texts into exactly one space. */
  lemma {:induction false} CollapseRun(a: string, w: string, b: string)
    requires a == [] || !IsSpace(a[|a| - 1])
    requires w != [] && AllSpace(w)
    requires b == [] || !IsSpace(b[0])
    ensures Collapse(a + w + b) == Collapse(a) + " " + Collapse(b)
    decreases |a|
  {
    if a == [] {
      assert a + w + b == w + b;
      CollapseRunFirst(w, b);
    } else {
      var c := w + b;
      assert a + w + b == a + c;
      if IsSpace(a[0]) {
        CollapseRunSpace(a, w, b);
      } else {
        CollapseRunVisible(a, w, b);
      }
    }
  }

  /** The step of `CollapseRun` for a text starting with whitespace. */
  lemma {:induction false} CollapseRunSpace(a: string, w: string, b: string)
    requires a != [] && IsSpace(a[0]) && !IsSpace(a[|a| - 1])
    requires w != [] && AllSpace(w)
    requires b == [] || !IsSpace(b[0])
    ensures Collapse(a + w + b) == Collapse(a) + " " + Collapse(b)
    decreases |a|, 0
  {
    var s, a' := a + w + b, TrimStart(a);
    AppendAssoc(a, w, b);
    AppendAssoc(a', w, b);
    assert a'[|a'| - 1] == a[|a| - 1];
    TrimStartAppend(a, w + b);
    assert s[0] == a[0];
    CollapseLeadingSpace(s);
    CollapseLeadingSpace(a);
    CollapseRun(a', w, b);
    Regroup([' '], Collapse(a'), " ", Collapse(b));
  }

  lemma Regroup(c: string, x: string, y: string, z: string)
    ensures c + (x + y + z) == c + x + y + z
  {
  }

  lemma AppendAssoc(a: string, w: string, b: string)
    ensures a + w + b == a + (w + b)
  {
  }

  lemma DropFirstOfAppend(a: string, c: string)
    requires a != []
    ensures (a + c)[1..] == a[1..] + c
  {
  }

  /** The step of `CollapseRun` for a text starting with a visible character. */
  lemma {:induction false} CollapseRunVisible(a: string, w: string, b: string)
    requires a != [] && !IsSpace(a[0]) && !IsSpace(a[|a| - 1])
    requires w != [] && AllSpace(w)
    requires b == [] || !IsSpace(b[0])
    ensures Collapse(a + w + b) == Collapse(a) + " " + Collapse(b)
    decreases |a|, 0
  {
    var s, t := a + (w + b), a[1..];
    assert s[0] == a[0];
    assert t == [] || t[|t| - 1] == a[|a| - 1];
    DropFirstOfAppend(a, w + b);
    assert s[1..] == t + w + b;
    assert a + w + b == s;
    CollapseLeadingVisible(s);
    CollapseLeadingVisible(a);
    CollapseRun(t, w, b);
    Regroup([a[0]], Collapse(t), " ", Collapse(b));
  }

  /** On a stripped text, collapsing joins its words with single spaces. */
  lemma {:induction false} CollapseJoinsWords(x: string)
    requires x == [] || (!IsSpace(x[0]) && !IsSpace(x[|x| - 1]))
    ensures Collapse(x) == JoinSpaces(Words(x))
    decreases |x|, 1
  {
    if x != [] {
      if WordLen(x) == |x| {
        assert x[..|x|] == x && x[|x|..] == [];
        CollapseKeepsWord(x);
      } else {
        CollapseJoinsMoreWords(x);
      }
    }
  }

  lemma SplitThree(x: string, n: nat, m: nat)
    requires n <= m <= |x|
    ensures x == x[..n] + x[n..m] + x[m..]
    ensures x[n..] == x[n..m] + x[m..]
    ensures x[n..m] == x[n..][..m - n]
  {
  }

  /** What `TrimStart` removes is whitespace. */
  lemma TrimStartDropsSpace(s: string)
    ensures AllSpace(s[..|s| - |TrimStart(s)|])
  {
  }

  /** A text of several words is its first word, a whitespace run, and a rest that starts with a word. */
  lemma SplitFirstWord(x: string) returns (w: string, sp: string, y: string)
    requires x != [] && !IsSpace(x[0]) && !IsSpace(x[|x| - 1])
    requires WordLen(x) < |x|
    ensures x == w + sp + y
    ensures forall k :: 0 <= k < |w| ==> !IsSpace(w[k])
    ensures w != [] && sp != [] && AllSpace(sp)
    ensures y != [] && !IsSpace(y[0]) && !IsSpace(y[|y| - 1]) && |y| < |x|
    ensures Words(x) == [w] + Words(y)
  {
    var n := WordLen(x);
    var rest := x[n..];
    y := TrimStart(rest);
    var m := |x| - |y|;
    assert y == x[m..];
    w, sp := x[..n], x[n..m];
    SplitThree(x, n, m);
    TrimStartDropsSpace(rest);
    assert y != [] && y[|y| - 1] == x[|x| - 1];
    WordsSkipLeadingSpace(sp, y);
  }

  /** The step of `CollapseJoinsWords` for a text of more than one word. */
  lemma {:induction false} CollapseJoinsMoreWords(x: string)
    requires x != [] && !IsSpace(x[0]) && !IsSpace(x[|x| - 1])
    requires WordLen(x) < |x|
    ensures Collapse(x) == JoinSpaces(Words(x))
    decreases |x|, 0
  {
    var w, sp, y := SplitFirstWord(x);
    CollapseRun(w, sp, y);
    CollapseKeepsWord(w);
    CollapseJoinsWords(y);
    assert Words(y) != [];
    assert JoinSpaces([w] + Words(y)) == w + " " + JoinSpaces(Words(y));
  }

  /** Lower-casing commutes with taking an infix, and keeps whitespace where it was. */
  lemma LowerInfix(s: string, i: nat, j: nat)
    requires i <= j <= |s|
    ensures ToLower(s)[i..j] == ToLower(s[i..j])
    ensures forall k :: 0 <= k < |s| ==> (IsSpace(ToLower(s)[k]) <==> IsSpace(s[k]))
  {
    assert forall k :: 0 <= k < j - i ==> ToLower(s)[i..j][k] == LowerChar(s[i + k]);
  }

  /** The lower-cased stripped text sits inside the lower-cased text with only whitespace around it. */
  lemma LowerStrippedIsInfix(s: string) returns (i: nat, j: nat)
    ensures i <= j <= |s| && ToLower(s)[i..j] == ToLower(Strip(s))
    ensures forall k :: (0 <= k < i || j <= k < |s|) ==> IsSpace(ToLower(s)[k])
    ensures var lr := ToLower(Strip(s)); lr == [] || (!IsSpace(lr[0]) && !IsSpace(lr[|lr| - 1]))
  {
    var r := Strip(s);
    StripIsInfix(s);
    i := StripStart(s);
    j := i + |r|;
    LowerInfix(s, i, j);
    LowerInfix(r, 0, |r|);
  }

  /**
   * `normalize_text` is `" ".join(s.lower().split())`: the lower-cased words of
   * the text, separated by single spaces.
   */
  lemma NormalizeJoinsWords(s: string)
    ensures Normalize(s) == JoinSpaces(Words(ToLower(s)))
  {
    var i, j := LowerStrippedIsInfix(s);
    WordsOfStripped(ToLower(s), i, j);
    CollapseJoinsWords(ToLower(Strip(s)));
  }

  // ---------------------------------------------------------------------------
  // Integers in text

  function DigitValue(c: char): nat
    requires IsDigit(c)
  {
    c as int - '0' as int
  }

  predicate AllDigits(s: string) {
    forall i :: 0 <= i < |s| ==> IsDigit(s[i])
  }

  /** Some character of `s` is a digit. */
  predicate HasDigit(s: string)
    decreases |s|
  {
    s != [] && (IsDigit(s[0]) || HasDigit(s[1..]))
  }

  /** `int(ds)` for a string of decimal digits. */
  function DigitsValue(ds: string): nat
    requires AllDigits(ds)
    decreases |ds|
  {
    if ds == [] then 0 else 10 * DigitsValue(ds[..|ds| - 1]) + DigitValue(ds[|ds| - 1])
  }

  /** The length of the digit run at the start of `s`. */
  function DigitRun(s: string): (n: nat)
    ensures n <= |s|
    ensures forall i :: 0 <= i < n ==> IsDigit(s[i])
    ensures n < |s| ==> !IsDigit(s[n])
    decreases |s|
  {
    if s != [] && IsDigit(s[0]) then 1 + DigitRun(s[1..]) else 0
  }

  /** `extract_integers`: the values of the maximal runs of digits, left to right. */
  function ExtractIntegers(s: string): (r: seq<nat>)
    ensures r == [] <==> !HasDigit(s)
    decreases |s|
  {
    if s == [] then []
    else if IsDigit(s[0]) then
      var n := DigitRun(s);
      [DigitsValue(s[..n])] + ExtractIntegers(s[n..])
    else
      ExtractIntegers(s[1..])
  }

  lemma {:induction false} DigitRunOfRun(d: string, b: string)
    requires AllDigits(d)
    requires b == [] || !IsDigit(b[0])
    ensures DigitRun(d + b) == |d|
    decreases |d|
  {
    if d != [] {
      assert (d + b)[1..] == d[1..] + b;
      DigitRunOfRun(d[1..], b);
    }
  }

  /** Text without digits contributes no integer. */
  lemma {:induction false} ExtractIntegersSkipsText(a: string, b: string)
    requires !HasDigit(a)
    ensures ExtractIntegers(a + b) == ExtractIntegers(b)
    decreases |a|
  {
    if a != [] {
      assert (a + b)[0] == a[0] && !IsDigit(a[0]);
      assert (a + b)[1..] == a[1..] + b;
      assert ExtractIntegers(a + b) == ExtractIntegers((a + b)[1..]);
      ExtractIntegersSkipsText(a[1..], b);
    } else {
      assert a + b == b;
    }
  }

  /** A maximal digit run contributes exactly its value, ahead of what follows. */
  lemma ExtractIntegersLeadingRun(d: string, b: string)
    requires d != [] && AllDigits(d)
    requires b == [] || !IsDigit(b[0])
    ensures ExtractIntegers(d + b) == [DigitsValue(d)] + ExtractIntegers(b)
  {
    DigitRunOfRun(d, b);
    assert (d + b)[..|d|] == d;
    assert (d + b)[|d|..] == b;
  }

  lemma {:induction false} LowerKeepsDigitRun(s: string)
    ensures DigitRun(ToLower(s)) == DigitRun(s)
    decreases |s|
  {
    if s != [] {
      assert ToLower(s)[1..] == ToLower(s[1..]);
      LowerKeepsDigitRun(s[1..]);
    }
  }

  /** Lower-casing a text does not change the integers written in it. */
  lemma {:induction false} LowerKeepsIntegers(s: string)
    ensures ExtractIntegers(ToLower(s)) == ExtractIntegers(s)
    decreases |s|
  {
    if s != [] {
      var t := ToLower(s);
      if IsDigit(s[0]) {
        LowerKeepsDigitRun(s);
        var n := DigitRun(s);
        assert t[..n] == s[..n];
        assert t[n..] == ToLower(s[n..]);
        LowerKeepsIntegers(s[n..]);
      } else {
        assert t[1..] == ToLower(s[1..]);
        LowerKeepsIntegers(s[1..]);
      }
    }
  }

  // ---------------------------------------------------------------------------
  // Comparison phrases

  /** `p == s[:len(p)]`. */
  predicate StartsWith(s: string, p: string) {
    |p| <= |s| && s[..|p|] == p
  }

  /** `p` occurs in `s` starting at offset `i`. */
  predicate OccursAt(s: string, p: string, i: nat) {
    i + |p| <= |s| && s[i..i + |p|] == p
  }

  /** Python's substring test `p in s`: `p` occurs at some offset of `s`. */
  predicate Contains(s: string, p: string) {
    exists i: nat | i <= |s| :: OccursAt(s, p, i)
  }

  /** Every character of a contained pattern occurs in the text. */
  lemma ContainsHasChar(s: string, p: string, j: nat)
    requires Contains(s, p) && j < |p|
    ensures p[j] in s
  {
    var i: nat :| i <= |s| && OccursAt(s, p, i);
    assert s[i + j] == s[i..i + |p|][j];
  }

  /** A text containing `p` contains every prefix of `p`. */
  lemma ContainsPrefix(s: string, p: string, q: string)
    requires Contains(s, p) && StartsWith(p, q)
    ensures Contains(s, q)
  {
    var i: nat :| i <= |s| && OccursAt(s, p, i);
    assert s[i..i + |q|] == p[..|q|];
    assert OccursAt(s, q, i);
  }

  /** A text that starts with `p` contains it. */
  lemma StartsWithContains(s: string, p: string)
    requires StartsWith(s, p)
    ensures Contains(s, p)
  {
    assert OccursAt(s, p, 0);
  }

  datatype Op = Gt | Lt | Ge | Le | Eq

  /** The pair `(op, val)` returned by `parse_comparison` when it is not `(None, None)`. */
  datatype Comparison = Comparison(op: Op, operand: nat)

  predicate SaysGreater(t: string) {
    Contains(t, "more than") || Contains(t, "over") || Contains(t, "greater than") || Contains(t, ">")
  }

  predicate SaysLess(t: string) {
    Contains(t, "less than") || Contains(t, "under") || Contains(t, "<")
  }

  predicate SaysAtLeast(t: string) {
    Contains(t, "at least") || Contains(t, ">=")
  }

  predicate SaysAtMost(t: string) {
    Contains(t, "at most") || Contains(t, "<=")
  }

  /**
   * `parse_comparison`: the operator families are tried in the order
   * ">", "<", ">=", "<=", and the operand is always the first integer of the text.
   */
  function ParseComparison(s: string): (r: Option<Comparison>)
    ensures r.None? <==> !HasDigit(s)
    ensures r.Some? ==> r.value.operand == ExtractIntegers(s)[0]
  {
    var t := ToLower(s);
    var nums := ExtractIntegers(t);
    LowerKeepsIntegers(s);
    if SaysGreater(t) && nums != [] then Some(Comparison(Gt, nums[0]))
    else if SaysLess(t) && nums != [] then Some(Comparison(Lt, nums[0]))
    else if SaysAtLeast(t) && nums != [] then Some(Comparison(Ge, nums[0]))
    else if SaysAtMost(t) && nums != [] then Some(Comparison(Le, nums[0]))
    else if nums != [] then Some(Comparison(Eq, nums[0]))
    else None
  }

  /**
   * The five-way classification of a text with a digit: each operator is
   * chosen exactly when its family matches and no earlier family does, and
   * "==" exactly when no family matches.
   */
  lemma ParseComparisonFamilies(s: string)
    requires HasDigit(s)
    ensures var t, op := ToLower(s), ParseComparison(s).value.op;
      (op == Gt <==> SaysGreater(t)) &&
      (op == Lt <==> !SaysGreater(t) && SaysLess(t)) &&
      (op == Ge <==> !SaysGreater(t) && !SaysLess(t) && SaysAtLeast(t)) &&
      (op == Le <==> !SaysGreater(t) && !SaysLess(t) && !SaysAtLeast(t) && SaysAtMost(t)) &&
      (op == Eq <==> !SaysGreater(t) && !SaysLess(t) && !SaysAtLeast(t) && !SaysAtMost(t))
  {
  }

  /** ">=" contains ">", so the "greater than" family captures it first. */
  lemma GreaterOrEqualSignReadsAsGreater(s: string)
    requires Contains(ToLower(s), ">=") && HasDigit(s)
    ensures ParseComparison(s) == Some(Comparison(Gt, ExtractIntegers(s)[0]))
  {
    ContainsPrefix(ToLower(s), ">=", ">");
  }

  /** "<=" contains "<", so without a "greater" word it parses as "<". */
  lemma LessOrEqualSignReadsAsLess(s: string)
    requires Contains(ToLower(s), "<=") && HasDigit(s) && !SaysGreater(ToLower(s))
    ensures ParseComparison(s) == Some(Comparison(Lt, ExtractIntegers(s)[0]))
  {
    ContainsPrefix(ToLower(s), "<=", "<");
  }

  /** The operator ">=" can only come from the words "at least", never from the sign. */
  lemma AtLeastOnlyFromWords(s: string)
    requires ParseComparison(s).Some? && ParseComparison(s).value.op == Ge
    ensures Contains(ToLower(s), "at least")
  {
    if Contains(ToLower(s), ">=") {
      ContainsPrefix(ToLower(s), ">=", ">");
    }
  }

  /** The operator "<=" can only come from the words "at most", never from the sign. */
  lemma AtMostOnlyFromWords(s: string)
    requires ParseComparison(s).Some? && ParseComparison(s).value.op == Le
    ensures Contains(ToLower(s), "at most")
  {
    if Contains(ToLower(s), "<=") {
      ContainsPrefix(ToLower(s), "<=", "<");
    }
  }

  /** A pattern with a character the text lacks is not contained in it. */
  lemma AbsentCharBlocks(s: string, p: string, j: nat)
    requires j < |p| && p[j] !in s
    ensures !Contains(s, p)
  {
    if Contains(s, p) {
      ContainsHasChar(s, p, j);
    }
  }

  // ---------------------------------------------------------------------------
  // Keyword tables (dictionaries iterate in insertion order, so they are sequences)

  /** `COLUMN_MAPPING`: query word to column name. */
  const ColumnMapping: seq<(string, string)> := [
    ("goals", "Gls"), ("goal", "Gls"), ("scorer", "Gls"),
    ("assists", "Ast"), ("assist", "Ast"),
    ("minutes", "MP"), ("minute", "MP"), ("mp", "MP"),
    ("age", "Age"),
    ("position", "Pos"), ("pos", "Pos"),
    ("team", "Squad"), ("club", "Squad"), ("squad", "Squad"),
    ("nation", "Nation"), ("country", "Nation"),
    ("value", "Value")
  ]

  /** `POSITION_SYNONYMS`: query word to position code. */
  const PositionSynonyms: seq<(string, string)> := [
    ("goalkeeper", "GK"), ("keeper", "GK"), ("gk", "GK"),
    ("defender", "DF"), ("df", "DF"),
    ("midfielder", "MF"), ("mf", "MF"),
    ("forward", "FW"), ("fw", "FW"), ("striker", "FW"), ("st", "FW"), ("attacker", "FW")
  ]

  lemma KeywordTableTargets()
    ensures forall i :: 0 <= i < |ColumnMapping| ==>
      ColumnMapping[i].1 in {"Gls", "Ast", "MP", "Age", "Pos", "Squad", "Nation", "Value"}
    ensures forall i :: 0 <= i < |PositionSynonyms| ==>
      PositionSynonyms[i].1 in {"GK", "DF", "MF", "FW"}
  {
  }
}
