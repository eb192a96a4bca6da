/** The three field patterns of `REGEX` (scripts/state.js), each as the language it accepts.
    Every predicate below follows the shape of its regular expression; the lemmas state what
    those languages are in plain terms, and that an accepted amount is an exact number of cents. */
module Patterns {
  import opened Text
  import opened Seqs

  // ---------------------------------------------------------------- description: /^\S(?:.*\S)?$/

  /** `.*` over the whole of `s`: no line terminator. */
  predicate AllDots(s: string) {
    forall i :: 0 <= i < |s| ==> !IsLineTerminator(s[i])
  }

  /** `.*\S` over the whole of `s`. */
  predicate DotsThenNonSpace(s: string) {
    |s| >= 1 && AllDots(s[..|s| - 1]) && !IsSpace(s[|s| - 1])
  }

  /** `REGEX.description`: one non-space character, optionally followed by `.*\S`. */
  predicate DescriptionPattern(s: string) {
    |s| >= 1 && !IsSpace(s[0]) && (|s| == 1 || DotsThenNonSpace(s[1..]))
  }

  /** A description is accepted exactly when it is non-empty, starts and ends with a non-space
      character, and holds no line terminator. */
  lemma DescriptionPatternIff(s: string)
    ensures DescriptionPattern(s) <==>
      && s != []
      && !IsSpace(s[0]) && !IsSpace(s[|s| - 1])
      && forall i :: 0 <= i < |s| ==> !IsLineTerminator(s[i])
  {
    if DescriptionPattern(s) && |s| > 1 {
      assert forall i :: 1 <= i < |s| - 1 ==> s[i] == s[1..][..|s| - 2][i - 1];
    }
  }

  /** Equivalently: a description is accepted exactly when it is non-empty, `trim` leaves it
      unchanged, and it is a single line. */
  lemma DescriptionIsTrimmed(s: string)
    ensures DescriptionPattern(s) <==>
      s != [] && Trim(s) == s && forall i :: 0 <= i < |s| ==> !IsLineTerminator(s[i])
  {
    DescriptionPatternIff(s);
    if s != [] && !IsSpace(s[0]) && !IsSpace(s[|s| - 1]) {
      TrimKeepsUnpadded(s);
    }
    if s != [] && Trim(s) == s {
      TrimEndsWithNonSpace(s);
    }
  }

  // ---------------------------------------------------------------- amount: /^(0|[1-9]\d*)(\.\d{1,2})?$/

  /** `0|[1-9]\d*`: a decimal integer without leading zeros, sign or spaces. */
  predicate IntegerPart(s: string) {
    s == "0" || (|s| >= 1 && '1' <= s[0] <= '9' && AllDigits(s))
  }

  /** `(\.\d{1,2})?`: nothing, or a point followed by one or two digits. */
  predicate FractionPart(s: string) {
    s == "" || (2 <= |s| <= 3 && s[0] == '.' && AllDigits(s[1..]))
  }

  /** The amount pattern matches with its integer part ending at index `k`. */
  predicate AmountSplit(s: string, k: int) {
    0 <= k <= |s| && IntegerPart(s[..k]) && FractionPart(s[k..])
  }

  /** `REGEX.amount`. */
  predicate AmountPattern(s: string) {
    exists k :: 0 <= k <= |s| && AmountSplit(s, k)
  }

  /** The index of the first '.', or `|s|` when there is none. */
  function IndexOfPoint(s: string): (k: nat)
    ensures k <= |s|
    ensures forall i :: 0 <= i < k ==> s[i] != '.'
    ensures k < |s| ==> s[k] == '.'
  {
    if s == [] then 0
    else if s[0] == '.' then 0
    else 1 + IndexOfPoint(s[1..])
  }

  /** The pattern can only split an amount at its first point (or its end). */
  lemma AmountSplitAtPoint(s: string, k: int)
    requires AmountSplit(s, k)
    ensures k == IndexOfPoint(s)
  {

  }

  /** So whether an amount is accepted is decided by its split at the first point. */
  lemma AmountPatternAtPoint(s: string)
    ensures AmountPattern(s) <==> AmountSplit(s, IndexOfPoint(s))
  {
    if AmountPattern(s) {
      var j :| 0 <= j <= |s| && AmountSplit(s, j);
      AmountSplitAtPoint(s, j);
    }
  }

  /** The cents a fraction part stands for: ".5" is 50, ".05" is 5. */
  function FractionCents(f: string): (c: nat)
    requires FractionPart(f)
    ensures c < 100
  {
    if |f| == 0 then 0
    else if |f| == 2 then 10 * DigitValue(f[1])
    else 10 * DigitValue(f[1]) + DigitValue(f[2])
  }

  /** `parseFloat` on an accepted amount, in cents; `None` for a string the pattern rejects. */
  function ParseAmount(s: string): (r: Option<nat>)
    ensures r.Some? <==> AmountPattern(s)
  {
    AmountPatternAtPoint(s);
    var k := IndexOfPoint(s);
    if AmountSplit(s, k) then Some(100 * DigitsValue(s[..k]) + FractionCents(s[k..])) else None
  }

  /** `parseFloat(a.amount || 0)` in cents: an accepted amount's value, and 0 for the missing amount. */
  function Cents(s: string): nat {
    match ParseAmount(s)
    case Some(c) => c
    case None => 0
  }

  function Pow10(n: nat): (p: nat)
    ensures p >= 1
  {
    if n == 0 then 1 else 10 * Pow10(n - 1)
  }

  /** The rational number an accepted amount denotes, read digit by digit: integer part plus
      fraction digits over the matching power of ten. */
  function DecimalValue(s: string): real
    requires AmountPattern(s)
  {
    AmountPatternAtPoint(s);
    var k := IndexOfPoint(s);
    var f := s[k..];
    DigitsValue(s[..k]) as real
      + (if f == "" then 0.0 else DigitsValue(f[1..]) as real / Pow10(|f| - 1) as real)
  }

  /** Every accepted amount is a whole number of cents: 100 times its value is `Cents`. This is
      what lets the model count money in cents instead of floating point. */
  lemma CentsExact(s: string)
    requires AmountPattern(s)
    ensures Cents(s) as real == 100.0 * DecimalValue(s)
  {
    AmountPatternAtPoint(s);
    var k := IndexOfPoint(s);
    var f := s[k..];
    if |f| == 2 {
      assert f[1..][..0] == [];
      assert DigitsValue(f[1..]) == DigitValue(f[1]);
    } else if |f| == 3 {
      var x := f[1..];
      assert x[..1] == [f[1]] && x[1] == f[2];
      assert [f[1]][..0] == [];
      assert DigitsValue([f[1]]) == DigitValue(f[1]);
      assert DigitsValue(x) == 10 * DigitValue(f[1]) + DigitValue(f[2]);
    }
  }

  /** The text "<dollars>.<two digits>" for a number of cents. */
  function AmountText(c: nat): string {
    NatToString(c / 100) + "." + [DigitChar(c % 100 / 10), DigitChar(c % 10)]
  }

  /** Every number of cents is written by some accepted amount, and reading it back gives the same
      cents: the cents model of amounts loses nothing. */
  lemma AmountTextRoundTrip(c: nat)
    ensures AmountPattern(AmountText(c))
    ensures Cents(AmountText(c)) == c
  {
    var d := NatToString(c / 100);
    var s := AmountText(c);
    var k := |d|;
    assert s[..k] == d;
    assert s[k..] == "." + [DigitChar(c % 100 / 10), DigitChar(c % 10)];
    assert AmountSplit(s, k);
    AmountSplitAtPoint(s, k);
  }

  /** "05" (leading zero), "12.345" (three decimals), "12." and ".5" (empty digit runs), "-5" and
      " 5" (sign, space) are all rejected. */
  lemma AmountRejectedExamples()
    ensures !AmountPattern("05") && !AmountPattern("12.345")
    ensures !AmountPattern("12.") && !AmountPattern(".5")
    ensures !AmountPattern("-5") && !AmountPattern(" 5") && !AmountPattern("")
  {
    NotAmount("05");
    NotAmount("12.345");
    NotAmount("12.");
    NotAmount(".5");
    NotAmount("-5");
    NotAmount(" 5");
    NotAmount("");
  }

  /** "0", "12.5" and "100" are accepted, as 0, 1250 and 10000 cents; a missing amount counts 0. */
  lemma AmountAcceptedExamples()
    ensures AmountPattern("0") && AmountPattern("12.5") && AmountPattern("100")
    ensures Cents("0") == 0 && Cents("12.5") == 1250 && Cents("100") == 10000 && Cents("") == 0
  {
    assert AmountSplit("0", 1);
    assert AmountSplit("12.5", 2);
    assert AmountSplit("100", 3);
    assert IndexOfPoint("0") == 1 && IndexOfPoint("12.5") == 2 && IndexOfPoint("100") == 3;
    assert "100"[..2] == "10" && "10"[..1] == "1" && "12"[..1] == "1" && "1"[..0] == "" && "0"[..0] == "";
    assert DigitsValue("12") == 12 && DigitsValue("100") == 100 && DigitsValue("0") == 0;
    assert FractionCents(".5") == 50 && FractionCents("") == 0;
    assert "12.5"[..2] == "12" && "12.5"[2..] == ".5" && "100"[..3] == "100" && "100"[3..] == "";
    assert "0"[..1] == "0" && "0"[1..] == "";
    assert ParseAmount("12.5") == Some(1250);
    assert ParseAmount("100") == Some(10000);
    assert ParseAmount("0") == Some(0);
    NotAmount("");
  }

  /** A string is rejected when the split at its first point does not fit the pattern. */
  lemma NotAmount(s: string)
    requires !AmountSplit(s, IndexOfPoint(s))
    ensures !AmountPattern(s)
  {
    AmountPatternAtPoint(s);
  }

  // ---------------------------------------------------------------- category: /^[A-Za-z]+(?:[ -][A-Za-z]+)*$/

  /** `[A-Za-z]+` over the whole of `s`. */
  predicate Letters(s: string) {
    |s| >= 1 && forall i :: 0 <= i < |s| ==> IsAsciiLetter(s[i])
  }

  predicate IsSeparator(c: char) { c == ' ' || c == '-' }

  /** `(?:[ -][A-Za-z]+)*` over the whole of `s`. */
  predicate SeparatedRuns(s: string)
    decreases |s|
  {
    s == [] || (IsSeparator(s[0]) && exists k :: 2 <= k <= |s| && Letters(s[1..k]) && SeparatedRuns(s[k..]))
  }

  /** `REGEX.category`. */
  predicate CategoryPattern(s: string) {
    exists k :: 1 <= k <= |s| && Letters(s[..k]) && SeparatedRuns(s[k..])
  }

  /** The plain description of the category language: ASCII letters, single spaces or hyphens
      between them, a letter at both ends. */
  predicate CategoryShape(s: string) {
    && |s| >= 1
    && IsAsciiLetter(s[0]) && IsAsciiLetter(s[|s| - 1])
    && (forall i :: 0 <= i < |s| ==> IsAsciiLetter(s[i]) || IsSeparator(s[i]))
    && (forall i :: 0 <= i < |s| - 1 ==> IsAsciiLetter(s[i]) || IsAsciiLetter(s[i + 1]))
  }

  /** A non-empty `SeparatedRuns` is a separator followed by a whole category. */
  lemma SeparatedRunsIff(t: string)
    ensures SeparatedRuns(t) <==> t == [] || (IsSeparator(t[0]) && CategoryPattern(t[1..]))
  {
    if t != [] && IsSeparator(t[0]) {
      if SeparatedRuns(t) {
        var k :| 2 <= k <= |t| && Letters(t[1..k]) && SeparatedRuns(t[k..]);
        assert t[1..][..k - 1] == t[1..k] && t[1..][k - 1..] == t[k..];
      }
      if CategoryPattern(t[1..]) {
        var j :| 1 <= j <= |t| - 1 && Letters(t[1..][..j]) && SeparatedRuns(t[1..][j..]);
        assert t[1..][..j] == t[1..j + 1] && t[1..][j..] == t[j + 1..];
      }
    }
  }

  lemma {:induction false} CategoryPatternHasShape(s: string)
    requires CategoryPattern(s)
    ensures CategoryShape(s)
    decreases |s|
  {
    var k :| 1 <= k <= |s| && Letters(s[..k]) && SeparatedRuns(s[k..]);
    if k == |s| {
      assert s[..k] == s;
    } else {
      var t := s[k..];
      SeparatedRunsIff(t);
      var u := s[k + 1..];
      assert t[1..] == u;
      CategoryPatternHasShape(u);
      assert s == s[..k] + [s[k]] + u;
      forall i | 0 <= i < |s| ensures IsAsciiLetter(s[i]) || IsSeparator(s[i]) {
        if i < k { assert s[i] == s[..k][i]; }
        else if i > k { assert s[i] == u[i - k - 1]; }
      }
      forall i | 0 <= i < |s| - 1 ensures IsAsciiLetter(s[i]) || IsAsciiLetter(s[i + 1]) {
        if i < k { assert s[i] == s[..k][i]; }
        else if i == k { assert s[i + 1] == u[0]; }
        else { assert s[i] == u[i - k - 1] && s[i + 1] == u[i - k]; }
      }
      assert s[0] == s[..k][0];
      assert s[|s| - 1] == u[|u| - 1];
    }
  }

  /** The index of the first separator, or `|s|` when there is none. */
  function IndexOfSeparator(s: string): (k: nat)
    ensures k <= |s|
    ensures forall i :: 0 <= i < k ==> !IsSeparator(s[i])
    ensures k < |s| ==> IsSeparator(s[k])
  {
    if s == [] then 0
    else if IsSeparator(s[0]) then 0
    else 1 + IndexOfSeparator(s[1..])
  }

  lemma {:induction false} ShapeIsCategoryPattern(s: string)
    requires CategoryShape(s)
    ensures CategoryPattern(s)
    decreases |s|
  {
    var k := IndexOfSeparator(s);
    assert Letters(s[..k]);
    if k == |s| {
      assert s[..k] == s && s[k..] == [];
    } else {
      assert 1 <= k < |s| - 1;
      var u := s[k + 1..];
      assert CategoryShape(u) by {
        assert u[0] == s[k + 1];
        assert u[|u| - 1] == s[|s| - 1];
        forall i | 0 <= i < |u| ensures IsAsciiLetter(u[i]) || IsSeparator(u[i]) {
          assert u[i] == s[i + k + 1];
        }
        forall i | 0 <= i < |u| - 1 ensures IsAsciiLetter(u[i]) || IsAsciiLetter(u[i + 1]) {
          assert u[i] == s[i + k + 1] && u[i + 1] == s[i + k + 2];
        }
      }
      ShapeIsCategoryPattern(u);
      assert s[k..][1..] == u;
      SeparatedRunsIff(s[k..]);
    }
  }

  /** A category is accepted exactly when it has the plain shape above. */
  lemma CategoryPatternIff(s: string)
    ensures CategoryPattern(s) <==> CategoryShape(s)
  {
    if CategoryPattern(s) { CategoryPatternHasShape(s); }
    if CategoryShape(s) { ShapeIsCategoryPattern(s); }
  }

  /** A string without the plain shape is rejected. */
  lemma NotCategory(s: string)
    requires !CategoryShape(s)
    ensures !CategoryPattern(s)
  {
    if CategoryPattern(s) { CategoryPatternHasShape(s); }
  }

  /** "Rent-Utilities" is accepted. */
  lemma CategoryAcceptedExample()
    ensures CategoryPattern("Rent-Utilities")
  {
    var s := "Rent-Utilities";
    assert CategoryShape(s);
    ShapeIsCategoryPattern(s);
  }

  /** "Rent1" (digit), " Rent" (leading space), "Rent--X" (double separator), "Rent-" (trailing
      separator), "" and "Café" (non-ASCII letter) are rejected. */
  lemma CategoryRejectedExamples()
    ensures !CategoryPattern("Rent1") && !CategoryPattern(" Rent") && !CategoryPattern("Rent--X")
    ensures !CategoryPattern("Rent-") && !CategoryPattern("") && !CategoryPattern("Caf\U{00E9}")
  {
    assert !IsAsciiLetter("Rent1"[4]) && !IsSeparator("Rent1"[4]);
    NotCategory("Rent1");
    NotCategory(" Rent");
    assert !IsAsciiLetter("Rent--X"[4]) && !IsAsciiLetter("Rent--X"[5]);
    NotCategory("Rent--X");
    NotCategory("Rent-");
    NotCategory("");
    assert !IsAsciiLetter("Caf\U{00E9}"[3]) && !IsSeparator("Caf\U{00E9}"[3]);
    NotCategory("Caf\U{00E9}");
  }
}
