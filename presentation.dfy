/** How `renderTable` (scripts/ui.js) presents one record: the category label, the income flag
    with its sign and colour, and the category icon; and the branch of `formatCurrency` taken for
    text that is not a number. */
module Presentation {
  import opened Text
  import opened Patterns
  import opened Records
  import Dashboard

  /** The row icons, in the order the category tests run. */
  datatype Icon = Document | Pizza | Bus | Bulb | Clapper | MoneyBag | Books

  /** The substrings the icon tests look for, in order, and the icon each one selects. */
  const IconKeys: seq<string> := ["food", "transport", "utilities", "entertainment", "income", "education"]
  const KeyIcons: seq<Icon> := [Pizza, Bus, Bulb, Clapper, MoneyBag, Books]

  /** The `if … else if …` chain over the lower-cased category label. */
  function IconFor(lower: string): Icon {
    if Contains(lower, "food") then Pizza
    else if Contains(lower, "transport") then Bus
    else if Contains(lower, "utilities") then Bulb
    else if Contains(lower, "entertainment") then Clapper
    else if Contains(lower, "income") then MoneyBag
    else if Contains(lower, "education") then Books
    else Document
  }

  /** The icon table read from position `k` on: the icon of the first key `lower` contains,
      or the default icon. */
  function FirstMatch(lower: string, k: nat): Icon
    requires k <= |IconKeys|
    decreases |IconKeys| - k
  {
    if k == |IconKeys| then Document
    else if Contains(lower, IconKeys[k]) then KeyIcons[k]
    else FirstMatch(lower, k + 1)
  }

  /** The chain of tests is the table lookup. */
  lemma IconIsFirstMatch(lower: string)
    ensures IconFor(lower) == FirstMatch(lower, 0)
  {
    assert FirstMatch(lower, 5) == if Contains(lower, "education") then Books else Document;
    assert FirstMatch(lower, 4) == if Contains(lower, "income") then MoneyBag else FirstMatch(lower, 5);
    assert FirstMatch(lower, 3) == if Contains(lower, "entertainment") then Clapper else FirstMatch(lower, 4);
    assert FirstMatch(lower, 2) == if Contains(lower, "utilities") then Bulb else FirstMatch(lower, 3);
    assert FirstMatch(lower, 1) == if Contains(lower, "transport") then Bus else FirstMatch(lower, 2);
  }

  /** The lookup gives the default icon exactly when no key from `k` on is contained, and
      otherwise the icon of the first contained key. */
  lemma {:induction false} FirstMatchSpec(lower: string, k: nat)
    requires k <= |IconKeys|
    ensures FirstMatch(lower, k) == Document <==> forall i :: k <= i < |IconKeys| ==> !Contains(lower, IconKeys[i])
    ensures FirstMatch(lower, k) != Document ==>
      exists i :: k <= i < |IconKeys| && Contains(lower, IconKeys[i]) && FirstMatch(lower, k) == KeyIcons[i]
                  && forall j :: k <= j < i ==> !Contains(lower, IconKeys[j])
    decreases |IconKeys| - k
  {
    if k < |IconKeys| && !Contains(lower, IconKeys[k]) {
      FirstMatchSpec(lower, k + 1);
    }
  }

  /** What a table row shows besides the record's own text. */
  datatype Row = Row(category: string, income: bool, amountClass: string, prefix: string, icon: Icon)

  /** `record.category || 'Other'`. */
  function CategoryLabel(r: Record): string {
    if r.category == "" then "Other" else r.category
  }

  function RowFor(r: Record): Row {
    var name := CategoryLabel(r);
    var income := Lower(name) == "income";
    Row(name,
        income,
        if income then "text-success-custom" else "text-main",
        if income then "+" else "-",
        IconFor(Lower(name)))
  }

  /** A row is marked as income, with a "+" and the success colour, exactly when the dashboard
      counts the record as income: the "Other" stand-in for a missing category is never income. */
  lemma RowIncomeAgrees(r: Record)
    ensures RowFor(r).income <==> Dashboard.IsIncome(r)
    ensures RowFor(r).prefix == "+" <==> Dashboard.IsIncome(r)
    ensures RowFor(r).amountClass == "text-success-custom" <==> Dashboard.IsIncome(r)
  {
    if r.category == "" {
      assert Lower("Other")[0] == 'o';
    }
  }

  /** A missing category shows as "Other", with the default icon. */
  lemma MissingCategoryRow(r: Record)
    requires r.category == ""
    ensures RowFor(r).category == "Other" && RowFor(r).icon == Document && RowFor(r).prefix == "-"
  {
    var lower := Lower("Other");
    assert lower == "other";
    assert lower[..4] == "othe" && lower[1..][..4] == "ther" && lower[2..] == "her";
  }

  /** An income record shows the money-bag icon: "income" contains none of the earlier keys. */
  lemma IncomeRowIcon(r: Record)
    requires Dashboard.IsIncome(r)
    ensures RowFor(r).icon == MoneyBag
  {
    RowIncomeAgrees(r);
    var lower := Lower(CategoryLabel(r));
    assert lower == "income";
    assert !Contains("income", "food") by {
      assert "income"[..4] == "inco" && "income"[1..][..4] == "ncom" && "income"[2..][..4] == "come";
      assert "income"[3..] == "ome";
    }
    assert "income"[..6] == "income";
  }

  // ---------------------------------------------------------------- formatCurrency

  /** `!isNaN(parseFloat(s))`: after leading white space and an optional sign, the text starts
      with "Infinity", a digit, or a point followed by a digit. */
  predicate ParsesAsNumber(s: string) {
    var t := TrimStart(s);
    StartsUnsigned(if t != [] && IsSign(t[0]) then t[1..] else t)
  }

  predicate IsSign(c: char) { c == '+' || c == '-' }

  /** The first characters of an unsigned number. */
  predicate StartsUnsigned(u: string) {
    || (|u| >= 8 && u[..8] == "Infinity")
    || (u != [] && IsDigit(u[0]))
    || (|u| >= 2 && u[0] == '.' && IsDigit(u[1]))
  }

  /** An unsigned decimal literal of `parseFloat`'s grammar without an exponent: "Infinity", or
      digits with at most one point and at least one digit. An exponent only ever extends a
      literal, so it does not change whether one exists. */
  predicate UnsignedDecimal(p: string) {
    || p == "Infinity"
    || (p != [] && AllDigits(p))
    || exists k :: 0 <= k < |p| && p[k] == '.' && AllDigits(p[..k]) && AllDigits(p[k + 1..]) && |p| >= 2
  }

  predicate SignedDecimal(p: string) {
    UnsignedDecimal(p) || (p != [] && IsSign(p[0]) && UnsignedDecimal(p[1..]))
  }

  /** `parseFloat` reads the longest prefix of the trimmed text that is a literal, and gives NaN
      when there is none. */
  predicate HasNumericPrefix(s: string) {
    var t := TrimStart(s);
    exists n :: 1 <= n <= |t| && SignedDecimal(t[..n])
  }

  /** The first-characters test is the prefix rule, for an unsigned start. */
  lemma StartsUnsignedIff(u: string)
    ensures StartsUnsigned(u) <==> exists n :: 1 <= n <= |u| && UnsignedDecimal(u[..n])
  {
    if StartsUnsigned(u) {
      if |u| >= 8 && u[..8] == "Infinity" {
        assert UnsignedDecimal(u[..8]);
      } else if u != [] && IsDigit(u[0]) {
        assert UnsignedDecimal(u[..1]);
      } else {
        assert u[..2][..0] == [] && u[..2][1..] == [u[1]];
        assert UnsignedDecimal(u[..2]);
      }
    }
    if exists n :: 1 <= n <= |u| && UnsignedDecimal(u[..n]) {
      var n :| 1 <= n <= |u| && UnsignedDecimal(u[..n]);
      var p := u[..n];
      assert p[0] == u[0];
      if p == "Infinity" {
      } else if p != [] && AllDigits(p) {
      } else {
        var k :| 0 <= k < |p| && p[k] == '.' && AllDigits(p[..k]) && AllDigits(p[k + 1..]) && |p| >= 2;
        if k > 0 {
          assert p[..k][0] == p[0];
        } else {
          assert p[1..][0] == p[1] == u[1];
        }
      }
    }
  }

  /** `ParsesAsNumber` is the prefix rule of `parseFloat`: some non-empty prefix of the trimmed
      text, after at most one sign, is a decimal literal or "Infinity". */
  lemma ParsesAsNumberIff(s: string)
    ensures ParsesAsNumber(s) <==> HasNumericPrefix(s)
  {
    var t := TrimStart(s);
    if t != [] && IsSign(t[0]) {
      var u := t[1..];
      StartsUnsignedIff(u);
      if StartsUnsigned(u) {
        var n :| 1 <= n <= |u| && UnsignedDecimal(u[..n]);
        assert t[..n + 1][1..] == u[..n];
        assert SignedDecimal(t[..n + 1]);
      }
      if HasNumericPrefix(s) {
        var n :| 1 <= n <= |t| && SignedDecimal(t[..n]);
        var p := t[..n];
        assert p[0] == t[0];
        if UnsignedDecimal(p) {
          NoSignStart(p);
        } else {
          assert p[1..] == u[..n - 1];
        }
      }
    } else {
      StartsUnsignedIff(t);
      if HasNumericPrefix(s) {
        var n :| 1 <= n <= |t| && SignedDecimal(t[..n]);
        assert t[..n][0] == t[0];
      }
    }
  }

  /** An unsigned literal does not start with a sign. */
  lemma NoSignStart(p: string)
    requires UnsignedDecimal(p)
    ensures !IsSign(p[0])
  {
    if p != "Infinity" && !(p != [] && AllDigits(p)) {
      var k :| 0 <= k < |p| && p[k] == '.' && AllDigits(p[..k]) && AllDigits(p[k + 1..]) && |p| >= 2;
      if k > 0 {
        assert p[..k][0] == p[0];
      }
    }
  }

  /** What `formatCurrency` returns: the literal "$0.00", or whatever `Intl.NumberFormat` makes of
      the number. */
  datatype CurrencyText = Literal(text: string) | IntlUsd(input: string)

  function FormatCurrency(amount: string): CurrencyText {
    if !ParsesAsNumber(amount) then Literal("$0.00") else IntlUsd(amount)
  }

  /** `formatCurrency` shows "$0.00" exactly for text with no numeric prefix, and hands every
      other text to the currency formatter. */
  lemma FormatCurrencyFallback(amount: string)
    ensures FormatCurrency(amount) == Literal("$0.00") <==> !HasNumericPrefix(amount)
    ensures HasNumericPrefix(amount) ==> FormatCurrency(amount) == IntlUsd(amount)
  {
    ParsesAsNumberIff(amount);
  }

  /** Every amount that passes validation is a number, so a validated record never shows the
      "$0.00" fallback. */
  lemma ValidAmountIsNumber(amount: string)
    requires AmountPattern(amount)
    ensures ParsesAsNumber(amount)
    ensures FormatCurrency(amount) == IntlUsd(amount)
  {
    var k :| 0 <= k <= |amount| && AmountSplit(amount, k);
    assert IsDigit(amount[0]) by {
      assert amount[..k][0] == amount[0];
    }
  }

  /** A missing amount, text and a bare point show "$0.00"; a padded or signed number does not. */
  lemma FormatCurrencyExamples()
    ensures FormatCurrency("") == Literal("$0.00")
    ensures FormatCurrency("abc") == Literal("$0.00")
    ensures FormatCurrency("-.") == Literal("$0.00")
    ensures FormatCurrency(" 12") == IntlUsd(" 12")
    ensures FormatCurrency("-.5") == IntlUsd("-.5")
  {
    assert TrimStart(" 12") == "12" by { assert " 12"[1..] == "12"; }
    assert "-."[1..] == ".";
    assert "-.5"[1..] == ".5";
  }
}
