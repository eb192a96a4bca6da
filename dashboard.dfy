/** The figures the dashboard shows (`renderDashboard`, `updateSpendingChart` and
    `updateBudgetLimits` in scripts/ui.js): the income, expense and balance totals, spending per
    weekday and its bar chart, and the two budget meters. Amounts are in cents. What `new Date(s)`
    reports for a date string (in the browser's time zone) is the parameter `readDate`, `None`
    standing for an invalid date. */
module Dashboard {
  import opened Text
  import opened Seqs
  import opened Patterns
  import opened Records

  // ---------------------------------------------------------------- totals

  /** `(r.category || '').toLowerCase() === 'income'`. */
  predicate IsIncome(r: Record) {
    Lower(r.category) == "income"
  }

  function IncomeTest(): Record -> bool {
    r => IsIncome(r)
  }

  function ExpenseTest(): Record -> bool {
    r => !IsIncome(r)
  }

  function Income(rs: seq<Record>): nat {
    SumCents(Filter(rs, IncomeTest()))
  }

  function Expenses(rs: seq<Record>): nat {
    SumCents(Filter(rs, ExpenseTest()))
  }

  function Balance(rs: seq<Record>): int {
    Income(rs) - Expenses(rs)
  }

  /** Every record is counted once, as income or as an expense. */
  lemma {:induction false} IncomePlusExpenses(rs: seq<Record>)
    ensures Income(rs) + Expenses(rs) == SumCents(rs)
  {
    if rs != [] {
      IncomePlusExpenses(rs[1..]);
      FilterHead(rs, IncomeTest());
      FilterHead(rs, ExpenseTest());
    }
  }

  /** A sum over a filter is at most the sum over a filter that keeps more. */
  lemma {:induction false} FilteredSumMonotone(rs: seq<Record>, p: Record -> bool, q: Record -> bool)
    requires forall r :: p(r) ==> q(r)
    ensures SumCents(Filter(rs, p)) <= SumCents(Filter(rs, q))
  {
    if rs != [] {
      FilteredSumMonotone(rs[1..], p, q);
      FilterHead(rs, p);
      FilterHead(rs, q);
    }
  }

  /** The sum over a filter, one record at a time. */
  lemma FilterHead(rs: seq<Record>, p: Record -> bool)
    requires rs != []
    ensures SumCents(Filter(rs, p)) == (if p(rs[0]) then Cents(rs[0].amount) else 0) + SumCents(Filter(rs[1..], p))
  {
    SumCentsConcat(if p(rs[0]) then [rs[0]] else [], Filter(rs[1..], p));
    assert [rs[0]][1..] == [];
  }

  /** An "Income" record of "100" and a "Food" record of "12.5" give a balance of 87.50. */
  lemma BalanceExample(salary: Record, lunch: Record)
    requires salary.category == "Income" && salary.amount == "100"
    requires lunch.category == "Food" && lunch.amount == "12.5"
    ensures Income([salary, lunch]) == 10000
    ensures Expenses([salary, lunch]) == 1250
    ensures Balance([salary, lunch]) == 8750
  {
    var rs := [salary, lunch];
    assert IsIncome(salary) by { assert Lower("Income") == "income"; }
    assert !IsIncome(lunch) by { assert Lower("Food")[0] == 'f'; }
    assert rs[1..] == [lunch] && [lunch][1..] == [];
    assert Cents("100") == 10000 && Cents("12.5") == 1250 by { AmountAcceptedExamples(); }
    FilterHead(rs, IncomeTest());
    FilterHead([lunch], IncomeTest());
    FilterHead(rs, ExpenseTest());
    FilterHead([lunch], ExpenseTest());
  }

  // ---------------------------------------------------------------- weekday histogram

  /** `getDay()`: 0 is Sunday. */
  type Weekday = d: int | 0 <= d < 7

  /** What the tracker reads off a valid `Date`, in local time. */
  datatype LocalDate = LocalDate(year: int, month: int, weekday: Weekday)

  /** A record that goes into the bucket of weekday `d`: an expense whose date is valid and falls
      on that day. */
  predicate SpentOn(r: Record, readDate: string -> Option<LocalDate>, d: Weekday) {
    !IsIncome(r) && readDate(r.date).Some? && readDate(r.date).value.weekday == d
  }

  /** The amount the histogram's bucket `d` ends with after `records.forEach` over `rs`. */
  function DaySpend(rs: seq<Record>, readDate: string -> Option<LocalDate>, d: Weekday): nat {
    if rs == [] then 0
    else
      var r := rs[|rs| - 1];
      DaySpend(rs[..|rs| - 1], readDate, d) + (if SpentOn(r, readDate, d) then Cents(r.amount) else 0)
  }

  /** The records the histogram charts at all: expenses with a valid date. */
  function DatedExpenseTest(readDate: string -> Option<LocalDate>): Record -> bool {
    r => !IsIncome(r) && readDate(r.date).Some?
  }

  /** The seven buckets the histogram should end with, Sunday first. */
  function WeekBuckets(rs: seq<Record>, readDate: string -> Option<LocalDate>): seq<nat> {
    seq(7, d requires 0 <= d < 7 => DaySpend(rs, readDate, d))
  }

  /** The first loop of `updateSpendingChart`: seven buckets, and each expense with a valid date
      adds its amount to the bucket of its weekday. */
  method SpendingByDay(rs: seq<Record>, readDate: string -> Option<LocalDate>) returns (buckets: seq<nat>)
    ensures |buckets| == 7
    ensures forall d: Weekday :: buckets[d] == DaySpend(rs, readDate, d)
    ensures buckets == WeekBuckets(rs, readDate)
  {
    var spending := new nat[7](_ => 0);
    for k := 0 to |rs|
      invariant forall d: Weekday :: spending[d] == DaySpend(rs[..k], readDate, d)
    {
      var r := rs[k];
      if !IsIncome(r) {
        var date := readDate(r.date);
        if date.Some? {
          spending[date.value.weekday] := spending[date.value.weekday] + Cents(r.amount);
        }
      }
      assert rs[..k + 1][..k] == rs[..k];
    }
    assert rs[..|rs|] == rs;
    buckets := spending[..];
  }

  function WeekTotal(rs: seq<Record>, readDate: string -> Option<LocalDate>): nat {
    DaySpend(rs, readDate, 0) + DaySpend(rs, readDate, 1) + DaySpend(rs, readDate, 2)
      + DaySpend(rs, readDate, 3) + DaySpend(rs, readDate, 4) + DaySpend(rs, readDate, 5)
      + DaySpend(rs, readDate, 6)
  }

  /** The seven buckets together hold exactly the expenses with a valid date: each such record
      lands in one bucket, and income and undated records in none. */
  lemma {:induction false} BucketsAddUp(rs: seq<Record>, readDate: string -> Option<LocalDate>)
    ensures WeekTotal(rs, readDate) == SumCents(Filter(rs, DatedExpenseTest(readDate)))
  {
    if rs != [] {
      var init, r := rs[..|rs| - 1], rs[|rs| - 1];
      BucketsAddUp(init, readDate);
      assert rs == init + [r];
      FilterConcat(init, [r], DatedExpenseTest(readDate));
      SumCentsConcat(Filter(init, DatedExpenseTest(readDate)), Filter([r], DatedExpenseTest(readDate)));
      assert [r][1..] == [];
    }
  }

  /** The histogram never holds more than the expense total. */
  lemma BucketsWithinExpenses(rs: seq<Record>, readDate: string -> Option<LocalDate>)
    ensures WeekTotal(rs, readDate) <= Expenses(rs)
  {
    BucketsAddUp(rs, readDate);
    FilteredSumMonotone(rs, DatedExpenseTest(readDate), ExpenseTest());
  }

  // ---------------------------------------------------------------- bars

  const DayNames: seq<string> := ["Sun", "Mon", "Tue", "Wed", "Thu", "Fri", "Sat"]

  /** The bars run Monday to Sunday. */
  const DisplayOrder: seq<Weekday> := [1, 2, 3, 4, 5, 6, 0]

  /** Every weekday is shown exactly once. */
  lemma DisplayOrderIsPermutation()
    ensures forall d: Weekday :: multiset(DisplayOrder)[d] == 1
  {
  }

  /** `Math.max(...spendingByDay, 1)`: the largest bucket, but at least one dollar. */
  function Scale(buckets: seq<nat>): (m: nat)
    ensures m >= 100
    ensures forall i :: 0 <= i < |buckets| ==> buckets[i] <= m
    ensures m == 100 || exists i :: 0 <= i < |buckets| && buckets[i] == m
  {
    if buckets == [] then 100
    else
      var rest := Scale(buckets[1..]);
      assert forall i :: 1 <= i < |buckets| ==> buckets[i] == buckets[1..][i - 1];
      if buckets[0] > rest then buckets[0] else rest
  }

  /** `Math.max(spent / maxSpent * 100, 5)`, a percentage of the chart's height. */
  function Height(spent: nat, scale: nat): real
    requires scale > 0
  {
    var pct := (spent as real / scale as real) * 100.0;
    if pct < 5.0 then 5.0 else pct
  }

  /** A bar for a bucket no larger than the scale stays between 5% and 100%, and reaches 100%
      exactly for the largest bucket. */
  lemma HeightBounds(spent: nat, scale: nat)
    requires 0 < scale && spent <= scale
    ensures 5.0 <= Height(spent, scale) <= 100.0
    ensures Height(spent, scale) == 100.0 <==> spent == scale
  {
    var q := spent as real / scale as real;
    assert q * scale as real == spent as real;
    assert q <= 1.0;
    assert q == 1.0 <==> spent == scale;
  }

  datatype Bar = Bar(day: string, spent: nat, height: real)

  /** The second loop of `updateSpendingChart`: one bar per weekday, Monday first. */
  method ChartBars(buckets: seq<nat>) returns (bars: seq<Bar>)
    requires |buckets| == 7
    ensures |bars| == 7
    ensures forall k :: 0 <= k < 7 ==> bars[k].day == DayNames[DisplayOrder[k]]
    ensures forall k :: 0 <= k < 7 ==> bars[k].spent == buckets[DisplayOrder[k]]
    ensures forall k :: 0 <= k < 7 ==> bars[k].height == Height(buckets[DisplayOrder[k]], Scale(buckets))
    ensures forall k :: 0 <= k < 7 ==> 5.0 <= bars[k].height <= 100.0
  {
    var maxSpent := Scale(buckets);
    bars := [];
    for k := 0 to 7
      invariant |bars| == k
      invariant forall j :: 0 <= j < k ==> bars[j].day == DayNames[DisplayOrder[j]]
      invariant forall j :: 0 <= j < k ==> bars[j].spent == buckets[DisplayOrder[j]]
      invariant forall j :: 0 <= j < k ==> bars[j].height == Height(buckets[DisplayOrder[j]], maxSpent)
      invariant forall j :: 0 <= j < k ==> 5.0 <= bars[j].height <= 100.0
    {
      var dayIdx := DisplayOrder[k];
      var spent := buckets[dayIdx];
      HeightBounds(spent, maxSpent);
      bars := bars + [Bar(DayNames[dayIdx], spent, Height(spent, maxSpent))];
    }
  }

  /** `updateSpendingChart`: the bars, Monday to Sunday, each showing its day's spending at a
      height relative to the week's largest bucket (at least one dollar). */
  method UpdateSpendingChart(rs: seq<Record>, readDate: string -> Option<LocalDate>) returns (bars: seq<Bar>)
    ensures |bars| == 7
    ensures [bars[0].day, bars[1].day, bars[2].day, bars[3].day, bars[4].day,
             bars[5].day, bars[6].day] == ["Mon", "Tue", "Wed", "Thu", "Fri", "Sat", "Sun"]
    ensures forall k :: 0 <= k < 7 ==> bars[k].spent == DaySpend(rs, readDate, DisplayOrder[k])
    ensures forall k :: 0 <= k < 7 ==>
      bars[k].height == Height(DaySpend(rs, readDate, DisplayOrder[k]), Scale(WeekBuckets(rs, readDate)))
    ensures forall k :: 0 <= k < 7 ==> 5.0 <= bars[k].height <= 100.0
  {
    var buckets := SpendingByDay(rs, readDate);
    bars := ChartBars(buckets);
  }

  // ---------------------------------------------------------------- budgets

  /** The budget limits, in dollars. */
  const MonthlyLimit: nat := 1000
  const EntertainmentLimit: nat := 200

  /** An expense dated in the given month of the given year (the current ones, read from the
      clock). */
  function InMonthTest(readDate: string -> Option<LocalDate>, month: int, year: int): Record -> bool {
    r => !IsIncome(r) && readDate(r.date).Some?
         && readDate(r.date).value.month == month && readDate(r.date).value.year == year
  }

  function MonthlySpent(rs: seq<Record>, readDate: string -> Option<LocalDate>, month: int, year: int): nat {
    SumCents(Filter(rs, InMonthTest(readDate, month, year)))
  }

  /** `(r.category || '').toLowerCase().includes('entertainment')`, whatever the date. */
  predicate IsEntertainment(r: Record) {
    Contains(Lower(r.category), "entertainment")
  }

  function EntertainmentTest(): Record -> bool {
    r => IsEntertainment(r)
  }

  function EntertainmentSpent(rs: seq<Record>): nat {
    SumCents(Filter(rs, EntertainmentTest()))
  }

  /** The month's spending is part of all spending. */
  lemma MonthlyWithinExpenses(rs: seq<Record>, readDate: string -> Option<LocalDate>, month: int, year: int)
    ensures MonthlySpent(rs, readDate, month, year) <= Expenses(rs)
  {
    FilteredSumMonotone(rs, InMonthTest(readDate, month, year), ExpenseTest());
  }

  /** A category containing "entertainment" is never exactly "income", so entertainment spending
      is part of all spending too. */
  lemma EntertainmentWithinExpenses(rs: seq<Record>)
    ensures EntertainmentSpent(rs) <= Expenses(rs)
  {
    forall r | IsEntertainment(r) ensures !IsIncome(r) {
    }
    FilteredSumMonotone(rs, EntertainmentTest(), ExpenseTest());
  }

  /** `(spent / limit) * 100` with `spent` in dollars; with `spent` in cents, the two factors of
      100 cancel. */
  function RawPercent(spent: nat, limit: nat): real
    requires limit > 0
  {
    spent as real / limit as real
  }

  /** Dividing by a positive number keeps a lower bound exactly when multiplying undoes it. */
  lemma QuotientAtLeast(a: real, b: real, c: real)
    requires b > 0.0
    ensures a / b >= c <==> a >= c * b
  {
    var q := a / b;
    assert q * b == a;
    if q >= c {
      assert q * b >= c * b;
    } else {
      assert q * b < c * b;
    }
  }

  /** The unclamped percentage is the ratio of cents to dollars, so its thresholds are whole-cent
      thresholds. */
  lemma RawPercentThresholds(spent: nat, limit: nat)
    requires limit > 0
    ensures RawPercent(spent, limit) >= 0.0
    ensures RawPercent(spent, limit) >= 100.0 <==> spent >= 100 * limit
    ensures RawPercent(spent, limit) >= 90.0 <==> spent >= 90 * limit
  {
    QuotientAtLeast(spent as real, limit as real, 0.0);
    QuotientAtLeast(spent as real, limit as real, 100.0);
    QuotientAtLeast(spent as real, limit as real, 90.0);
  }

  /** `Math.min((spent / limit) * 100, 100)`. */
  function Percent(spent: nat, limit: nat): (p: real)
    requires limit > 0
    ensures 0.0 <= p <= 100.0
    ensures p == 100.0 <==> spent >= 100 * limit
    ensures p >= 90.0 <==> spent >= 90 * limit
  {
    RawPercentThresholds(spent, limit);
    var raw := RawPercent(spent, limit);
    if raw < 100.0 then raw else 100.0
  }

  /** `Math.round` of a non-negative number: halves round up. */
  function Round(x: real): (n: nat)
    requires 0.0 <= x
    ensures n as real <= x + 0.5 < n as real + 1.0
  {
    (x + 0.5).Floor
  }

  /** What a budget meter shows: the badge text and, for the accent meter, the badge's class. */
  datatype Meter = Meter(text: string, badgeClass: Option<string>, fill: real)

  /** The `updateEl` helper of `updateBudgetLimits`. */
  function BudgetMeter(spent: nat, limit: nat, accent: bool): (m: Meter)
    requires limit > 0
  {
    var pct := Percent(spent, limit);
    Meter(
      if accent && pct >= 90.0 then "Limit Near" else NatToString(Round(pct)) + "% Used",
      if !accent then None else if pct >= 90.0 then Some("badge badge-accent") else Some("badge badge-primary"),
      pct)
  }

  /** The accent meter warns exactly from 90% of its limit on; the plain meter never warns and
      keeps its class; otherwise the badge is the rounded percentage, at most 100. */
  lemma BudgetMeterRule(spent: nat, limit: nat, accent: bool)
    requires limit > 0
    ensures BudgetMeter(spent, limit, accent).text == "Limit Near" <==> accent && spent >= 90 * limit
    ensures BudgetMeter(spent, limit, accent).badgeClass == Some("badge badge-accent") <==> accent && spent >= 90 * limit
    ensures !accent ==> BudgetMeter(spent, limit, accent).badgeClass == None
    ensures BudgetMeter(spent, limit, accent).text != "Limit Near" ==>
      exists n: nat :: n <= 100 && BudgetMeter(spent, limit, accent).text == NatToString(n) + "% Used"
    ensures 0.0 <= BudgetMeter(spent, limit, accent).fill <= 100.0
  {
    var pct := Percent(spent, limit);
    var n := Round(pct);
    assert (NatToString(n) + "% Used")[0] == NatToString(n)[0];
    assert NatToString(n) + "% Used" != "Limit Near" by {
      assert IsDigit(NatToString(n)[0]);
    }
  }

  /** The two meters of the dashboard, for the current month and year. */
  function BudgetMeters(rs: seq<Record>, readDate: string -> Option<LocalDate>, month: int, year: int): (Meter, Meter) {
    (BudgetMeter(MonthlySpent(rs, readDate, month, year), MonthlyLimit, false),
     BudgetMeter(EntertainmentSpent(rs), EntertainmentLimit, true))
  }

  /** Entertainment spending of exactly $200.00 fills the meter and shows "Limit Near". */
  lemma EntertainmentAtLimit()
    ensures BudgetMeter(20000, EntertainmentLimit, true) == Meter("Limit Near", Some("badge badge-accent"), 100.0)
  {
  }

  /** $179.99 of entertainment is 89.995%: below the warning, yet the badge rounds to "90% Used". */
  lemma EntertainmentJustBelowWarning()
    ensures BudgetMeter(17999, EntertainmentLimit, true).text == "90% Used"
    ensures BudgetMeter(17999, EntertainmentLimit, true).badgeClass == Some("badge badge-primary")
  {
    var pct := Percent(17999, EntertainmentLimit);
    assert pct == 89.995;
    assert Round(pct) == 90;
    assert NatToString(90) == "90" by { assert NatToString(9) == "9"; }
  }

  /** Monthly spending over the limit caps at "100% Used" and never warns. */
  lemma MonthlyOverLimit()
    ensures BudgetMeter(150000, MonthlyLimit, false) == Meter("100% Used", None, 100.0)
  {
    assert Round(100.0) == 100;
    assert NatToString(100) == "100" by {
      assert NatToString(1) == "1";
      assert NatToString(10) == "10";
    }
  }
}
