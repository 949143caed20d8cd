/**
 * The monthly summary page: month navigation, the income and expense totals
 * it loads for the shown month, and the remaining/over-budget display with
 * its spent ratio and donut colours.
 */
module IncomeExpenses {
  import opened JsMath
  import opened Calendar
  import opened Ledger
  import MonthlyDetails

  /** This page's own `monthRange`. */
  function MonthRange(year: int, month0: int): Range {
    var nextY := if month0 == 11 then year + 1 else year;
    var nextM := if month0 == 11 then 1 else month0 + 2;
    Range(Date(year, month0 + 1, 1), Date(nextY, nextM, 1))
  }

  /** Both pages query the same half-open interval for a month. */
  lemma MonthRangesAgree(year: int, month0: int)
    ensures MonthRange(year, month0) == MonthlyDetails.MonthRange(year, month0)
    ensures 0 <= month0 <= 11 ==>
      forall d :: ValidDate(d) ==>
        (InRange(d, MonthRange(year, month0)) <==> d.year == year && d.month == month0 + 1)
  {
    if 0 <= month0 <= 11 {
      forall d | ValidDate(d) {
        MonthlyDetails.MonthRangeSelectsMonth(year, month0, d);
      }
    }
  }

  datatype YearMonth = YearMonth(year: int, month: int)

  /**
   * `shiftMonth(year, month0, delta)`: `new Date(year, month0, 1)` (two-digit
   * years read as 19yy, the month carried into the year) and then
   * `setMonth(getMonth() + delta)`, which carries again.
   */
  function ShiftMonth(year: int, month0: int, delta: int): YearMonth {
    var y1 := JsFullYear(year) + FloorDiv(month0, 12);
    var m1 := month0 % 12;
    var y2 := y1 + FloorDiv(m1 + delta, 12);
    var m2 := (m1 + delta) % 12;
    YearMonth(y2, m2)
  }

  /** The result is a month in 0..11 exactly delta months from the start, counted on 12 * year + month. */
  lemma ShiftMonthSpec(year: int, month0: int, delta: int)
    ensures var r := ShiftMonth(year, month0, delta);
      0 <= r.month <= 11 && 12 * r.year + r.month == 12 * JsFullYear(year) + month0 + delta
    ensures !(0 <= year <= 99) ==>
      var r := ShiftMonth(year, month0, delta);
      12 * r.year + r.month == 12 * year + month0 + delta
  {
  }

  /** December forward is January of the next year; January back is December of the previous one. */
  lemma ShiftMonthExamples(y: int)
    requires !(0 <= y <= 99)
    ensures ShiftMonth(y, 11, 1) == YearMonth(y + 1, 0)
    ensures ShiftMonth(y, 0, -1) == YearMonth(y - 1, 11)
  {
  }

  /** A year in 0..99 is taken as 19yy: one step from January of year 5 lands in February 1905. */
  lemma ShiftMonthTwoDigitYear()
    ensures ShiftMonth(5, 0, 1) == YearMonth(1905, 1)
  {
  }

  /** Going forward and back the same number of months returns to the start month. */
  lemma ShiftMonthInverse(year: int, month0: int, delta: int)
    requires 0 <= month0 <= 11 && !(0 <= year <= 99)
    requires !(0 <= ShiftMonth(year, month0, delta).year <= 99)
    ensures var r := ShiftMonth(year, month0, delta);
      ShiftMonth(r.year, r.month, -delta) == YearMonth(year, month0)
  {
    var r := ShiftMonth(year, month0, delta);
    ShiftMonthSpec(year, month0, delta);
    ShiftMonthSpec(r.year, r.month, -delta);
    var s := ShiftMonth(r.year, r.month, -delta);
    assert 12 * s.year + s.month == 12 * year + month0;
  }

  /** The page's month step agrees with the form's `addMonths` on the first of the month. */
  lemma ShiftMonthMatchesAddMonths(year: int, month0: int, delta: int)
    requires 0 <= month0 <= 11 && !(0 <= year <= 99)
    ensures var r, a := ShiftMonth(year, month0, delta), AddMonths(Date(year, month0 + 1, 1), delta);
      r.year == a.year && r.month + 1 == a.month
  {
    ShiftMonthSpec(year, month0, delta);
    AddMonthsTarget(Date(year, month0 + 1, 1), delta);
    var r, a := ShiftMonth(year, month0, delta), AddMonths(Date(year, month0 + 1, 1), delta);
    assert 12 * r.year + r.month == 12 * a.year + (a.month - 1);
  }

  // ---------------------------------------------------------------------------
  // Totals

  /**
   * The `forEach` of `loadTotals`: income rows add to `inc`, every other row
   * to `exp`; together they account for every amount.
   */
  method AccumulateTotals(data: seq<Row>) returns (inc: int, exp: int)
    ensures inc == SumAmounts(Filter(data, IsIncome))
    ensures exp == SumAmounts(Filter(data, IsNotIncome))
    ensures inc + exp == SumAmounts(data)
  {
    inc, exp := 0, 0;
    var i := 0;
    while i < |data|
      invariant 0 <= i <= |data|
      invariant inc == SumAmounts(Filter(data[..i], IsIncome))
      invariant exp == SumAmounts(Filter(data[..i], IsNotIncome))
    {
      AccumulateStep(data, i);
      var r := data[i];
      if r.kind == Income {
        inc := inc + r.amount;
      } else {
        exp := exp + r.amount;
      }
      i := i + 1;
    }
    assert data[..i] == data;
    IncomeAndRestCoverAll(data);
  }

  /** Row i adds its amount to the income sum of the prefix before it, or to the rest. */
  lemma AccumulateStep(data: seq<Row>, i: int)
    requires 0 <= i < |data|
    ensures SumAmounts(Filter(data[..i + 1], IsIncome))
      == SumAmounts(Filter(data[..i], IsIncome)) + (if data[i].kind == Income then data[i].amount else 0)
    ensures SumAmounts(Filter(data[..i + 1], IsNotIncome))
      == SumAmounts(Filter(data[..i], IsNotIncome)) + (if data[i].kind == Income then 0 else data[i].amount)
  {
    var prefix, r := data[..i], data[i];
    assert data[..i + 1] == prefix + [r];
    assert [r][1..] == [];
    FilterAppend(prefix, [r], IsIncome);
    FilterAppend(prefix, [r], IsNotIncome);
    SumAmountsAppend(Filter(prefix, IsIncome), Filter([r], IsIncome));
    SumAmountsAppend(Filter(prefix, IsNotIncome), Filter([r], IsNotIncome));
  }

  /** The income rows and the other rows together hold every amount. */
  lemma IncomeAndRestCoverAll(data: seq<Row>)
    ensures SumAmounts(Filter(data, IsIncome)) + SumAmounts(Filter(data, IsNotIncome)) == SumAmounts(data)
  {
    SumPartition(data, IsIncome, IsNotIncome);
  }

  /**
   * The summary's income is the details page's income; its expense is the
   * details page's expense plus every row whose kind is neither income nor
   * expense, so the two pages agree exactly when there are no such rows.
   */
  lemma SummaryVersusDetails(data: seq<Row>)
    ensures SumAmounts(Filter(data, IsIncome)) == MonthlyDetails.ComputeTotals(data).income
    ensures SumAmounts(Filter(data, IsNotIncome))
      == MonthlyDetails.ComputeTotals(data).expense + SumAmounts(Filter(data, IsOtherKind))
    ensures (forall r :: r in data ==> !IsOtherKind(r)) ==>
      SumAmounts(Filter(data, IsNotIncome)) == MonthlyDetails.ComputeTotals(data).expense
  {
    var rest := Filter(data, IsNotIncome);
    var notExpense := (r: Row) => !IsExpense(r);
    SumPartition(rest, IsExpense, notExpense);
    FilterFilter(data, IsNotIncome, IsExpense, IsExpense);
    FilterFilter(data, IsNotIncome, notExpense, IsOtherKind);
    if forall r :: r in data ==> !IsOtherKind(r) {
      FilterNone(data, IsOtherKind);
    }
  }

  // ---------------------------------------------------------------------------
  // Display rules

  function RMin(a: real, b: real): real { if a <= b then a else b }
  function RMax(a: real, b: real): real { if a >= b then a else b }

  /** `spentRatio`: the share of income already spent, clamped to [0, 1]. */
  function SpentRatio(income: int, expense: int): (ratio: real)
    ensures 0.0 <= ratio <= 1.0
    ensures income <= 0 ==> ratio == (if expense > 0 then 1.0 else 0.0)
    ensures income > 0 && 0 <= expense <= income ==> ratio * (income as real) == expense as real
    ensures income > 0 && expense >= income ==> ratio == 1.0
    ensures income > 0 && expense <= 0 ==> ratio == 0.0
  {
    if income <= 0 && expense > 0 then 1.0
    else if income <= 0 then 0.0
    else RMin(1.0, RMax(0.0, (expense as real) / (income as real)))
  }

  /** `Math.round`: the nearest integer, halves rounded up. */
  function JsRound(x: real): (n: int)
    ensures (n as real) - 0.5 <= x < (n as real) + 0.5
  {
    (x + 0.5).Floor
  }

  /** The donut's fill: all blue, all red, or purple for the spent percentage and blue for the rest. */
  datatype Donut = AllBlue | AllRed | Split(purplePct: int)

  function DonutFill(income: int, expense: int): (d: Donut)
    ensures d == AllBlue <==> expense <= 0
    ensures d == AllRed <==> expense > 0 && expense > income
    ensures d.Split? ==> 0 < expense <= income && 0 <= d.purplePct <= 100
    ensures d.Split? ==>
      (d.purplePct as real) - 0.5 <= 100.0 * (expense as real) / (income as real) < (d.purplePct as real) + 0.5
    ensures d.Split? && expense == income ==> d.purplePct == 100
  {
    if expense <= 0 then AllBlue
    else if expense > income then AllRed
    else
      SpentPercent(income, expense);
      Split(JsRound(SpentRatio(income, expense) * 100.0))
  }

  /** The rounded percentage of a ratio in (0, 1] is the nearest whole percent, in 0..100. */
  lemma SpentPercent(income: int, expense: int)
    requires 0 < expense <= income
    ensures var pct := JsRound(SpentRatio(income, expense) * 100.0);
      0 <= pct <= 100
      && (pct as real) - 0.5 <= 100.0 * (expense as real) / (income as real) < (pct as real) + 0.5
      && (expense == income ==> pct == 100)
  {
    var e, i := expense as real, income as real;
    var ratio := SpentRatio(income, expense);
    assert ratio * i == e;
    assert ratio == e / i;
    var x := ratio * 100.0;
    assert x == 100.0 * e / i;
    assert 0.0 <= x <= 100.0;
    var pct := JsRound(x);
    assert (pct as real) < 100.5 && (pct as real) > -0.5;
    if expense == income {
      assert x == 100.0;
    }
  }

  datatype BalanceLabel = Remaining | OverBudget

  /** "Remaining" under a non-negative balance, "Over budget" otherwise. */
  function Label(income: int, expense: int): (l: BalanceLabel)
    ensures l == Remaining <==> income - expense >= 0
    ensures l == OverBudget <==> expense > income
  {
    var remaining := income - expense;
    if remaining >= 0 then Remaining else OverBudget
  }

  /** The page's shown month and the totals it holds. */
  class SummaryView {
    var year: int
    var month: int
    var income: int
    var expense: int
    var loading: bool

    /** Opens on the month the clock gives (passed in). */
    constructor (nowYear: int, nowMonth: int)
      ensures year == nowYear && month == nowMonth
      ensures income == 0 && expense == 0 && !loading
    {
      year, month := nowYear, nowMonth;
      income, expense := 0, 0;
      loading := false;
    }

    /**
     * `loadTotals`: the shown month's rows are fetched from `store` (the
     * store answers `storeOk`); on an error both totals are reset to 0.
     */
    method LoadTotals(store: seq<Row>, storeOk: bool)
      modifies this
      ensures year == old(year) && month == old(month) && !loading
      ensures var data := SelectInRange(store, MonthRange(year, month));
        if storeOk then
          income == SumAmounts(Filter(data, IsIncome)) && expense == SumAmounts(Filter(data, IsNotIncome))
        else income == 0 && expense == 0
    {
      loading := true;
      if !storeOk {
        income, expense := 0, 0;
      } else {
        var data := SelectInRange(store, MonthRange(year, month));
        var inc, exp := AccumulateTotals(data);
        income, expense := inc, exp;
      }
      loading := false;
    }

    /** `go(delta)`: move the shown month. */
    method Go(delta: int)
      modifies this
      ensures YearMonth(year, month) == ShiftMonth(old(year), old(month), delta)
      ensures income == old(income) && expense == old(expense) && loading == old(loading)
    {
      var ym := ShiftMonth(year, month, delta);
      year, month := ym.year, ym.month;
    }
  }
}
