/**
 * The monthly details page: the month's half-open date range, the category
 * filter, the income/expense/remaining totals, and the per-mode delete
 * policy and local patch that update the page's `rows` list.
 */
module MonthlyDetails {
  import opened Wrappers
  import opened Calendar
  import opened Ledger

  /** `monthRange(year, month0)`: [first of the month, first of the next month), December rolling over. */
  function MonthRange(year: int, month0: int): Range {
    var nextY := if month0 == 11 then year + 1 else year;
    var nextM := if month0 == 11 then 1 else month0 + 2;
    Range(Date(year, month0 + 1, 1), Date(nextY, nextM, 1))
  }

  /** A real date is in the range of month0 of year exactly when it lies in that month. */
  lemma MonthRangeSelectsMonth(year: int, month0: int, d: Date)
    requires 0 <= month0 <= 11 && ValidDate(d)
    ensures InRange(d, MonthRange(year, month0)) <==> d.year == year && d.month == month0 + 1
  {
  }

  /** The range starts on the first of the month and ends exactly one calendar month later. */
  lemma MonthRangeIsOneMonth(year: int, month0: int)
    requires 0 <= month0 <= 11
    ensures MonthRange(year, month0).start == Date(year, month0 + 1, 1)
    ensures MonthRange(year, month0).end == AddMonths(MonthRange(year, month0).start, 1)
  {
    AddMonthsTarget(Date(year, month0 + 1, 1), 1);
    AddMonthsDay(Date(year, month0 + 1, 1), 1);
  }

  /** December: [Y-12-01, (Y+1)-01-01) keeps Y-12-31 and excludes (Y+1)-01-01. */
  lemma DecemberRange(y: int)
    ensures MonthRange(y, 11) == Range(Date(y, 12, 1), Date(y + 1, 1, 1))
    ensures InRange(Date(y, 12, 31), MonthRange(y, 11))
    ensures !InRange(Date(y + 1, 1, 1), MonthRange(y, 11))
  {
  }

  /** The rows the page fetches for a month: the store's rows in that month's range. */
  lemma FetchedRowsAreTheMonth(store: seq<Row>, year: int, month0: int)
    requires 0 <= month0 <= 11
    requires forall r :: r in store ==> ValidDate(r.txDate)
    ensures forall r :: r in SelectInRange(store, MonthRange(year, month0)) <==>
      r in store && r.txDate.year == year && r.txDate.month == month0 + 1
  {
    forall r | r in store {
      MonthRangeSelectsMonth(year, month0, r.txDate);
    }
  }

  // ---------------------------------------------------------------------------
  // Category filter and totals

  /** `visibleRows`: all rows with no filter, else the rows of that category. */
  function VisibleRows(rows: seq<Row>, filterCatId: Option<string>): seq<Row> {
    match filterCatId
    case None => rows
    case Some(c) => Filter(rows, (r: Row) => r.categoryId == Some(c))
  }

  /**
   * With a filter, exactly the rows of the category remain, each as often as
   * before, in their original order.
   */
  lemma VisibleRowsSpec(rows: seq<Row>, c: string)
    ensures var v := VisibleRows(rows, Some(c));
      (forall r :: r in v <==> r in rows && r.categoryId == Some(c))
      && (forall r :: multiset(v)[r] == if r.categoryId == Some(c) then multiset(rows)[r] else 0)
      && IsSubsequence(v, rows)
  {
    FilterMultiset(rows, (r: Row) => r.categoryId == Some(c));
    FilterIsSubsequence(rows, (r: Row) => r.categoryId == Some(c));
  }

  datatype Totals = Totals(income: int, expense: int, remaining: int)

  /** `totals`: income rows, expense rows, and their difference; other kinds count in neither. */
  function ComputeTotals(visible: seq<Row>): (t: Totals)
    ensures t.remaining == t.income - t.expense
  {
    var income := SumAmounts(Filter(visible, IsIncome));
    var expense := SumAmounts(Filter(visible, IsExpense));
    Totals(income, expense, income - expense)
  }

  /** Totals add up over a split of the rows, so each row contributes its amount to its own kind only. */
  lemma TotalsAppend(a: seq<Row>, b: seq<Row>)
    ensures ComputeTotals(a + b).income == ComputeTotals(a).income + ComputeTotals(b).income
    ensures ComputeTotals(a + b).expense == ComputeTotals(a).expense + ComputeTotals(b).expense
    ensures ComputeTotals(a + b).remaining == ComputeTotals(a).remaining + ComputeTotals(b).remaining
  {
    FilterAppend(a, b, IsIncome);
    FilterAppend(a, b, IsExpense);
    SumAmountsAppend(Filter(a, IsIncome), Filter(b, IsIncome));
    SumAmountsAppend(Filter(a, IsExpense), Filter(b, IsExpense));
  }

  /** A single row adds its amount to income or to expense according to its kind, to neither otherwise. */
  lemma TotalsOfOneRow(r: Row)
    ensures ComputeTotals([r]).income == (if r.kind == Income then r.amount else 0)
    ensures ComputeTotals([r]).expense == (if r.kind == Expense then r.amount else 0)
    ensures ComputeTotals([r]).remaining
      == (if r.kind == Income then r.amount else if r.kind == Expense then -r.amount else 0)
  {
    assert [r][1..] == [];
  }

  lemma {:induction false} FilterCommute<T(!new)>(s: seq<T>, p: T -> bool, q: T -> bool)
    ensures Filter(Filter(s, p), q) == Filter(Filter(s, q), p)
  {
    if s != [] {
      FilterCommute(s[1..], p, q);
      var head := if p(s[0]) then [s[0]] else [];
      FilterAppend(head, Filter(s[1..], p), q);
      var head2 := if q(s[0]) then [s[0]] else [];
      FilterAppend(head2, Filter(s[1..], q), p);
      if p(s[0]) { assert [s[0]][1..] == []; }
      if q(s[0]) { assert [s[0]][1..] == []; }
    }
  }

  /**
   * The month's income is the filtered category's income plus the income of
   * all other rows (and likewise for expense).
   */
  lemma TotalsSplitByCategory(rows: seq<Row>, c: string)
    ensures var inCat := (r: Row) => r.categoryId == Some(c);
      ComputeTotals(rows).income
        == ComputeTotals(VisibleRows(rows, Some(c))).income
         + ComputeTotals(Filter(rows, (r: Row) => !inCat(r))).income
      && ComputeTotals(rows).expense
        == ComputeTotals(VisibleRows(rows, Some(c))).expense
         + ComputeTotals(Filter(rows, (r: Row) => !inCat(r))).expense
  {
    var inCat := (r: Row) => r.categoryId == Some(c);
    var outCat := (r: Row) => !inCat(r);
    FilterCommute(rows, inCat, IsIncome);
    FilterCommute(rows, outCat, IsIncome);
    SumPartition(Filter(rows, IsIncome), inCat, outCat);
    FilterCommute(rows, inCat, IsExpense);
    FilterCommute(rows, outCat, IsExpense);
    SumPartition(Filter(rows, IsExpense), inCat, outCat);
  }

  // ---------------------------------------------------------------------------
  // Delete policy

  /** installments: every row of the target's series goes. */
  function DeleteSeries(rows: seq<Row>, target: Row): seq<Row> {
    Filter(rows, (r: Row) => r.seriesId != target.seriesId)
  }

  /** recurring: the target's series from the first day of the target's month on. */
  function DeleteSeriesFromMonth(rows: seq<Row>, target: Row): seq<Row> {
    var monthStart := MonthStart(target.txDate);
    Filter(rows, (r: Row) => !(r.seriesId == target.seriesId && !Before(r.txDate, monthStart)))
  }

  /** one_time: the row with the target's id. */
  function DeleteById(rows: seq<Row>, target: Row): seq<Row> {
    Filter(rows, (r: Row) => r.id != target.id)
  }

  /**
   * The rows left after a delete: unchanged when the confirmation is declined
   * or the store reports an error, otherwise per the target's mode.
   */
  function DeleteEffect(rows: seq<Row>, target: Row, confirmed: bool, storeOk: bool): seq<Row> {
    if !confirmed || !storeOk then rows
    else match target.mode
      case Installments => DeleteSeries(rows, target)
      case Recurring => DeleteSeriesFromMonth(rows, target)
      case OneTime => DeleteById(rows, target)
  }

  /** Installments: exactly the rows of other series survive, each as often as before, in order. */
  lemma DeleteSeriesSpec(rows: seq<Row>, target: Row)
    ensures var out := DeleteSeries(rows, target);
      (forall r :: r in out <==> r in rows && r.seriesId != target.seriesId)
      && (forall r: Row :: r.seriesId != target.seriesId ==> multiset(out)[r] == multiset(rows)[r])
      && IsSubsequence(out, rows)
  {
    FilterMultiset(rows, (r: Row) => r.seriesId != target.seriesId);
    FilterIsSubsequence(rows, (r: Row) => r.seriesId != target.seriesId);
  }

  /**
   * Recurring: a row goes exactly when it is in the target's series and not
   * before the first of the target's month; earlier rows of the series and
   * all rows of other series stay, each as often as before, in order.
   */
  lemma DeleteSeriesFromMonthSpec(rows: seq<Row>, target: Row)
    requires forall r :: r in rows ==> ValidDate(r.txDate)
    ensures var out := DeleteSeriesFromMonth(rows, target);
      var t := target.txDate;
      (forall r :: r in out <==>
         (r in rows
          && !(r.seriesId == target.seriesId
               && (r.txDate.year > t.year || (r.txDate.year == t.year && r.txDate.month >= t.month)))))
      && (forall r: Row :: r.seriesId != target.seriesId ==> multiset(out)[r] == multiset(rows)[r])
      && (forall r: Row :: Before(r.txDate, MonthStart(t)) ==> multiset(out)[r] == multiset(rows)[r])
      && IsSubsequence(out, rows)
  {
    var p := (r: Row) => !(r.seriesId == target.seriesId && !Before(r.txDate, MonthStart(target.txDate)));
    FilterMultiset(rows, p);
    FilterIsSubsequence(rows, p);
    forall r | r in rows {
      MonthStartOrder(r.txDate, target.txDate);
    }
  }

  /** One-time: exactly the rows with another id survive, each as often as before, in order. */
  lemma DeleteByIdSpec(rows: seq<Row>, target: Row)
    ensures var out := DeleteById(rows, target);
      (forall r :: r in out <==> r in rows && r.id != target.id)
      && (forall r: Row :: r.id != target.id ==> multiset(out)[r] == multiset(rows)[r])
      && IsSubsequence(out, rows)
  {
    FilterMultiset(rows, (r: Row) => r.id != target.id);
    FilterIsSubsequence(rows, (r: Row) => r.id != target.id);
  }

  /** A declined confirmation or a store error leaves the rows as they were, in every mode. */
  lemma DeclinedDeleteKeepsRows(rows: seq<Row>, target: Row, storeOk: bool)
    ensures DeleteEffect(rows, target, false, storeOk) == rows
    ensures DeleteEffect(rows, target, true, false) == rows
  {
  }

  /** A confirmed, stored delete of a listed row removes that row, whatever its mode. */
  lemma DeleteRemovesTarget(rows: seq<Row>, target: Row)
    requires target in rows && target.txDate.day >= 1
    ensures target !in DeleteEffect(rows, target, true, true)
    ensures |DeleteEffect(rows, target, true, true)| < |rows|
  {
    var out := DeleteEffect(rows, target, true, true);
    var p := match target.mode
      case Installments => (r: Row) => r.seriesId != target.seriesId
      case Recurring => (r: Row) => !(r.seriesId == target.seriesId && !Before(r.txDate, MonthStart(target.txDate)))
      case OneTime => (r: Row) => r.id != target.id;
    assert out == Filter(rows, p);
    assert !p(target);
    FilterMultiset(rows, p);
    assert multiset(out)[target] == 0 < multiset(rows)[target];
    MultisetFilterSmaller(rows, p, target);
  }

  lemma MultisetFilterSmaller(rows: seq<Row>, p: Row -> bool, x: Row)
    requires x in rows && !p(x)
    ensures |Filter(rows, p)| < |rows|
  {
    FilterMultiset(rows, p);
    var out := Filter(rows, p);
    assert multiset(out) <= multiset(rows) by {
      forall y ensures multiset(out)[y] <= multiset(rows)[y] { }
    }
    var d := multiset(rows) - multiset(out);
    assert multiset(rows) == multiset(out) + d;
    assert d[x] > 0;
    assert |d| > 0;
    assert |multiset(out)| < |multiset(rows)|;
  }

  /** `handleDelete` as written: it returns at once when the row carries `_stopOpen`. */
  function DeleteEffectAsWritten(rows: seq<Row>, target: Row, stopOpen: bool, confirmed: bool, storeOk: bool): seq<Row> {
    if stopOpen then rows else DeleteEffect(rows, target, confirmed, storeOk)
  }

  /**
   * The trash button passes its row with `_stopOpen: true`, so the delete as
   * written never removes anything, even when confirmed; for a listed row the
   * corrected delete does remove it.
   */
  lemma TrashButtonNeverDeletes(rows: seq<Row>, target: Row)
    requires target in rows && target.txDate.day >= 1
    ensures DeleteEffectAsWritten(rows, target, true, true, true) == rows
    ensures DeleteEffect(rows, target, true, true) != rows
  {
    DeleteRemovesTarget(rows, target);
  }

  // ---------------------------------------------------------------------------
  // Local patch after an edit

  /**
   * `patchRow(updated)`: every row with the updated row's id becomes
   * `{ ...r, ...updated }`; the updated row is the full row the store
   * returned, so the merge is that row.
   */
  function PatchRows(rows: seq<Row>, updated: Row): seq<Row> {
    seq(|rows|, i requires 0 <= i < |rows| => if rows[i].id == updated.id then updated else rows[i])
  }

  /** Patching keeps the length, the ids and every row with another id; a second patch changes nothing. */
  lemma PatchRowsSpec(rows: seq<Row>, updated: Row)
    ensures var out := PatchRows(rows, updated);
      |out| == |rows|
      && (forall i :: 0 <= i < |rows| ==> out[i].id == rows[i].id)
      && (forall i :: 0 <= i < |rows| && rows[i].id != updated.id ==> out[i] == rows[i])
      && (forall i :: 0 <= i < |rows| && rows[i].id == updated.id ==> out[i] == updated)
      && PatchRows(out, updated) == out
  {
  }

  /** Patching a row that is not on the page leaves the page as it is. */
  lemma PatchAbsentRow(rows: seq<Row>, updated: Row)
    requires forall i :: 0 <= i < |rows| ==> rows[i].id != updated.id
    ensures PatchRows(rows, updated) == rows
  {
  }

  /** The page's list of rows and its category filter (`rows`, `filterCatId`). */
  class MonthlyDetailsView {
    var rows: seq<Row>
    var filterCatId: Option<string>

    constructor ()
      ensures rows == [] && filterCatId == None
    {
      rows := [];
      filterCatId := None;
    }

    /**
     * `handleDelete(row)` with the delete going ahead: confirmation, the
     * store's delete, then the matching `setRows(filter)`. `confirmed` is the
     * dialog's answer and `storeOk` the store's.
     */
    method HandleDelete(row: Row, confirmed: bool, storeOk: bool)
      modifies this
      ensures rows == DeleteEffect(old(rows), row, confirmed, storeOk)
      ensures filterCatId == old(filterCatId)
    {
      if row.mode == Installments {
        if !confirmed || !storeOk {
          return;
        }
        rows := DeleteSeries(rows, row);
        return;
      }
      if row.mode == Recurring {
        if !confirmed || !storeOk {
          return;
        }
        rows := DeleteSeriesFromMonth(rows, row);
        return;
      }
      if !confirmed || !storeOk {
        return;
      }
      rows := DeleteById(rows, row);
    }

    /** `patchRow(updated)`. */
    method PatchRow(updated: Row)
      modifies this
      ensures rows == PatchRows(old(rows), updated)
      ensures |rows| == |old(rows)|
      ensures filterCatId == old(filterCatId)
    {
      rows := PatchRows(rows, updated);
    }
  }
}
