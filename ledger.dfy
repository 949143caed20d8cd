/**
 * The rows of the `transactions` table as the pages read them, and the list
 * operations (`Array.prototype.filter`, a sum by `reduce`) they are built from.
 * Amounts are integer cents.
 */
module Ledger {
  import opened Wrappers
  import opened Calendar

  /** `kind`: "income", "expense", or any other text the store might hold. */
  datatype Kind = Income | Expense | OtherKind(name: string)

  datatype Mode = OneTime | Installments | Recurring

  /** One ledger record, with the columns the pages select. */
  datatype Row = Row(
    id: string,
    txDate: Date,
    amount: int,
    kind: Kind,
    mode: Mode,
    seriesId: Option<string>,
    note: Option<string>,
    installmentNo: Option<int>,
    installmentsTotal: Option<int>,
    originalAmount: Option<int>,
    categoryId: Option<string>)

  /** `s.filter(p)`: the elements that satisfy p, in their original order. */
  function Filter<T(!new)>(s: seq<T>, p: T -> bool): (r: seq<T>)
    ensures |r| <= |s|
    ensures forall x :: x in r <==> x in s && p(x)
  {
    if s == [] then [] else (if p(s[0]) then [s[0]] else []) + Filter(s[1..], p)
  }

  /** Filtering distributes over concatenation. */
  lemma {:induction false} FilterAppend<T(!new)>(a: seq<T>, b: seq<T>, p: T -> bool)
    ensures Filter(a + b, p) == Filter(a, p) + Filter(b, p)
  {
    if a == [] {
      assert a + b == b;
    } else {
      assert (a + b)[0] == a[0] && (a + b)[1..] == a[1..] + b;
      FilterAppend(a[1..], b, p);
    }
  }

  /**
   * Filtering keeps every occurrence of a kept element and drops every
   * occurrence of the others: nothing else changes, duplicates included.
   */
  lemma {:induction false} FilterMultiset<T(!new)>(s: seq<T>, p: T -> bool)
    ensures forall x :: multiset(Filter(s, p))[x] == if p(x) then multiset(s)[x] else 0
  {
    if s != [] {
      FilterMultiset(s[1..], p);
      assert s == [s[0]] + s[1..];
      assert multiset(s) == multiset{s[0]} + multiset(s[1..]);
    }
  }

  /** `a` is obtained from `b` by deleting elements, keeping the order of the rest. */
  predicate IsSubsequence<T(==)>(a: seq<T>, b: seq<T>) {
    if a == [] then true
    else if b == [] then false
    else (a[0] == b[0] && IsSubsequence(a[1..], b[1..])) || IsSubsequence(a, b[1..])
  }

  /** A filter keeps the surviving elements in their original order. */
  lemma {:induction false} FilterIsSubsequence<T(!new)>(s: seq<T>, p: T -> bool)
    ensures IsSubsequence(Filter(s, p), s)
  {
    if s != [] {
      FilterIsSubsequence(s[1..], p);
      var f := Filter(s[1..], p);
      if p(s[0]) {
        assert Filter(s, p) == [s[0]] + f;
        assert ([s[0]] + f)[1..] == f;
      } else {
        assert Filter(s, p) == f;
      }
    }
  }

  /** A filter that no element passes is empty. */
  lemma FilterNone<T(!new)>(s: seq<T>, p: T -> bool)
    requires forall x :: x in s ==> !p(x)
    ensures Filter(s, p) == []
  {
  }

  /** Filtering twice is filtering once by the conjunction of both predicates. */
  lemma {:induction false} FilterFilter<T(!new)>(s: seq<T>, p: T -> bool, q: T -> bool, pq: T -> bool)
    requires forall x :: pq(x) == (p(x) && q(x))
    ensures Filter(Filter(s, p), q) == Filter(s, pq)
  {
    if s != [] {
      FilterFilter(s[1..], p, q, pq);
      var head := if p(s[0]) then [s[0]] else [];
      FilterAppend(head, Filter(s[1..], p), q);
      if p(s[0]) { assert [s[0]][1..] == []; }
    }
  }

  /** Sum of the amounts, `rows.reduce((s, r) => s + r.amount, 0)`. */
  function SumAmounts(rows: seq<Row>): int {
    if rows == [] then 0 else rows[0].amount + SumAmounts(rows[1..])
  }

  lemma {:induction false} SumAmountsAppend(a: seq<Row>, b: seq<Row>)
    ensures SumAmounts(a + b) == SumAmounts(a) + SumAmounts(b)
  {
    if a == [] {
      assert a + b == b;
    } else {
      assert (a + b)[0] == a[0] && (a + b)[1..] == a[1..] + b;
      SumAmountsAppend(a[1..], b);
    }
  }

  /**
   * Splitting a list by a predicate and its negation splits its sum: the
   * rows that pass and the rows that fail add up to the whole.
   */
  lemma {:induction false} SumPartition(rows: seq<Row>, p: Row -> bool, q: Row -> bool)
    requires forall r :: q(r) == !p(r)
    ensures SumAmounts(Filter(rows, p)) + SumAmounts(Filter(rows, q)) == SumAmounts(rows)
  {
    if rows != [] {
      SumPartition(rows[1..], p, q);
      var hp := if p(rows[0]) then [rows[0]] else [];
      var hq := if q(rows[0]) then [rows[0]] else [];
      assert Filter(rows, p) == hp + Filter(rows[1..], p);
      assert Filter(rows, q) == hq + Filter(rows[1..], q);
      SumAmountsAppend(hp, Filter(rows[1..], p));
      SumAmountsAppend(hq, Filter(rows[1..], q));
      assert [rows[0]][1..] == [];
    }
  }

  predicate IsIncome(r: Row) {
    r.kind == Income
  }

  predicate IsExpense(r: Row) {
    r.kind == Expense
  }

  predicate IsNotIncome(r: Row) {
    r.kind != Income
  }

  predicate IsOtherKind(r: Row) {
    r.kind.OtherKind?
  }

  /** `tx_date >= start && tx_date < end`: the rows a range query returns, in store order. */
  function SelectInRange(store: seq<Row>, range: Range): (rows: seq<Row>)
    ensures forall r :: r in rows <==> r in store && InRange(r.txDate, range)
  {
    Filter(store, (r: Row) => InRange(r.txDate, range))
  }
}
