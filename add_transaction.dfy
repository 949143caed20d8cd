/**
 * The "add transaction" form: which inputs may be saved, and how one intent
 * becomes the batch of ledger records sent to the store in a single insert.
 * Amounts are integer cents; the conversion of typed decimals to cents is
 * taken as given.
 */
module AddTransaction {
  import opened Wrappers
  import opened JsMath
  import opened Calendar
  import opened Ledger

  /** A record as handed to the store's insert (the store assigns the id). */
  datatype Draft = Draft(
    userId: string,
    kind: Kind,
    categoryId: string,
    note: Option<string>,
    mode: Mode,
    amount: int,
    txDate: Date,
    seriesId: Option<string>,
    originalAmount: Option<int>,
    installmentsTotal: Option<int>,
    installmentNo: Option<int>)

  /** The fields every record of one save shares (`base` in the source). */
  datatype Base = Base(userId: string, kind: Kind, categoryId: string, note: Option<string>)

  /**
   * The form's state: `amount` is the one-time amount or the per-month amount,
   * `originalAmount` the installment total, all in cents.
   */
  datatype Form = Form(
    kind: Kind,
    mode: Mode,
    date: Option<Date>,
    amount: int,
    note: string,
    selectedCat: Option<string>,
    originalAmount: int,
    installments: int,
    monthsCount: int)

  /** Why a save fails; each validation failure names its field. */
  datatype SaveError =
    | NoUser
    | NoCategory
    | AmountNotPositive
    | TotalNotPositive
    | InstallmentCountNotPositive
    | PerMonthNotPositive
    | MonthCountNotPositive
    | MissingDate
    | InsertFailed

  /** The save button is enabled only for a complete, positive form. */
  predicate CanSave(f: Form) {
    if f.selectedCat.None? || f.date.None? then false
    else match f.mode
      case OneTime => f.amount > 0
      case Installments => f.originalAmount > 0 && f.installments > 0
      case Recurring => f.amount > 0 && f.monthsCount > 0
  }

  /** The previewed installment: `floor(total / n)` cents, or 0 while either field is empty or zero. */
  function PerInstallmentAmount(f: Form): int {
    var total := f.originalAmount;
    var n := f.installments;
    if total == 0 || n == 0 then 0 else FloorDiv(total, n)
  }

  /** `note || null`. */
  function NoteOrNull(note: string): Option<string> {
    if note == "" then None else Some(note)
  }

  /** Amount of installment i of n: `floor(total / n)`, and the last one also takes the remainder. */
  function InstallmentAmount(total: int, n: int, i: int): int
    requires n > 0
  {
    var baseEach := FloorDiv(total, n);
    var remainder := total - baseEach * n;
    baseEach + (if i == n - 1 then remainder else 0)
  }

  function OneTimeRecords(base: Base, amount: int, date: Date): seq<Draft> {
    [Draft(base.userId, base.kind, base.categoryId, base.note, OneTime, amount, date,
           None, None, None, None)]
  }

  /** `Array.from({ length: n }, (_, i) => …)` of the installments branch. */
  function InstallmentRecords(base: Base, total: int, n: nat, date: Date, seriesId: string): seq<Draft> {
    seq(n, i requires 0 <= i < n =>
      Draft(base.userId, base.kind, base.categoryId, base.note, Installments,
            InstallmentAmount(total, n, i), AddMonths(date, i),
            Some(seriesId), Some(total), Some(n), Some(i + 1)))
  }

  /** `Array.from({ length: n }, (_, i) => …)` of the recurring branch. */
  function RecurringRecords(base: Base, perMonth: int, n: nat, date: Date, seriesId: string): seq<Draft> {
    seq(n, i requires 0 <= i < n =>
      Draft(base.userId, base.kind, base.categoryId, base.note, Recurring,
            perMonth, AddMonths(date, i),
            Some(seriesId), Some(perMonth), None, None))
  }

  /**
   * The batch a save submits, or the error it throws first: the signed-in
   * user, the selected category, then the mode's own checks.
   */
  function BuildRecords(f: Form, user: Option<string>, seriesId: string): Result<seq<Draft>, SaveError> {
    if user.None? then Err(NoUser)
    else if f.selectedCat.None? then Err(NoCategory)
    else
      var base := Base(user.value, f.kind, f.selectedCat.value, NoteOrNull(f.note));
      match f.mode
      case OneTime =>
        if f.amount <= 0 then Err(AmountNotPositive)
        else if f.date.None? then Err(MissingDate)
        else Ok(OneTimeRecords(base, f.amount, f.date.value))
      case Installments =>
        if f.originalAmount <= 0 then Err(TotalNotPositive)
        else if f.installments <= 0 then Err(InstallmentCountNotPositive)
        else if f.date.None? then Err(MissingDate)
        else Ok(InstallmentRecords(base, f.originalAmount, f.installments, f.date.value, seriesId))
      case Recurring =>
        if f.amount <= 0 then Err(PerMonthNotPositive)
        else if f.monthsCount <= 0 then Err(MonthCountNotPositive)
        else if f.date.None? then Err(MissingDate)
        else Ok(RecurringRecords(base, f.amount, f.monthsCount, f.date.value, seriesId))
  }

  /** Sum of the amounts of a batch. */
  function SumDrafts(ds: seq<Draft>): int {
    if ds == [] then 0 else SumDrafts(ds[..|ds| - 1]) + ds[|ds| - 1].amount
  }

  // ---------------------------------------------------------------------------
  // Installments

  /** Every installment but the last is `floor(T / n)`; the last adds the remainder, which lies in [0, n). */
  lemma InstallmentSplit(total: int, n: int, i: int)
    requires n > 0 && 0 <= i < n
    ensures var remainder := total - (total / n) * n;
      0 <= remainder < n
      && InstallmentAmount(total, n, i) == (if i < n - 1 then total / n else total / n + remainder)
  {
  }

  /** Every installment before the last is exactly `floor(T / n)`. */
  lemma InstallmentBeforeLast(total: int, n: int, i: int)
    requires n > 0 && 0 <= i < n - 1
    ensures InstallmentAmount(total, n, i) == total / n
  {
  }

  /** A batch whose every amount is q sums to |ds| * q. */
  lemma {:induction false} SumDraftsConstant(ds: seq<Draft>, q: int)
    requires forall i :: 0 <= i < |ds| ==> ds[i].amount == q
    ensures SumDrafts(ds) == |ds| * q
  {
    if ds != [] {
      var init := ds[..|ds| - 1];
      assert forall i :: 0 <= i < |init| ==> init[i] == ds[i];
      SumDraftsConstant(init, q);
      assert |ds| * q == |init| * q + q;
    }
  }

  /** The first k installments (k < n) add up to k * floor(T / n). */
  lemma InstallmentPrefixSum(base: Base, total: int, n: nat, date: Date, sid: string, k: nat)
    requires 0 < n && k < n
    ensures SumDrafts(InstallmentRecords(base, total, n, date, sid)[..k]) == k * (total / n)
  {
    var prefix := InstallmentRecords(base, total, n, date, sid)[..k];
    forall i | 0 <= i < k
      ensures prefix[i].amount == total / n
    {
      InstallmentBeforeLast(total, n, i);
    }
    SumDraftsConstant(prefix, total / n);
  }

  /** An installment plan of n >= 1 parts has n records whose amounts add up to exactly T. */
  lemma InstallmentSum(base: Base, total: int, n: nat, date: Date, sid: string)
    requires n >= 1
    ensures |InstallmentRecords(base, total, n, date, sid)| == n
    ensures SumDrafts(InstallmentRecords(base, total, n, date, sid)) == total
  {
    var rs := InstallmentRecords(base, total, n, date, sid);
    var q := total / n;
    InstallmentPrefixSum(base, total, n, date, sid, n - 1);
    assert rs[..n - 1] == rs[..|rs| - 1];
    assert SumDrafts(rs[..n - 1]) == (n - 1) * q;
    assert rs[n - 1].amount == q + (total - q * n);
    assert (n - 1) * q + q == q * n;
  }

  /** Record i is installment i + 1 of n, dated i months after the start, in the shared series. */
  lemma InstallmentNumbering(base: Base, total: int, n: nat, date: Date, sid: string, i: int)
    requires 0 <= i < n
    ensures var r := InstallmentRecords(base, total, n, date, sid)[i];
      r.installmentNo == Some(i + 1) && r.installmentsTotal == Some(n)
      && r.txDate == AddMonths(date, i) && r.seriesId == Some(sid)
      && r.originalAmount == Some(total) && r.mode == Installments
      && r.userId == base.userId && r.kind == base.kind && r.categoryId == base.categoryId && r.note == base.note
  {
  }

  /**
   * With a positive total every installment is non-negative, and all of them
   * are positive exactly when the total has at least n cents.
   */
  lemma InstallmentAmountsPositive(base: Base, total: int, n: nat, date: Date, sid: string)
    requires total > 0 && n >= 1
    ensures var rs := InstallmentRecords(base, total, n, date, sid);
      (forall i :: 0 <= i < n ==> rs[i].amount >= 0)
      && ((forall i :: 0 <= i < n ==> rs[i].amount > 0) <==> total >= n)
  {
    var rs := InstallmentRecords(base, total, n, date, sid);
    QuotientSign(total, n);
    forall i | 0 <= i < n
      ensures rs[i].amount >= 0 && (total >= n ==> rs[i].amount > 0)
    {
      InstallmentSplit(total, n, i);
    }
    if total < n && n > 1 {
      InstallmentSplit(total, n, 0);
      assert rs[0].amount == 0;
    }
  }

  /** For positive T and n: floor(T / n) is non-negative, and at least 1 exactly when T >= n. */
  lemma QuotientSign(total: int, n: int)
    requires total > 0 && n > 0
    ensures total / n >= 0
    ensures total / n >= 1 <==> total >= n
  {
    var q, r := total / n, total % n;
    assert total == n * q + r && 0 <= r < n;
    if q < 0 {
      MulMonotone(n, q, -1);
      assert false;
    }
    if q >= 1 {
      MulMonotone(n, 1, q);
    }
  }

  lemma MulMonotone(n: int, a: int, b: int)
    requires n > 0 && a <= b
    ensures n * a <= n * b
  {
  }

  /** 100.00 in three installments is 33.33, 33.33 and 33.34. */
  lemma InstallmentExample(base: Base, date: Date, sid: string)
    ensures var rs := InstallmentRecords(base, 10000, 3, date, sid);
      |rs| == 3 && rs[0].amount == 3333 && rs[1].amount == 3333 && rs[2].amount == 3334
  {
  }

  /**
   * When the start day fits in every month, each record of a series is dated
   * exactly one calendar month after the previous one.
   */
  lemma SeriesMonthly(date: Date, i: nat)
    requires 1 <= date.month <= 12 && date.day <= 28
    ensures AddMonths(date, i + 1) == AddMonths(AddMonths(date, i), 1)
  {
    AddMonthsCompose(date, i, 1);
  }

  /** The preview equals every installment but the last, and is the floor of T / n for any signs. */
  lemma PerInstallmentMatches(f: Form, user: string, sid: string, i: int)
    requires f.originalAmount > 0 && f.installments > 0 && 0 <= i < f.installments - 1
    requires f.selectedCat.Some? && f.date.Some?
    ensures var base := Base(user, f.kind, f.selectedCat.value, NoteOrNull(f.note));
      InstallmentRecords(base, f.originalAmount, f.installments, f.date.value, sid)[i].amount
        == PerInstallmentAmount(f)
  {
  }

  /** The preview `floor(T / n)` brackets T between n * preview and the next multiple, for either sign of n. */
  lemma PerInstallmentBounds(f: Form)
    requires f.originalAmount != 0 && f.installments != 0
    ensures var p, t, n := PerInstallmentAmount(f), f.originalAmount, f.installments;
      (n > 0 ==> n * p <= t < n * p + n) && (n < 0 ==> n * p >= t > n * p + n)
  {
    FloorDivBounds(f.originalAmount, f.installments);
  }

  // ---------------------------------------------------------------------------
  // Recurring

  /**
   * A recurring plan of n months has n records, each of the per-month amount
   * (also kept as the original amount), dated i months after the start; they
   * add up to n times the month's amount.
   */
  lemma RecurringShape(base: Base, perMonth: int, n: nat, date: Date, sid: string)
    ensures var rs := RecurringRecords(base, perMonth, n, date, sid);
      |rs| == n
      && (forall i :: 0 <= i < n ==>
            rs[i].amount == perMonth && rs[i].originalAmount == Some(perMonth)
            && rs[i].txDate == AddMonths(date, i) && rs[i].seriesId == Some(sid)
            && rs[i].mode == Recurring && rs[i].installmentNo.None?)
      && SumDrafts(rs) == n * perMonth
  {
    var rs := RecurringRecords(base, perMonth, n, date, sid);
    SumDraftsConstant(rs, perMonth);
  }

  // ---------------------------------------------------------------------------
  // Saving

  /** With a signed-in user, a save produces records exactly when the form can be saved. */
  lemma SaveSucceedsIffCanSave(f: Form, user: Option<string>, sid: string)
    requires user.Some?
    ensures BuildRecords(f, user, sid).Ok? <==> CanSave(f)
  {
  }

  /**
   * A successful save: one record without a series for one_time, otherwise
   * as many records as the count, all in the one new series, and the
   * installment amounts add up to the total.
   */
  lemma SaveBatchShape(f: Form, user: Option<string>, sid: string)
    requires BuildRecords(f, user, sid).Ok?
    ensures var rs := BuildRecords(f, user, sid).value;
      match f.mode
      case OneTime =>
        |rs| == 1 && rs[0].seriesId.None? && rs[0].amount == f.amount && Some(rs[0].txDate) == f.date
      case Installments =>
        |rs| == f.installments && SumDrafts(rs) == f.originalAmount
        && (forall r :: r in rs ==> r.seriesId == Some(sid) && r.originalAmount == Some(f.originalAmount))
      case Recurring =>
        |rs| == f.monthsCount
        && (forall r :: r in rs ==> r.seriesId == Some(sid) && r.amount == f.amount)
  {
    var base := Base(user.value, f.kind, f.selectedCat.value, NoteOrNull(f.note));
    match f.mode
    case OneTime =>
    case Installments =>
      InstallmentSum(base, f.originalAmount, f.installments, f.date.value, sid);
    case Recurring =>
      RecurringShape(base, f.amount, f.monthsCount, f.date.value, sid);
  }

  /** A non-positive amount or count is reported, naming the field, before any record exists. */
  lemma ValidationRejects(f: Form, user: Option<string>, sid: string)
    requires user.Some? && f.selectedCat.Some?
    ensures f.mode == OneTime && f.amount <= 0 ==> BuildRecords(f, user, sid) == Err(AmountNotPositive)
    ensures f.mode == Installments && f.originalAmount <= 0 ==> BuildRecords(f, user, sid) == Err(TotalNotPositive)
    ensures f.mode == Installments && f.originalAmount > 0 && f.installments <= 0
      ==> BuildRecords(f, user, sid) == Err(InstallmentCountNotPositive)
    ensures f.mode == Recurring && f.amount <= 0 ==> BuildRecords(f, user, sid) == Err(PerMonthNotPositive)
    ensures f.mode == Recurring && f.amount > 0 && f.monthsCount <= 0
      ==> BuildRecords(f, user, sid) == Err(MonthCountNotPositive)
  {
  }

  /** The form component: its inputs and the `saving`/`err` state that `handleSave` sets. */
  class AddTransactionModal {
    var form: Form
    var saving: bool
    var err: Option<SaveError>
    var closed: bool

    /** The initial form: one_time, 3 installments, 6 months, nothing typed or selected. */
    constructor (initialKind: Kind, defaultDate: Date)
      ensures form == Form(initialKind, OneTime, Some(defaultDate), 0, "", None, 0, 3, 6)
      ensures !saving && err == None && !closed
    {
      form := Form(initialKind, OneTime, Some(defaultDate), 0, "", None, 0, 3, 6);
      saving := false;
      err := None;
      closed := false;
    }

    /**
     * `handleSave`: validate, build the batch, insert it in one call, and
     * close on success. `user` is the signed-in user, `seriesId` the id that
     * `crypto.randomUUID()` would give, `insertOk` the store's answer. The
     * returned batch is what the store now holds (empty on any failure).
     */
    method HandleSave(user: Option<string>, seriesId: string, insertOk: bool) returns (inserted: seq<Draft>)
      modifies this
      ensures form == old(form) && !saving
      ensures match BuildRecords(old(form), user, seriesId)
        case Err(e) => err == Some(e) && inserted == [] && closed == old(closed)
        case Ok(records) =>
          if insertOk then err == None && inserted == records && closed
          else err == Some(InsertFailed) && inserted == [] && closed == old(closed)
    {
      err := None;
      saving := true;
      inserted := [];
      var failure: Option<SaveError> := None;
      var records: seq<Draft> := [];
      if user.None? {
        failure := Some(NoUser);
      } else if form.selectedCat.None? {
        failure := Some(NoCategory);
      } else {
        var base := Base(user.value, form.kind, form.selectedCat.value, NoteOrNull(form.note));
        if form.mode == OneTime {
          if form.amount <= 0 {
            failure := Some(AmountNotPositive);
          } else if form.date.None? {
            failure := Some(MissingDate);
          } else {
            records := OneTimeRecords(base, form.amount, form.date.value);
          }
        }
        if form.mode == Installments {
          if form.originalAmount <= 0 {
            failure := Some(TotalNotPositive);
          } else if form.installments <= 0 {
            failure := Some(InstallmentCountNotPositive);
          } else if form.date.None? {
            failure := Some(MissingDate);
          } else {
            records := InstallmentRecords(base, form.originalAmount, form.installments, form.date.value, seriesId);
          }
        }
        if form.mode == Recurring {
          if form.amount <= 0 {
            failure := Some(PerMonthNotPositive);
          } else if form.monthsCount <= 0 {
            failure := Some(MonthCountNotPositive);
          } else if form.date.None? {
            failure := Some(MissingDate);
          } else {
            records := RecurringRecords(base, form.amount, form.monthsCount, form.date.value, seriesId);
          }
        }
      }
      if failure.None? && !insertOk {
        failure := Some(InsertFailed);
      }
      if failure.Some? {
        err := failure;
      } else {
        inserted := records;
        closed := true;
      }
      saving := false;
    }
  }
}
