# Household ledger: series generation and month views, modelled in Dafny

This project models the ledger logic of a household finance web app. It covers five parts:

- Calendar-month arithmetic: `daysInMonth` and `addMonths`.
- The "add transaction" form, which turns one intent (one-time, installments or recurring) into the batch of records it inserts.
- The monthly details page: its month range, category filter, totals, per-mode delete policy and local patch after an edit.
- The monthly summary page: its month navigation, totals loop, spent ratio, donut colours and balance label.
- Shared support: the ISO string form of dates.

Dates are `(year, month, day)` triples and money is integer cents. The ISO-date module proves that, for four-digit years, comparing `YYYY-MM-DD` strings gives the same order as comparing the triples lexicographically. The details page relies on that order where it compares `tx_date >= monthStart` in JavaScript, after deleting a recurring series from a month on. The month queries' `gte`/`lt` filters are evaluated by the store. The model takes those filters as date comparisons (`Ledger.SelectInRange`).

Files, one module each:

- `jsmath.dfy`: `Math.floor(a/b)` and JavaScript's truncating `%`, related to Dafny's Euclidean operators.
- `calendar.dfy`: dates, month lengths and `addMonths`.
- `isodate.dfy`: ISO text and string order.
- `ledger.dfy`: the row type, `filter` and sums.
- `add_transaction.dfy`: the form and series generation.
- `monthly_details.dfy`: the details page.
- `income_expenses.dfy`: the summary page.
- `wrappers.dfy`: Option and Result.

Outside inputs become parameters:

- the signed-in user;
- the `crypto.randomUUID()` series id;
- the answer of each `confirm()` dialog;
- whether each store call succeeds;
- the rows the store holds;
- the current month at page load.

Behaviour of the code that is easy to misread, and how the model treats it:

- `daysInMonth` uses the JavaScript `Date` constructor, and that constructor reads a year in 0..99 as 1900 + y. The model keeps this rule (`Calendar.JsFullYear`). It changes one month length: February of year 0. It also changes what `shiftMonth` returns for two-digit years.
- An installment plan whose total has fewer cents than the count produces zero-amount records. For example, 2 cents over 3 months gives 0, 0, 2. So amounts are not always positive: `AddTransaction.InstallmentAmountsPositive`.
- Series records are dated from the start date, `addMonths(date, i)`, not from one another. A record is one month after the previous one only when the start day is at most 28. For example, Jan 31 gives Feb 28 then Mar 31.
- A missing category is not a validation message: `selectedCat.id` throws a TypeError, which the model reports as `NoCategory`. The user lookup happens before any of the form's checks.
- The summary page counts every row whose kind is not `income` as expense. The details page counts only `expense` rows. The two agree exactly when no row has another kind (`IncomeExpenses.SummaryVersusDetails`).

## Model

| member | source | states |
|---|---|---|
| `JsMath.FloorDivBounds` | src/components/AddTransactionModal.jsx:15 | `Math.floor(a/b)` is the integer quotient rounded toward minus infinity, for either sign of the divisor |
| `JsMath.PositiveModulo12` | src/components/AddTransactionModal.jsx:16 | `((x % 12) + 12) % 12` with JavaScript's truncating `%` is the Euclidean remainder by 12 for every x, negative included |
| `Calendar.DaysInMonth` | src/components/AddTransactionModal.jsx:6-9 | a month has 28 to 31 days, never more than its Gregorian length |
| `Calendar.JsLeapYearAgrees` | src/components/AddTransactionModal.jsx:8 | outside year 0, the Date constructor's year has the same leap-year status and month lengths as the year itself |
| `Calendar.AddMonthsTarget` | src/components/AddTransactionModal.jsx:14-21 | the result month is in 1..12, the year is `Y + floor((M-1+n)/12)`, and the month index advances by exactly n |
| `Calendar.AddMonthsDay` | src/components/AddTransactionModal.jsx:17-18 | the day is `min(D, daysInMonth(target))`, so it never overflows into the next month; a real date stays a real date |
| `Calendar.AddMonthsZero` | src/components/AddTransactionModal.jsx:11-22 | adding 0 months returns any real date outside year 0 unchanged |
| `Calendar.AddMonthsZeroYearZero` | src/components/AddTransactionModal.jsx:8 | the exception: 0000-02-29 plus 0 months is 0000-02-28, because the Date constructor reads year 0 as 1900 |
| `Calendar.AddMonthsCompose` | src/components/AddTransactionModal.jsx:11-22 | for a start day of at most 28, adding a months then b months equals adding a + b months |
| `Calendar.AddMonthsInverse` | src/components/AddTransactionModal.jsx:11-22 | for a start day of at most 28, adding n months then minus n months returns the start (negative n is supported) |
| `Calendar.AddMonthsExamples` | src/components/AddTransactionModal.jsx:11-22 | 2024-01-31 + 1 = 2024-02-29, 2023-01-31 + 1 = 2023-02-28, 2024-11-15 + 2 = 2025-01-15 |
| `Calendar.MonthStartOrder` | src/pages/MonthlyDetails.jsx:149 | a real date is on or after the first of a month exactly when its (year, month) is not earlier |
| `IsoDate.DigitsOrder` | src/components/AddTransactionModal.jsx:19-21 | zero-padded fixed-width digit strings compare like their numbers and spell them uniquely |
| `IsoDate.IsoOrder` | src/pages/MonthlyDetails.jsx:160 | for four-digit years, `<` on ISO strings is date order and equal strings are equal dates |
| `IsoDate.IsoLess` | src/pages/MonthlyDetails.jsx:160 | for four-digit years, `<` on two ISO texts holds exactly when the first date is earlier |
| `IsoDate.IsoInjective` | src/pages/MonthlyDetails.jsx:160 | two four-digit-year dates have the same ISO text exactly when they are the same date |
| `IsoDate.MonthStartText` | src/pages/MonthlyDetails.jsx:149 | `tx_date.slice(0, 7) + "-01"` is the ISO text of the first day of that date's month |
| `Ledger.Filter` | src/pages/MonthlyDetails.jsx:116 | `filter` keeps exactly the elements satisfying the predicate and never lengthens the list |
| `Ledger.FilterMultiset` | src/pages/MonthlyDetails.jsx:144 | a filter keeps every occurrence of a kept row and drops every occurrence of the others |
| `Ledger.FilterIsSubsequence` | src/pages/MonthlyDetails.jsx:116 | a filter keeps the survivors in their original order |
| `Ledger.SelectInRange` | src/pages/MonthlyDetails.jsx:82-83 | the range query returns exactly the store's rows with `start <= tx_date < end` |
| `Ledger.SumPartition` | src/pages/IncomeExpenses.jsx:60-64 | the sums of the rows that pass a predicate and of those that fail add up to the whole sum |
| `AddTransaction.SaveSucceedsIffCanSave` | src/components/AddTransactionModal.jsx:83-89 | with a signed-in user, a save yields records exactly when `canSave` holds: a category, a date, and a positive amount and count for the mode |
| `AddTransaction.PerInstallmentBounds` | src/components/AddTransactionModal.jsx:74-80 | for a non-zero total and count, the preview is the floor of T / n for either sign of n |
| `AddTransaction.PerInstallmentMatches` | src/components/AddTransactionModal.jsx:74-80 | the previewed installment equals every generated installment except the last |
| `AddTransaction.InstallmentSplit` | src/components/AddTransactionModal.jsx:130-134 | installments 0..n-2 are `floor(T/n)`; the last adds the remainder `T - floor(T/n)*n`, which lies in [0, n) |
| `AddTransaction.InstallmentSum` | src/components/AddTransactionModal.jsx:129-146 | n >= 1 installments of total T give exactly n records whose amounts add up to exactly T |
| `AddTransaction.InstallmentNumbering` | src/components/AddTransactionModal.jsx:133-145 | record i has `installment_no = i+1`, `installments_total = n`, `tx_date = addMonths(date, i)`, the shared series id and `original_amount = T` |
| `AddTransaction.InstallmentAmountsPositive` | src/components/AddTransactionModal.jsx:130-134 | for a positive total all installments are non-negative, and all are positive exactly when T >= n |
| `AddTransaction.InstallmentExample` | src/components/AddTransactionModal.jsx:130-134 | 10000 cents over 3 installments gives 3333, 3333, 3334 |
| `AddTransaction.SeriesMonthly` | src/components/AddTransactionModal.jsx:135 | when the start day is at most 28, each series record is dated exactly one month after the previous one |
| `AddTransaction.RecurringShape` | src/components/AddTransactionModal.jsx:149-163 | n months give n recurring records, each with amount = original amount = the per-month amount, dated `addMonths(date, i)`, in one series, adding up to n times the month's amount |
| `AddTransaction.SaveBatchShape` | src/components/AddTransactionModal.jsx:108-164 | a successful save gives one record without a series for one_time; otherwise as many records as the count, all in the new series, and installment amounts add up to the total |
| `AddTransaction.ValidationRejects` | src/components/AddTransactionModal.jsx:110-153 | a non-positive amount, total, installment count, per-month amount or month count fails with the error for that field, before any record exists |
| `AddTransaction.AddTransactionModal.constructor` | src/components/AddTransactionModal.jsx:33-51 | the form opens as one_time with the default date, 3 installments, 6 months, nothing typed and nothing selected |
| `AddTransaction.AddTransactionModal.HandleSave` | src/components/AddTransactionModal.jsx:91-179 | on a validation error, that error is shown and nothing is inserted; otherwise the whole batch is inserted in one call and the dialog closes, or a failed insert is shown; `saving` ends false |
| `MonthlyDetails.MonthRangeSelectsMonth` | src/pages/MonthlyDetails.jsx:23-35 | a real date is in `monthRange(y, m0)` exactly when its year is y and its month is m0 + 1 |
| `MonthlyDetails.MonthRangeIsOneMonth` | src/pages/MonthlyDetails.jsx:23-35 | the range starts on the first of the month and ends exactly one calendar month later |
| `MonthlyDetails.DecemberRange` | src/pages/MonthlyDetails.jsx:28-29 | December's range is [Y-12-01, (Y+1)-01-01): it keeps Y-12-31 and excludes (Y+1)-01-01 |
| `MonthlyDetails.FetchedRowsAreTheMonth` | src/pages/MonthlyDetails.jsx:82-83 | the page fetches exactly the stored rows dated in the shown month |
| `MonthlyDetails.VisibleRowsSpec` | src/pages/MonthlyDetails.jsx:114-117 | with a category filter, exactly the rows of that category remain, with their multiplicities and in their order |
| `MonthlyDetails.ComputeTotals` | src/pages/MonthlyDetails.jsx:120-128 | the remaining amount is always income minus expense |
| `MonthlyDetails.TotalsAppend` | src/pages/MonthlyDetails.jsx:120-128 | income, expense and remaining add up over any split of the rows |
| `MonthlyDetails.TotalsOfOneRow` | src/pages/MonthlyDetails.jsx:120-128 | a row adds its amount to income if it is an income row, to expense if it is an expense row, and to neither otherwise; so it raises remaining by its amount, lowers it by its amount, or leaves it |
| `MonthlyDetails.TotalsSplitByCategory` | src/pages/MonthlyDetails.jsx:114-128 | the month's income and expense are the filtered category's totals plus those of all the other rows |
| `MonthlyDetails.DeleteSeriesSpec` | src/pages/MonthlyDetails.jsx:136-145 | deleting an installment removes every row of its series and keeps every other row, with its multiplicity and in order |
| `MonthlyDetails.DeleteSeriesFromMonthSpec` | src/pages/MonthlyDetails.jsx:148-162 | deleting a recurring row removes exactly the series rows from the first of its month on; earlier rows of the series and rows of other series are untouched |
| `MonthlyDetails.DeleteByIdSpec` | src/pages/MonthlyDetails.jsx:166-174 | deleting a one-time row removes exactly the rows with its id and keeps all others in order |
| `MonthlyDetails.DeclinedDeleteKeepsRows` | src/pages/MonthlyDetails.jsx:137-138 | a declined confirmation or a store error leaves the rows unchanged in all three modes |
| `MonthlyDetails.DeleteRemovesTarget` | src/pages/MonthlyDetails.jsx:136-174 | a confirmed delete of a listed row removes that row whatever its mode, so the list gets shorter |
| `MonthlyDetails.TrashButtonNeverDeletes` | src/pages/MonthlyDetails.jsx:134 | as written, the trash button's call (which always carries `_stopOpen`) leaves the rows unchanged even when confirmed, while the corrected delete removes the row |
| `MonthlyDetails.PatchRowsSpec` | src/pages/MonthlyDetails.jsx:189-193 | patching keeps the length and the ids, replaces the rows with the updated id and leaves every other row as it was; patching twice is patching once |
| `MonthlyDetails.PatchAbsentRow` | src/pages/MonthlyDetails.jsx:189-193 | patching a row that is not listed changes nothing |
| `MonthlyDetails.MonthlyDetailsView.constructor` | src/pages/MonthlyDetails.jsx:54-60 | the page starts with no rows and no category filter |
| `MonthlyDetails.MonthlyDetailsView.HandleDelete` | src/pages/MonthlyDetails.jsx:130-178 | the rows become the per-mode delete result (unchanged if declined or if the store fails); the filter is untouched |
| `MonthlyDetails.MonthlyDetailsView.PatchRow` | src/pages/MonthlyDetails.jsx:189-193 | the rows become the patched list, the same length as before |
| `IncomeExpenses.MonthRangesAgree` | src/pages/IncomeExpenses.jsx:20-26 | the summary page's month range equals the details page's range, December rollover included |
| `IncomeExpenses.ShiftMonthSpec` | src/pages/IncomeExpenses.jsx:28-32 | the result month is in 0..11 and `12*year + month = 12*y + m0 + delta` (with a two-digit y read as 19yy) |
| `IncomeExpenses.ShiftMonthExamples` | src/pages/IncomeExpenses.jsx:28-32 | (y, 11, +1) gives (y+1, 0) and (y, 0, -1) gives (y-1, 11) |
| `IncomeExpenses.ShiftMonthTwoDigitYear` | src/pages/IncomeExpenses.jsx:29 | a year in 0..99 is read as 19yy: (5, 0, +1) gives (1905, 1) |
| `IncomeExpenses.ShiftMonthInverse` | src/pages/IncomeExpenses.jsx:80 | going forward delta months and then back delta months returns to the start month |
| `IncomeExpenses.ShiftMonthMatchesAddMonths` | src/pages/IncomeExpenses.jsx:28-32 | moving the shown month agrees with the form's `addMonths` applied to the first of the month |
| `IncomeExpenses.AccumulateTotals` | src/pages/IncomeExpenses.jsx:60-64 | `inc` is the sum of the income rows, `exp` the sum of all other rows, and `inc + exp` is the sum of all amounts |
| `IncomeExpenses.AccumulateStep` | src/pages/IncomeExpenses.jsx:63 | row i adds its amount to the income sum of the rows before it if it is income, and to the sum of the rest otherwise |
| `IncomeExpenses.IncomeAndRestCoverAll` | src/pages/IncomeExpenses.jsx:60-64 | the income sum plus the non-income sum is the sum of all amounts |
| `IncomeExpenses.SummaryVersusDetails` | src/pages/IncomeExpenses.jsx:63 | the summary's income equals the details page's; its expense also counts rows of any other kind, and the two agree when there are none |
| `IncomeExpenses.SpentRatio` | src/pages/IncomeExpenses.jsx:84-88 | the ratio is in [0, 1]; it is 1 when income <= 0 < expense and 0 when both are <= 0; otherwise ratio * income = expense, capped at 1 |
| `IncomeExpenses.JsRound` | src/pages/IncomeExpenses.jsx:93 | `Math.round` gives the integer within half a unit, ties rounding up |
| `IncomeExpenses.SpentPercent` | src/pages/IncomeExpenses.jsx:93 | the donut's percentage is the nearest whole percent of expense / income, in 0..100, and 100 when they are equal |
| `IncomeExpenses.DonutFill` | src/pages/IncomeExpenses.jsx:90-95 | all blue exactly when expense <= 0; all red exactly when expense > income; otherwise a split at the rounded spent percentage |
| `IncomeExpenses.Label` | src/pages/IncomeExpenses.jsx:181 | "Remaining" exactly when income - expense >= 0, otherwise "Over budget" |
| `IncomeExpenses.SummaryView.constructor` | src/pages/IncomeExpenses.jsx:36-45 | the page opens on the given current month with zero totals |
| `IncomeExpenses.SummaryView.LoadTotals` | src/pages/IncomeExpenses.jsx:50-74 | after a load, income and expense are the sums over the shown month's stored rows (income rows and all others); on a store error both are 0 |
| `IncomeExpenses.SummaryView.Go` | src/pages/IncomeExpenses.jsx:80 | navigation sets the shown month to `shiftMonth(year, month, delta)` and leaves the totals as they are |

## Left out

- Store access (select, insert, update, delete, auth), React state hooks, routing, the `alert`/`confirm` dialogs and rendering are I/O and UI. Store answers, the user, confirmations and the series id are parameters.
- The two page-load effects that fetch rows and categories. The model states only which rows the month query selects (`Ledger.SelectInRange`). The store's `order("tx_date")` is not modelled.
- `toCents`/`fromCents`, `Number(...)` parsing, NaN, and amounts with more than two decimals: every amount is taken as exact integer cents. Counts are taken as integers; `Array.from` would truncate a fractional count.
- The non-floored installment preview in the form is display only, so it is not modelled. `Intl.NumberFormat`, `fmt`, `monthLabel`, `heDate` and `toLocaleString` are locale formatting, also not modelled.
- `getYmFromQuery`'s clock fallback and the `defaultDate` from `toISOString` depend on the clock and time zone. The model takes a date or month as given.
- `handleTxSaved` (a `Date` parse) and the `onSaved` callbacks that `handleSave` sends for each record are not modelled. `HandleSave` returns the batch that was inserted instead.
- `EditTransactionModal`'s payload building and update call are store I/O. Only its result, handed to `patchRow`, is modelled.
- Sorting and a per-mode expense filter: neither `MonthlyDetails.jsx` nor `IncomeExpenses.jsx` implements them. The `Budget` page the app routes to is not part of this model.
- `AddTransaction.SaveSucceedsIffCanSave` and `AddTransaction.AddTransactionModal.HandleSave`: with no date chosen, the model stops with `MissingDate` before the insert. The code does not check the date. It builds the batch with an empty `tx_date` (or `NaN-NaN-NaN` from `addMonths`), sends it to the store, and shows the error the store returns. The Save button is disabled in that state, because `canSave` requires a date.
- `IncomeExpenses.AccumulateTotals` (and `MonthlyDetails.ComputeTotals`, `IncomeExpenses.Label`): both pages add `Number(r.amount)` decimal values in binary floating point. The model adds exact cents. The results can differ at break-even. For example, income 0.30 against expenses 0.10 and 0.20 gives an expense of 0.30000000000000004, so the page shows "Over budget" and an all-red donut. The model gives "Remaining" and a split at 100%.
- `IncomeExpenses.DonutFill` (and `IncomeExpenses.SpentRatio`, `IncomeExpenses.SpentPercent`): the page divides and rounds the ratio in binary floating point, while the model uses exact rationals. The two can differ at a half-percent tie. For example, income 2.00 and expense 0.57 give 28.499999999999996, which the page rounds to 28. The model gives a split at 29.
- `IncomeExpenses.SummaryView.LoadTotals`: the load is modelled as one uninterrupted step over the month shown when it runs. The page's load awaits the store and has no liveness guard, unlike the loads on the other two pages. The effect starts a new load on every month change. So when an earlier, slower load answers after a later one, it overwrites the later month's totals, and the page shows the earlier month's sums under the later month's title. The model does not capture this interleaving.
- `IsoDate.IsoOrder`: holds for years 0..9999. `addMonths` writes the year without padding, so for years below 1000 its string differs from the four-digit ISO text.
- `Calendar.DaysInMonth`: JavaScript `Date` range limits (about ±275,000 years) are not modelled.
- `MonthlyDetails.PatchRowsSpec`: `{ ...r, ...updated }` is modelled with a complete row, as the page's only caller passes one. A partial update object is not modelled, and neither is the joined `category` object.
- `MonthlyDetails.MonthRangeSelectsMonth`: stated for month0 in 0..11. A query string month outside 1..12 gives a range string that is not a real date. How the store treats that string is not part of this model.

## Findings

| source | as written | input that shows it | evidently intended | confidence | as-written member | corrected member |
|---|---|---|---|---|---|---|
| src/pages/MonthlyDetails.jsx:134 | `handleDelete` returns at once when the row has `_stopOpen`, and the only caller, the trash button (line 311), always passes `{ ...r, _stopOpen: true }` | any listed row, trash button clicked: no confirmation is asked and nothing is deleted | `_stopOpen` only keeps the edit dialog from opening (line 301 already stops the click from bubbling), and the delete then proceeds by mode | high, not executed | MonthlyDetails.TrashButtonNeverDeletes | MonthlyDetails.DeleteRemovesTarget |

In the model, `MonthlyDetails.DeleteEffectAsWritten` is the code as written. `MonthlyDetails.MonthlyDetailsView.HandleDelete` implements the corrected `MonthlyDetails.DeleteEffect`, and the rest of the model uses that.
