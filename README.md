# Budget tracker ledger (free tier)

A Dafny model of the ledger behind the free budget-tracker page `app.py`. In the
source this logic is inline script code between widget calls. It is lifted out here
and stated as:

- **Categories** (`categories.dfy`). The three transaction types (Income, Expense,
  Saving), the fixed category list of each type, and the rule that picks the
  category pre-selected in the entry form. That rule takes the category last used
  for the type when it is still allowed, and otherwise the first allowed one.
- **Budget** (`budget.dfy`). The guarded append. A submitted entry goes through three
  checks in a fixed order: the amount must be positive, the ledger must hold fewer
  than `MaxEntriesFree` (20) rows, and the entry's month and year must be today's.
  Only when all three pass is the row appended and its category remembered for its
  type. `Check` is that if/elif chain. `FirstFailure` is an independent reading of
  it: the first failing check of a list. The session state as a value is `State`,
  one submission is `Apply`, and a whole session from empty is `Replay`. The class
  `Ledger` holds the two session fields (the row sequence and the map of last-used
  categories) and changes them in place in `Add`. It also keeps a ghost record of
  the "today" under which each row was stored.
- **Summaries** (`summaries.dfy`). The per-type totals. Each is computed the way the
  source does it: filter by type, then sum the amounts. The net balance is income
  minus expense. The available balance is income minus expense minus saving. A
  single-pass definition `KindSum` is the reference the totals are proved against.
- **Display** (`display.dfy`). The read-time view: a copy of the rows sorted by date,
  newest first. The summary is computed over that sorted copy, as in the source.
  Nothing is shown for an empty ledger.

Amounts are integer cents. Dates are `(year, month, day)` values. "Today" is a
parameter of `Add`; the clock is never read.

Two points follow the code rather than a fuller ledger design:

- The code never checks that the category belongs to its type's list. Only the
  selector restricts it. So there is no "invalid category" rejection.
- The code sorts with the library's default sort, which is not stable. So no
  tie order is claimed.

## Model

| member | source | states |
|---|---|---|
| Categories.CategoriesFor | app.py:52-56 | each type has a non-empty list of distinct categories that ends in "Other" |
| Categories.DefaultCategory | app.py:57-61 | the pre-selected category is always allowed for the type; it is the remembered one when that is allowed, and the first category otherwise |
| Categories.DefaultCategoryRemembers | app.py:59-61 | once an allowed category is remembered for a type, it becomes that type's default |
| Categories.DefaultCategoryIndependent | app.py:59-61 | remembering a category for one type does not change any other type's default |
| Budget.Check | app.py:96-102 | a submission is accepted exactly when amount > 0, fewer than 20 rows are stored, and the entry is in today's month and year |
| Budget.FirstFailure | app.py:96-102 | a reported rejection is one of the listed checks, and that check fails |
| Budget.FirstFailureIsFirst | app.py:96-102 | a guard list rejects with the check at position n when that check fails and all earlier ones pass |
| Budget.FirstFailureAccepts | app.py:96-102 | a guard list accepts exactly when none of its checks fails |
| Budget.CheckIsFirstFailure | app.py:96-102 | the chain's verdict is the first failing check in the order amount, entry count, date |
| Budget.RejectedChangesNothing | app.py:95-102 | a rejected submission leaves both the rows and the remembered categories unchanged |
| Budget.AcceptedAppendsOne | app.py:103-114 | an accepted submission adds one row equal to the entry at the end, keeps the earlier rows in order, remembers its category for its type, and keeps every other type's entry |
| Budget.DefaultAfterAccepted | app.py:114 | after an accepted entry with an allowed category, that category becomes its type's default and no other default changes |
| Budget.ApplyPreservesInv | app.py:93-102 | a submission keeps the row count at or below 20 and every stored amount positive |
| Budget.Apply | app.py:95-114 | one submission changes the state exactly when it is rejected by no check; it then adds one row, otherwise none, and the earlier rows stay as they were |
| Budget.Replay | app.py:11-115 | after any sequence of submissions from an empty session, there are at most 20 rows, no more rows than submissions, and all amounts are positive |
| Budget.ReplayRowsInMonth | app.py:100-101 | every stored row is a submitted entry dated in the month and year of "today" at its submission |
| Budget.TotalsAfterAccepted | app.py:124-126 | an accepted entry raises its own type's total by its amount and leaves the other totals unchanged |
| Budget.ReplayTotals | app.py:124-128 | in any reachable session the three totals are non-negative and add up to the sum of all amounts |
| Budget.Ledger.constructor | app.py:11-18 | a new session has no rows and no remembered categories |
| Budget.Ledger.Add | app.py:95-115 | the outcome is the chain's verdict; the new state is the one-submission step of the old; the ledger invariant holds, including that every row is in the month of its insertion day |
| Summaries.OfKind | app.py:124-126 | the type filter keeps only rows of that type, all taken from the ledger, and is no longer than the ledger |
| Summaries.OfKindKeepsAll | app.py:124-126 | the type filter keeps every row of that type, as many times as it occurs, and nothing else |
| Summaries.SumAmounts | app.py:124-126 | the Amount column sum is at least one cent per row when all amounts are positive |
| Summaries.Total | app.py:124-126 | a type total, computed as filter then sum, equals the single-pass sum of that type's amounts |
| Summaries.Summarize | app.py:124-128 | income, expense and saving are the sums of the amounts of that type's rows; net = income - expense and available = income - expense - saving = net - saving |
| Summaries.FilterSumIsKindSum | app.py:124-126 | summing the filtered rows equals the single-pass sum of per-row contributions |
| Summaries.TotalAfterAppend | app.py:124-126 | appending a row adds its amount to its own type's total only |
| Summaries.KindSumPermutation | app.py:124-126 | a per-type sum does not depend on row order |
| Summaries.TotalPermutation | app.py:124-126 | a per-type total is the same for any reordering of the rows |
| Summaries.SummarizePermutation | app.py:119-128 | all five figures are the same for any reordering of the rows |
| Summaries.TotalsPartition | app.py:124-126 | the three type totals add up to the sum of all amounts |
| Summaries.TotalSign | app.py:124-126 | with positive amounts a total is never negative, and it is positive exactly when a row of that type exists |
| Display.Insert | app.py:121 | inserting into a newest-first sequence keeps it newest-first and adds exactly that row |
| Display.SortByDateDesc | app.py:119-121 | the view is newest-first and a permutation of the stored rows |
| Display.Render | app.py:118-128 | nothing is shown exactly when the ledger is empty; otherwise the table is a newest-first permutation of the rows, and its figures equal the summary of the stored rows |

## Left out

- Every widget call: selectors, the date picker, the form, metrics, the data table, columns, expanders and all page text. These are rendering only.
- Currency formatting and the type-icon column. These are presentational only.
- Floating-point amounts and the library sum. Amounts are integer cents, so float drift is not modelled.
- The clock and date parsing. "Today" is a parameter. The source reads the clock twice in one condition, which could straddle midnight; the model uses one value.
- Display.SortByDateDesc: states no order among rows with equal dates, because the library's default sort is not stable.
- The `["Other"]` fallback of the category lookup. It cannot be reached, because the type is a closed three-value type here, as the selector makes it.
- The minimum of 0.01 on the amount input. That is widget-level; the model keeps the code's own `amount <= 0` guard for any integer.
- Remembered type and date selections, `clear_on_submit`, and the form widget keys. These are form state only.
- CSV export and reset. They exist only in the other variant of the app, which is not part of this model.
