# Daily budget ledger

A model of the day ledger of the daily budget app (`DailyBudgetApp.c`). A month is a list of
day records. Each day has a date, a fixed budget, a remaining amount, and its own list of
transactions.

- `createMonthRecord` builds days 1..N. Each day gets an equal share of the monthly budget as both
  its budget and its remaining amount.
- `addTransaction` is the only operation that changes anything:
  - it finds the first day carrying the date;
  - it puts the transaction, with its category cut to 49 characters, at the head of that day's
    list;
  - it then lowers the day's remaining amount;
  - on overspend, it sets that amount to zero and takes
    `deficit / (daysInMonth - date)` from every later day, clamping each at zero.
- The display functions look a day up in the same way.
- The monthly summary adds up the budgets and the transaction amounts.

The model has two modules.

- `Ledger` (`ledger.dfy`) describes the ledger as values:
  - the `Day` and `Transaction` records;
  - `NewMonth`, the month as created;
  - `IndexOf`, the lookup;
  - `AfterAdd`, the ledger after `addTransaction`;
  - the month totals;
  - the lemmas that state what adding a transaction does and does not change.
- `Budget` (`month_record.dfy`) holds the class `MonthRecord`. It keeps the day records in an
  array whose elements are overwritten in place, as the C code overwrites node fields. Its
  methods follow the C loops and are proved against the functions of `Ledger`.

The divisor `daysInMonth - date` is a parameter of the call, not a count of the days walked.
`DivisorCountsLaterDays` shows that it equals the number of later days when the month lists
days 1..N in order (`Contiguous`) and `daysInMonth` is N. The constructor establishes that
layout and `AddTransaction` keeps it (`Valid`). The program's `main` passes the same
`daysInMonth` to both calls.

Amounts are real numbers. The results are therefore exact, where the program's `float`
arithmetic rounds.

## Model

| member | source | states |
|---|---|---|
| Budget.MonthRecord.constructor | DailyBudgetApp.c:21-41 | builds days 1..daysInMonth in order, each with budget and remaining equal to monthlyBudget / daysInMonth and no transactions; the result satisfies `Valid` (dates 1..N) |
| Ledger.NewMonth | DailyBudgetApp.c:21-41 | the month as created: daysInMonth days carrying dates 1..daysInMonth in order, none with a transaction, each with remaining equal to budget and with daysInMonth budgets making up the monthly budget |
| Ledger.NewMonthTotals | DailyBudgetApp.c:21-41 | a new month's budgets add up to the monthly budget, its remaining amounts do too, and nothing is spent |
| Ledger.NewMonthWellFormed | DailyBudgetApp.c:25-30 | a new month lists dates 1..N in order, and with a budget that is not negative every day starts with 0 <= remaining <= budget |
| Ledger.IndexOf | DailyBudgetApp.c:47-49 | the lookup finds a position whose day carries the date and that comes before every other such day; it finds nothing exactly when no day carries the date |
| Ledger.ContiguousLookup | DailyBudgetApp.c:83-86 | in a month listing days 1..N, date d is found at position d - 1, and dates outside 1..N are not found |
| Budget.MonthRecord.FindDay | DailyBudgetApp.c:83-86 | the list walk returns the first position carrying the date, or nothing; under `Valid` that is position date - 1 exactly for dates 1..N |
| Budget.MonthRecord.AddTransaction | DailyBudgetApp.c:44-79 | reports whether the date was found; the new array contents are `AfterAdd` of the old contents; the layout 1..N is kept, and so is 0 <= remaining <= budget on every day when the amount is not negative |
| Budget.MonthRecord.SpreadDeficit | DailyBudgetApp.c:71-76 | for the share that addTransaction passes, which is not negative, the walk over the later days leaves the array as `Spread` of its old contents: every day from the given position on is lowered by the share and clamped at zero, the others are unchanged |
| Ledger.AfterAdd | DailyBudgetApp.c:44-79 | the ledger after addTransaction: the first matching day gets the transaction prepended and its remaining lowered by the amount, or set to 0 on overspend; then, when daysInMonth - date > 0, every later day is lowered by the deficit / (daysInMonth - date) and clamped at 0; its contract states that the length is kept and that an unknown date changes nothing |
| Ledger.Charge | DailyBudgetApp.c:56-68 | the booked day keeps its date and budget, has the transaction at the head of its list, and has a remaining amount of at least zero and at least remaining - amount, equal to it when the amount fits and never above the old remaining when the amount and the old remaining are both not negative |
| Ledger.Absorb | DailyBudgetApp.c:73-74 | a later day keeps its date, budget and transactions; its remaining is at least zero and at least remaining - share, equal to it when the share fits, and never above the old remaining when the share and the old remaining are both not negative |
| Ledger.Spread | DailyBudgetApp.c:71-76 | the walk keeps the length, leaves the days before the start untouched and changes no day's transactions |
| Ledger.Truncate | DailyBudgetApp.c:59-60 | the stored category is a prefix of the given one, of length min(length, 49) |
| Ledger.AddUnknownDate | DailyBudgetApp.c:47-54 | a date that matches no day leaves the whole ledger unchanged |
| Ledger.AddFrame | DailyBudgetApp.c:56-62 | on a known date exactly one transaction (date, amount, truncated category) is prepended to the matching day's list; no other list, no date and no budget changes; the earlier days are untouched |
| Ledger.AddWithinRemaining | DailyBudgetApp.c:64-66 | when the amount fits, that day's remaining amount drops by the amount and no other day changes |
| Ledger.AddOverspend | DailyBudgetApp.c:67-77 | on overspend with daysInMonth - date > 0, the day's remaining amount becomes 0; every later day becomes max(0, remaining - (amount - old remaining) / (daysInMonth - date)); earlier days are untouched |
| Ledger.AddOverspendLastDay | DailyBudgetApp.c:68-69 | on overspend when daysInMonth - date <= 0, only the chosen day changes: its remaining amount becomes 0 and nothing is divided |
| Ledger.AddKeepsContiguous | DailyBudgetApp.c:44-79 | adding a transaction keeps a month that lists days 1..N in that layout |
| Ledger.AddKeepsBounded | DailyBudgetApp.c:64-76 | with an amount that is not negative, 0 <= remaining <= budget holds on every day afterwards if it held before |
| Ledger.DivisorCountsLaterDays | DailyBudgetApp.c:70-72 | in a month of days 1..daysInMonth, the divisor daysInMonth - date equals the number of days after the chosen one |
| Ledger.AddKeepsTotalBudget | DailyBudgetApp.c:44-79 | the month's total budget is unchanged by adding a transaction |
| Ledger.SpendingAfterAdd | DailyBudgetApp.c:56-62 | only the chosen day's spending changes, and it grows by the amount |
| Ledger.AddTotalSpent | DailyBudgetApp.c:44-79 | the month's total spent grows by the amount when the date is found, and by nothing otherwise |
| Ledger.AddWithinRemainingTotal | DailyBudgetApp.c:64-66 | without overspend, the month's total remaining drops by exactly the amount |
| Ledger.OverspendRemainings | DailyBudgetApp.c:67-77 | after an overspend that is spread, the remaining amounts are the old ones with the chosen day at 0 and each later day lowered by the share and clamped at 0 |
| Ledger.OverspendShape | DailyBudgetApp.c:67-77 | in a month of days 1..daysInMonth, an overspend before the last day zeroes position date - 1 and spreads the deficit in daysInMonth - date shares that add up to it |
| Ledger.OverspendTakesAtMostAmount | DailyBudgetApp.c:67-77 | in a month of days 1..daysInMonth, an overspend never takes more than the amount out of the total remaining; clamped and last-day deficits are dropped, not carried forward |
| Ledger.OverspendExactWithoutClamping | DailyBudgetApp.c:70-76 | when no later day falls below its share, the overspend takes exactly the amount out of the total remaining |
| Ledger.ZeroAndSpreadAtMost | DailyBudgetApp.c:68-75 | zeroing one entry and lowering the later ones by shares that make up the deficit, with clamping, lowers the sum by at most the amount |
| Ledger.RemainingLess | DailyBudgetApp.c:64-68 | replacing one day by a copy with less remaining lowers the month's total remaining by the difference |
| Ledger.SpentMore | DailyBudgetApp.c:56-62 | growing one day's spending by the amount grows the total spent by it |
| Ledger.ZeroAndSpreadExactly | DailyBudgetApp.c:68-75 | without clamping, the same step lowers the sum by exactly the amount |
| Ledger.OverspendExample | DailyBudgetApp.c:64-77 | 30 over 3 days, then 16 spent on day 1, leaves remaining amounts 0, 7, 7 |
| Budget.MonthRecord.RemainingBudget | DailyBudgetApp.c:82-92 | the value displayed is the remaining amount of the first day carrying the date; there is none exactly when no day carries it (under `Valid`: when the date is outside 1..N) |
| Budget.MonthRecord.Transactions | DailyBudgetApp.c:95-113 | the list displayed is the matching day's transactions, most recent first; there is none exactly when no day carries the date |
| Budget.MonthRecord.Summary | DailyBudgetApp.c:116-133 | total budget is the sum of the day budgets; total spent is the sum of all transaction amounts over all days; savings is their difference |
| Ledger.TotalBudget | DailyBudgetApp.c:117-121 | the sum of the day budgets, which is not negative when no budget is |
| Ledger.TotalSpent | DailyBudgetApp.c:117-126 | the day-by-day total of the transaction amounts equals the sum of the amounts of every transaction of the month |
| Ledger.SumLoweredAtMost | DailyBudgetApp.c:72-75 | lowering `count` entries by `c` each and clamping at zero lowers the sum by at most count * c |
| Ledger.SumLoweredExactly | DailyBudgetApp.c:72-75 | when no entry falls below `c`, the sum drops by exactly count * c |

## Left out

- `main`'s menu loop, `scanf` input and `printf` output (DailyBudgetApp.c:150-207) are not part
  of this model. The display functions are modelled by the values they print. The "Invalid
  date!" message is modelled as `found == false` or `None`.
- `freeMonthlyRecord` and the `malloc`/`free` calls are not modelled. They are memory management,
  and the lists are an array and sequences here.
- The `float` type is modelled as `real`. Rounding, overflow to infinity and NaN are not
  modelled.
- Budget.MonthRecord.constructor: requires `daysInMonth > 0`. For zero or a negative count the C
  code builds an empty list, after dividing by zero when the count is zero.
- Budget.MonthRecord: the day list is never relinked after creation, so it is an array of
  records. Pointer aliasing between nodes is not modelled.
- Ledger.Truncate: models `strncpy` into a 50-byte buffer as keeping the first 49 characters,
  where each Dafny `char` stands for one C byte (a multibyte character is several chars). A
  NUL byte inside the category, which would end the C string early, is not modelled.
- Ledger.AddKeepsBounded: requires an amount that is not negative. The C code accepts any
  amount, and a negative one can raise a day's remaining amount above its budget.
- Editing or deleting transactions, saving and loading, category totals, searches and alerts do
  not exist in `DailyBudgetApp.c`, so they are not modelled.
- New transactions go to the head of the day's list (most recent first), as the C code does.
  This model does not append them.
