# Expense tracker budget store, modelled in Dafny

This project models the core of a small expense tracker. The model has three parts:

- **the budget store**: the list of spending categories (each with a monthly budget) and the list of expenses, plus the operations that add, update and delete them;
- **the aggregation engine**: it buckets expenses into today, yesterday, this week, last week, this month and last month, and builds week-over-week and month-over-month reports per category;
- **the date-window predicates**: they decide which bucket an expense's date belongs to.

The model has four modules:

- `Sequences` (`sequences.dfy`) holds order-preserving filtering. Every removal and every query of the store is built on it.
- `Calendar` (`calendar.dfy`) models `utils/dateUtils.ts`:
  - An instant is an integer number of milliseconds since 1970-01-01T00:00 local time.
  - Days are floor divisions.
  - Weeks start on Sunday.
  - Months follow the proleptic Gregorian calendar through a days-from-civil conversion.
  - The clock reading `now` is an explicit parameter of each predicate.
- `Records` (`records.dfy`) holds the record shapes of `types.ts`.
- `Budget` (`budget.dfy`) models `hooks/useBudget.ts`:
  - The class `BudgetStore` holds the two lists as `seq` fields. Its methods replace those fields the way the hook's state setters do.
  - `GetSpendingSummary`, `GetCategorySpendingReport` and `PeriodTotals` keep the source's loops, which add amounts into the running totals.
  - Each of these is proved against a function: `Summary`, `Report` or `WindowTotal`.
  - Lemmas about those functions state what callers may rely on.

## Model

| member | source | states |
|---|---|---|
| Sequences.Filter | hooks/useBudget.ts:53-54 | the result holds exactly the kept elements, each as often as in the input, in input order |
| Sequences.FilterIdempotent | hooks/useBudget.ts:53-54 | filtering twice by one condition is filtering once |
| Calendar.IsToday | utils/dateUtils.ts:15-18 | inclusive membership between 00:00:00.000 and 23:59:59.999 of now's day; its meaning is stated by `Calendar.TodayIsSameDay` |
| Calendar.IsYesterday | utils/dateUtils.ts:20-23 | the same day interval taken around now minus one day; its meaning is stated by `Calendar.YesterdayIsDayBefore` |
| Calendar.IsThisWeek | utils/dateUtils.ts:25-28 | inclusive membership between the start of now's Sunday and the end of the following Saturday; its meaning is stated by `Calendar.ThisWeekIsSameWeek` |
| Calendar.IsLastWeek | utils/dateUtils.ts:30-35 | the same week interval taken around now minus seven days; its meaning is stated by `Calendar.LastWeekIsWeekBefore` |
| Calendar.IsThisMonth | utils/dateUtils.ts:37-40 | inclusive membership between the first instant of now's month and the last instant of its last day; its meaning is stated by `Calendar.ThisMonthIsSameMonth` |
| Calendar.IsLastMonth | utils/dateUtils.ts:42-47 | the same month interval taken around now minus one month; its meaning is stated by `Calendar.LastMonthIsMonthBefore` |
| Calendar.AddMonths | utils/dateUtils.ts:44-45 | the month step behind `subMonths`: the day of the month is kept, or clamped to the last day of a shorter target month, and the time of day is kept; its meaning is stated by `Calendar.AddMonthsMonth` |
| Calendar.Epoch | utils/dateUtils.ts:25-28 | day 0 is 1 January 1970, and it is numbered weekday 4 |
| Calendar.WeekdayAnchors | utils/dateUtils.ts:25-28 | the weekday numbering agrees with two known dates: 1 January 2024 is a Monday and 29 February 2000 a Tuesday |
| Calendar.MonthLength | utils/dateUtils.ts:37-40 | every month number spans the Gregorian number of days of its month, for every year |
| Calendar.FebruaryLength | utils/dateUtils.ts:37-40 | February has 29 days in leap years and 28 otherwise |
| Calendar.MonthOfDayBounds | utils/dateUtils.ts:37-40 | the computed month of a day starts on or before it and ends after it |
| Calendar.MonthOfDayUnique | utils/dateUtils.ts:37-40 | a day lies in exactly one month |
| Calendar.InMonthSpan | utils/dateUtils.ts:39 | an instant lies between a month's start and end, both inclusive, exactly when its month is that month |
| Calendar.AddMonthsMonth | utils/dateUtils.ts:44-45 | stepping `n` months from an instant lands in the month `n` away, keeps its time of day, and keeps its day of the month, clamped to the last day of a shorter target month |
| Calendar.TodayIsSameDay | utils/dateUtils.ts:15-18 | `isToday` holds exactly when the date is on the same day as now |
| Calendar.YesterdayIsDayBefore | utils/dateUtils.ts:20-23 | `isYesterday` holds exactly when the date is on the day before now |
| Calendar.ThisWeekIsSameWeek | utils/dateUtils.ts:25-28 | `isThisWeek` holds exactly when the date is in now's Sunday-to-Saturday week; that week starts on a Sunday and is seven days long |
| Calendar.LastWeekIsWeekBefore | utils/dateUtils.ts:30-35 | `isLastWeek` holds exactly when the date is in the week before now's |
| Calendar.ThisMonthIsSameMonth | utils/dateUtils.ts:37-40 | `isThisMonth` holds exactly when the date is in now's calendar month |
| Calendar.LastMonthIsMonthBefore | utils/dateUtils.ts:42-47 | `isLastMonth` holds exactly when the date is in the calendar month before now's |
| Calendar.NowWindows | utils/dateUtils.ts:15-47 | now itself is today, this week and this month, and not yesterday, last week or last month |
| Calendar.PeriodsDisjoint | utils/dateUtils.ts:15-47 | no date is both today and yesterday, both this and last week, or both this and last month |
| Calendar.TodayNests | utils/dateUtils.ts:15-18 | a date that is today is also this week and this month |
| Calendar.DayBeforeMonth | utils/dateUtils.ts:20-23 | the day before a day is in the same month or the one before |
| Calendar.YesterdayInWeeks | utils/dateUtils.ts:20-35 | yesterday is this week or last week |
| Calendar.YesterdayInMonths | utils/dateUtils.ts:20-47 | yesterday is this month or last month |
| Budget.DefaultCategories | hooks/useBudget.ts:7-12 | four categories with distinct ids whose budgets add up to 38000 |
| Budget.ReplaceCategory | hooks/useBudget.ts:48-50 | same length; each entry whose id is the updated one's becomes the update, every other entry is kept at its position |
| Budget.RemoveCategory | hooks/useBudget.ts:53 | no remaining category has the id; every other category is kept as often as before and in order |
| Budget.RemoveExpensesOf | hooks/useBudget.ts:54 | no remaining expense is filed under the category; every other expense is kept as often as before and in order |
| Budget.RemoveExpense | hooks/useBudget.ts:62-64 | no remaining expense has the id; every other expense is kept as often as before and in order |
| Budget.ExpensesOf | hooks/useBudget.ts:99 | exactly the category's expenses, each as often as before, in order |
| Budget.CategoryExpenses | hooks/useBudget.ts:66-68 | exactly the category's expenses dated in now's calendar month, in their order |
| Budget.BudgetStore.constructor | hooks/useBudget.ts:15-33 | the stored lists when present, otherwise the default categories and no expenses |
| Budget.BudgetStore.AddCategory | hooks/useBudget.ts:43-46 | appends the one new category and keeps the expenses; keeps every expense filed under an existing category; keeps ids distinct when the new id is unused |
| Budget.BudgetStore.UpdateCategory | hooks/useBudget.ts:48-50 | the categories become `ReplaceCategory` of the old ones; the id set, distinctness and the absence of orphaned expenses are kept |
| Budget.BudgetStore.DeleteCategory | hooks/useBudget.ts:52-55 | removes the category and, in cascade, its expenses; its id leaves the id set and nothing else does; distinctness and the absence of orphans are kept |
| Budget.BudgetStore.AddExpense | hooks/useBudget.ts:57-60 | the new expense is at index 0 and the old list follows unchanged; the list stays free of orphans exactly when the expense's category exists |
| Budget.BudgetStore.DeleteExpense | hooks/useBudget.ts:62-64 | the expenses become `RemoveExpense` of the old ones; the categories and the absence of orphans are kept |
| Budget.BudgetStore.GetSpendingSummary | hooks/useBudget.ts:70-92 | the single loop yields `Summary`: each bucket is the total over expenses whose date is in that window, each window checked on its own, and the budget total is the sum of all budgets |
| Budget.BudgetStore.GetCategorySpendingReport | hooks/useBudget.ts:94-132 | the loop over categories yields `Report`: one weekly and one monthly row per category, in category order |
| Budget.PeriodTotals | hooks/useBudget.ts:101-112 | the four running totals end as the category's totals this week, last week, this month and last month |
| Budget.WindowTotalSnoc | hooks/useBudget.ts:81-89 | appending an expense adds its amount to a window total exactly when its date is in the window |
| Budget.WindowTotalCons | hooks/useBudget.ts:57-60 | putting an expense in front adds its amount to a window total exactly when its date is in the window |
| Budget.WindowTotalPartition | hooks/useBudget.ts:52-64 | a window total splits between two complementary selections of the expenses |
| Budget.WindowTotalMonotone | hooks/useBudget.ts:81-89 | with non-negative amounts, a window contained in another has the smaller total |
| Budget.WindowTotalCovered | hooks/useBudget.ts:81-89 | with non-negative amounts, a window covered by two others has at most their combined total |
| Budget.WindowTotalDisjoint | hooks/useBudget.ts:81-89 | with non-negative amounts, two windows that share no date hold at most the total spent |
| Budget.AmountTotalAppend | hooks/useBudget.ts:81-89 | the total of a concatenation is the sum of the totals |
| Budget.ReplaceCategoryUnknown | hooks/useBudget.ts:48-50 | updating with an id no category has changes nothing |
| Budget.ReplaceCategoryIdempotent | hooks/useBudget.ts:48-50 | updating twice with the same category is updating once |
| Budget.ReplaceCategoryKeepsIds | hooks/useBudget.ts:48-50 | updating keeps the set of ids and their distinctness |
| Budget.TotalBudgetAppend | hooks/useBudget.ts:43-46 | adding a category adds its budget to the budget total |
| Budget.TotalBudgetReplace | hooks/useBudget.ts:48-50 | with distinct ids, updating a category changes the budget total by the change in its budget |
| Budget.AddCategoryKeepsDistinct | hooks/useBudget.ts:43-46 | appending a category under an unused id keeps ids distinct |
| Budget.DistinctIdsCons | hooks/useBudget.ts:53 | a list with a category in front has distinct ids exactly when the rest has them and does not use its id |
| Budget.FilterKeepsDistinct | hooks/useBudget.ts:53 | removing categories keeps distinct ids distinct |
| Budget.DeleteCategoryRemovesId | hooks/useBudget.ts:53 | deleting a category takes exactly its id out of the id set; ids stay distinct; deleting again changes nothing |
| Budget.DeleteCategoryRemovesExpenses | hooks/useBudget.ts:54 | after the cascade no expense is filed under the id, including in `getCategoryExpenses`; deleting again changes nothing |
| Budget.DeleteUnknownCategory | hooks/useBudget.ts:53 | deleting an id no category has leaves the categories unchanged |
| Budget.RemoveExpensesOfUnchanged | hooks/useBudget.ts:54 | the cascade leaves the expenses unchanged exactly when none is filed under the id; expenses filed under an id no category has are still removed |
| Budget.DeleteExpenseIdempotent | hooks/useBudget.ts:62-64 | deleting an expense twice is deleting it once; an unknown id changes nothing |
| Budget.CategoryChangesKeepNoOrphans | hooks/useBudget.ts:43-50 | adding or updating a category never leaves an expense without its category |
| Budget.DeletesKeepNoOrphans | hooks/useBudget.ts:52-64 | deleting a category with its expenses, or deleting an expense, never leaves an expense without its category |
| Budget.AddExpenseNoOrphans | hooks/useBudget.ts:57-60 | a new expense leaves no orphan exactly when its category exists |
| Budget.SummaryOfNoExpenses | hooks/useBudget.ts:71-79 | with no expenses every bucket is zero and the budget total is the categories' |
| Budget.StartupSummary | hooks/useBudget.ts:7-33 | on first start nothing has been spent, against a total budget of 38000 |
| Budget.SummaryAfterAddExpense | hooks/useBudget.ts:57-60 | a new expense raises exactly the buckets whose window holds its date, each by its amount, and leaves the budget total alone |
| Budget.SummaryAfterAddExpenseNow | hooks/useBudget.ts:81-89 | an expense dated now raises today, this week and this month by its amount and nothing else |
| Budget.SummaryAfterAddCategory | hooks/useBudget.ts:78 | a new category raises the budget total by its budget and leaves the buckets alone |
| Budget.SummaryAfterDeleteCategory | hooks/useBudget.ts:52-55 | deleting a category lowers each bucket by exactly that category's total in the window |
| Budget.SummaryAfterDeleteExpense | hooks/useBudget.ts:62-64 | deleting an expense lowers each bucket by exactly the window total of the expenses with that id |
| Budget.SummaryBucketsNest | hooks/useBudget.ts:83-88 | with non-negative amounts, today is at most this week and at most this month; yesterday is at most this week plus last week, and at most this month plus last month |
| Budget.SummaryPeriodsDisjoint | hooks/useBudget.ts:83-88 | with non-negative amounts, a period and the one before it together hold at most the total spent |
| Budget.ReportRowsSnoc | hooks/useBudget.ts:114-128 | appending a category appends its row |
| Budget.ReportRowsShape | hooks/useBudget.ts:98-129 | one row per category, the i-th row being the i-th category's |
| Budget.ReportShape | hooks/useBudget.ts:94-132 | both lists have one row per category, in order, with its id, name and icon and the totals of its own expenses in the current and previous week or month |
| Budget.ReportRowOfIdle | hooks/useBudget.ts:98-129 | a category without expenses still gets a row, with both totals zero |
| Budget.ExpensesOfCons | hooks/useBudget.ts:99 | an expense in front is selected for a category exactly when it is filed under it |
| Budget.RowTotalsCons | hooks/useBudget.ts:98-129 | with distinct ids, a new expense raises the rows' summed totals exactly when it is filed under a listed category and dated in the period |
| Budget.RowTotalsOfNone | hooks/useBudget.ts:98-129 | with no expenses the rows sum to zero |
| Budget.RowTotalsMatchWindows | hooks/useBudget.ts:98-129 | with distinct ids and no orphaned expense, the rows of a period sum to that period's overall total |
| Budget.ReportMatchesSummary | hooks/useBudget.ts:70-132 | with distinct ids and no orphaned expense, the weekly rows add up to the summary's this-week and last-week buckets and the monthly rows to its this-month and last-month buckets |
| Budget.CategoryExpensesByMonth | hooks/useBudget.ts:66-68 | `getCategoryExpenses` is the category's expenses narrowed to this month |
| Budget.CategoryExpensesInReport | hooks/useBudget.ts:66-110 | the amounts `getCategoryExpenses` returns add up to the category's current monthly report figure |

## Left out

- Persistence: reading from and writing to `localStorage`, JSON parsing and serialisation, and the fallback on a parse error (hooks/useBudget.ts:15-41). This is browser I/O. The constructor takes what parsing yielded as an `Option` and models only the fallback to the defaults.
- Id generation from the wall clock (hooks/useBudget.ts:44, 58). Fresh ids are method parameters. Nothing in the source makes them unique, so distinctness is stated as a condition, not assumed.
- The clock: `now` is a parameter of every window predicate and aggregation, where the source reads the clock anew inside each predicate call. A run that crosses midnight is therefore not modelled.
- Time zones and daylight saving: every day is exactly 86,400,000 ms of local time. The date library's internals and the `Date` object are not part of this model.
- Parsing an expense's ISO date string: an expense's `date` is the instant the string denotes.
- Fractional amounts: amounts and budgets are whole numbers in the program's own currency unit, the unit its default budgets (10000, 3000, 5000, 20000) are written in. The entry form accepts amounts in steps of 0.01, and JavaScript numbers round their sums; neither is modelled.
- React mechanics: `useState`, `useCallback`, re-rendering, and the components that display the results.
- The percentage and difference arithmetic for display, form parsing, the external language-model service and the notification preview.
- Budget.SummaryBucketsNest, Budget.SummaryPeriodsDisjoint, Budget.WindowTotalMonotone, Budget.WindowTotalCovered and Budget.WindowTotalDisjoint are stated only for non-negative amounts. This matches what the expense form guarantees: it requires an amount of at least 0.01 (components/AddExpenseForm.tsx:67-71). The store itself does not check amounts, neither in `addExpense` (hooks/useBudget.ts:57-60) nor when loading stored expenses (hooks/useBudget.ts:25-33), and with negative amounts these bounds fail.
- Budget.ReportMatchesSummary and Budget.RowTotalsMatchWindows require distinct category ids and no orphaned expenses. The source enforces neither: `addExpense` accepts any category id.
