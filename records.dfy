/**
 * The record shapes of types.ts.  Amounts and budgets are whole numbers in
 * the program's own currency unit (the one its default budgets are written
 * in); an expense's date is the instant its ISO date string denotes.
 */
module Records {
  import opened Calendar

  type Id = string

  datatype Category = Category(id: Id, name: string, budget: int, icon: string)

  datatype Expense = Expense(id: Id, categoryId: Id, amount: int, description: string, date: Instant)

  /** Six window totals and the sum of all monthly budgets. */
  datatype SpendingSummary = SpendingSummary(
    today: int,
    yesterday: int,
    thisWeek: int,
    lastWeek: int,
    thisMonth: int,
    lastMonth: int,
    totalBudgetThisMonth: int)

  /** One category's spending in the current and the previous period. */
  datatype CategoryReportItem = CategoryReportItem(
    categoryId: Id,
    categoryName: string,
    categoryIcon: string,
    currentPeriodTotal: int,
    previousPeriodTotal: int)

  /** The two lists `getCategorySpendingReport` returns. */
  datatype CategoryReport = CategoryReport(weekly: seq<CategoryReportItem>, monthly: seq<CategoryReportItem>)

  datatype Option<T> = None | Some(value: T)
}
