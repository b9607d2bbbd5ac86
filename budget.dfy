/**
 * The budget store and aggregation engine of hooks/useBudget.ts.
 *
 * `BudgetStore` holds the two ordered collections the hook keeps in React
 * state and changes them the way the hook's callbacks do; the functions
 * above it say what each change and each query computes, and the lemmas
 * state what follows for callers (ordering, idempotence, the cascade, the
 * agreement of the report with the summary).
 */
module Budget {
  import opened Sequences
  import opened Calendar
  import opened Records

  // ---------------------------------------------------------------------
  // Startup
  // ---------------------------------------------------------------------

  /** The categories a user starts with when nothing is stored. */
  function DefaultCategories(): (cs: seq<Category>)
    ensures |cs| == 4 && DistinctIds(cs)
    ensures TotalBudget(cs) == 38000
  {
    [ Category("1", "Groceries", 10000, "\U{1F6D2}"),
      Category("2", "Utilities", 3000, "\U{1F4A1}"),
      Category("3", "Entertainment", 5000, "\U{1F3AC}"),
      Category("4", "Savings", 20000, "\U{1F4B0}") ]
  }

  // ---------------------------------------------------------------------
  // Conditions the store filters by
  // ---------------------------------------------------------------------

  function IdIsNot(id: Id): Category -> bool { (c: Category) => c.id != id }

  function ExpenseIdIsNot(id: Id): Expense -> bool { (e: Expense) => e.id != id }

  function ExpenseIdIs(id: Id): Expense -> bool { (e: Expense) => e.id == id }

  function CategoryIs(categoryId: Id): Expense -> bool { (e: Expense) => e.categoryId == categoryId }

  function CategoryIsNot(categoryId: Id): Expense -> bool { (e: Expense) => e.categoryId != categoryId }

  function CategoryThisMonth(categoryId: Id, now: Instant): Expense -> bool
  {
    (e: Expense) => e.categoryId == categoryId && IsThisMonth(e.date, now)
  }

  function DatedIn(w: Window, now: Instant): Expense -> bool { (e: Expense) => InWindow(w, e.date, now) }

  // ---------------------------------------------------------------------
  // What the store's operations compute
  // ---------------------------------------------------------------------

  /** The categories with every entry whose id is that of `updated` replaced by `updated`. */
  function ReplaceCategory(cs: seq<Category>, updated: Category): (r: seq<Category>)
    ensures |r| == |cs|
    ensures forall i :: 0 <= i < |cs| ==> r[i] == if cs[i].id == updated.id then updated else cs[i]
  {
    if cs == [] then []
    else [if cs[0].id == updated.id then updated else cs[0]] + ReplaceCategory(cs[1..], updated)
  }

  /** The categories without those whose id is `id`, the others in their order. */
  function RemoveCategory(cs: seq<Category>, id: Id): (r: seq<Category>)
    ensures forall c: Category :: c in r ==> c.id != id
    ensures forall c: Category :: c.id != id ==> multiset(r)[c] == multiset(cs)[c]
    ensures IsSubsequence(r, cs)
  {
    Filter(cs, IdIsNot(id))
  }

  /** The expenses without those filed under category `categoryId`, the others in their order. */
  function RemoveExpensesOf(es: seq<Expense>, categoryId: Id): (r: seq<Expense>)
    ensures forall e: Expense :: e in r ==> e.categoryId != categoryId
    ensures forall e: Expense :: e.categoryId != categoryId ==> multiset(r)[e] == multiset(es)[e]
    ensures IsSubsequence(r, es)
  {
    Filter(es, CategoryIsNot(categoryId))
  }

  /** The expenses without those whose id is `id`, the others in their order. */
  function RemoveExpense(es: seq<Expense>, id: Id): (r: seq<Expense>)
    ensures forall e: Expense :: e in r ==> e.id != id
    ensures forall e: Expense :: e.id != id ==> multiset(r)[e] == multiset(es)[e]
    ensures IsSubsequence(r, es)
  {
    Filter(es, ExpenseIdIsNot(id))
  }

  /** The expenses filed under category `categoryId`, in their order. */
  function ExpensesOf(es: seq<Expense>, categoryId: Id): (r: seq<Expense>)
    ensures forall e: Expense :: e in r <==> e in es && e.categoryId == categoryId
    ensures forall e: Expense :: e.categoryId == categoryId ==> multiset(r)[e] == multiset(es)[e]
    ensures IsSubsequence(r, es)
  {
    Filter(es, CategoryIs(categoryId))
  }

  /** `getCategoryExpenses`: the expenses of a category dated in the month of `now`, in their order. */
  function CategoryExpenses(es: seq<Expense>, categoryId: Id, now: Instant): (r: seq<Expense>)
    ensures forall e: Expense :: e in r <==> e in es && e.categoryId == categoryId && MonthOf(e.date) == MonthOf(now)
    ensures forall e: Expense :: e.categoryId == categoryId && IsThisMonth(e.date, now) ==> multiset(r)[e] == multiset(es)[e]
    ensures IsSubsequence(r, es)
  {
    var r := Filter(es, CategoryThisMonth(categoryId, now));
    assert forall e: Expense :: IsThisMonth(e.date, now) <==> MonthOf(e.date) == MonthOf(now) by {
      forall e: Expense ensures IsThisMonth(e.date, now) <==> MonthOf(e.date) == MonthOf(now) {
        ThisMonthIsSameMonth(e.date, now);
      }
    }
    r
  }

  /** The expenses dated in window `w` around `now`, in their order. */
  function ExpensesIn(es: seq<Expense>, w: Window, now: Instant): seq<Expense>
  {
    Filter(es, DatedIn(w, now))
  }

  /** Sum of the amounts. */
  function AmountTotal(es: seq<Expense>): int
  {
    if es == [] then 0 else es[0].amount + AmountTotal(es[1..])
  }

  /** Sum of the amounts of the expenses dated in window `w` around `now`. */
  function WindowTotal(es: seq<Expense>, w: Window, now: Instant): int
  {
    AmountTotal(ExpensesIn(es, w, now))
  }

  /** Sum of the budgets. */
  function TotalBudget(cs: seq<Category>): int
  {
    if cs == [] then 0 else cs[0].budget + TotalBudget(cs[1..])
  }

  /** `getSpendingSummary`: every bucket summed independently over all expenses. */
  function Summary(cs: seq<Category>, es: seq<Expense>, now: Instant): SpendingSummary
  {
    SpendingSummary(
      WindowTotal(es, Today, now),
      WindowTotal(es, Yesterday, now),
      WindowTotal(es, ThisWeek, now),
      WindowTotal(es, LastWeek, now),
      WindowTotal(es, ThisMonth, now),
      WindowTotal(es, LastMonth, now),
      TotalBudget(cs))
  }

  /** The summary field that holds the total of window `w`. */
  function Bucket(s: SpendingSummary, w: Window): int
  {
    match w
    case Today => s.today
    case Yesterday => s.yesterday
    case ThisWeek => s.thisWeek
    case LastWeek => s.lastWeek
    case ThisMonth => s.thisMonth
    case LastMonth => s.lastMonth
  }

  /** A category's report row: its spending in the `current` and the `previous` window. */
  function ReportRow(c: Category, es: seq<Expense>, now: Instant, current: Window, previous: Window): CategoryReportItem
  {
    var own := ExpensesOf(es, c.id);
    CategoryReportItem(c.id, c.name, c.icon, WindowTotal(own, current, now), WindowTotal(own, previous, now))
  }

  /** One report row per category, in category order. */
  function ReportRows(cs: seq<Category>, es: seq<Expense>, now: Instant, current: Window, previous: Window)
    : seq<CategoryReportItem>
  {
    if cs == [] then [] else [ReportRow(cs[0], es, now, current, previous)] + ReportRows(cs[1..], es, now, current, previous)
  }

  /** `getCategorySpendingReport`: week-over-week and month-over-month rows. */
  function Report(cs: seq<Category>, es: seq<Expense>, now: Instant): CategoryReport
  {
    CategoryReport(ReportRows(cs, es, now, ThisWeek, LastWeek), ReportRows(cs, es, now, ThisMonth, LastMonth))
  }

  /** Sum of the current-period totals of report rows. */
  function CurrentTotal(rows: seq<CategoryReportItem>): int
  {
    if rows == [] then 0 else rows[0].currentPeriodTotal + CurrentTotal(rows[1..])
  }

  /** Sum of the previous-period totals of report rows. */
  function PreviousTotal(rows: seq<CategoryReportItem>): int
  {
    if rows == [] then 0 else rows[0].previousPeriodTotal + PreviousTotal(rows[1..])
  }

  // ---------------------------------------------------------------------
  // Referential integrity
  // ---------------------------------------------------------------------

  function CategoryIds(cs: seq<Category>): set<Id>
  {
    set c | c in cs :: c.id
  }

  /** No two categories share an id. */
  predicate DistinctIds(cs: seq<Category>)
  {
    forall i, j :: 0 <= i < j < |cs| ==> cs[i].id != cs[j].id
  }

  /** Every expense is filed under a category that exists. */
  predicate NoOrphans(cs: seq<Category>, es: seq<Expense>)
  {
    forall e: Expense :: e in es ==> e.categoryId in CategoryIds(cs)
  }

  // ---------------------------------------------------------------------
  // The store
  // ---------------------------------------------------------------------

  class BudgetStore {
    var categories: seq<Category>
    var expenses: seq<Expense>

    /**
     * Startup.  `storedCategories` and `storedExpenses` are what the backing
     * store yields after parsing, None when the entry is absent or does not
     * parse; then the default categories and no expenses are used.
     */
    constructor (storedCategories: Option<seq<Category>>, storedExpenses: Option<seq<Expense>>)
      ensures categories == if storedCategories.Some? then storedCategories.value else DefaultCategories()
      ensures expenses == if storedExpenses.Some? then storedExpenses.value else []
    {
      categories := if storedCategories.Some? then storedCategories.value else DefaultCategories();
      expenses := if storedExpenses.Some? then storedExpenses.value else [];
    }

    /** Appends a new category under the fresh id `id`. */
    method AddCategory(id: Id, name: string, budget: int, icon: string)
      modifies this
      ensures categories == old(categories) + [Category(id, name, budget, icon)]
      ensures expenses == old(expenses)
      ensures old(NoOrphans(categories, expenses)) ==> NoOrphans(categories, expenses)
      ensures old(DistinctIds(categories)) && id !in old(CategoryIds(categories)) ==> DistinctIds(categories)
    {
      var newCategory := Category(id, name, budget, icon);
      if NoOrphans(categories, expenses) {
        CategoryChangesKeepNoOrphans(categories, expenses, newCategory, newCategory);
      }
      if DistinctIds(categories) && id !in CategoryIds(categories) {
        AddCategoryKeepsDistinct(categories, newCategory);
      }
      categories := categories + [newCategory];
    }

    /** Replaces every category whose id is that of `updated`; an unknown id changes nothing. */
    method UpdateCategory(updated: Category)
      modifies this
      ensures categories == ReplaceCategory(old(categories), updated)
      ensures expenses == old(expenses)
      ensures CategoryIds(categories) == old(CategoryIds(categories))
      ensures old(DistinctIds(categories)) ==> DistinctIds(categories)
      ensures old(NoOrphans(categories, expenses)) ==> NoOrphans(categories, expenses)
    {
      ReplaceCategoryKeepsIds(categories, updated);
      categories := ReplaceCategory(categories, updated);
    }

    /** Removes the category `id` and, with it, every expense filed under it. */
    method DeleteCategory(id: Id)
      modifies this
      ensures categories == RemoveCategory(old(categories), id)
      ensures expenses == RemoveExpensesOf(old(expenses), id)
      ensures CategoryIds(categories) == old(CategoryIds(categories)) - {id}
      ensures old(DistinctIds(categories)) ==> DistinctIds(categories)
      ensures old(NoOrphans(categories, expenses)) ==> NoOrphans(categories, expenses)
    {
      DeleteCategoryRemovesId(categories, id);
      if NoOrphans(categories, expenses) {
        DeletesKeepNoOrphans(categories, expenses, id);
      }
      categories := RemoveCategory(categories, id);
      expenses := RemoveExpensesOf(expenses, id);
    }

    /** Puts a new expense, under the fresh id `id`, at the front of the list. */
    method AddExpense(id: Id, categoryId: Id, amount: int, description: string, date: Instant)
      modifies this
      ensures expenses == [Expense(id, categoryId, amount, description, date)] + old(expenses)
      ensures categories == old(categories)
      ensures old(NoOrphans(categories, expenses)) ==> (NoOrphans(categories, expenses) <==> categoryId in CategoryIds(categories))
    {
      var newExpense := Expense(id, categoryId, amount, description, date);
      if NoOrphans(categories, expenses) {
        AddExpenseNoOrphans(categories, expenses, newExpense);
      }
      expenses := [newExpense] + expenses;
    }

    /** Removes the expense `id`; an unknown id changes nothing. */
    method DeleteExpense(id: Id)
      modifies this
      ensures expenses == RemoveExpense(old(expenses), id)
      ensures categories == old(categories)
      ensures old(NoOrphans(categories, expenses)) ==> NoOrphans(categories, expenses)
    {
      if NoOrphans(categories, expenses) {
        DeletesKeepNoOrphans(categories, expenses, id);
      }
      expenses := RemoveExpense(expenses, id);
    }

    /** One pass over the expenses, adding each amount into every bucket whose window holds its date. */
    method GetSpendingSummary(now: Instant) returns (summary: SpendingSummary)
      ensures summary == Summary(categories, expenses, now)
    {
      hide WindowTotal, InWindow;
      WindowTotalsOfNone(now);
      assert expenses[..0] == [];
      var today, yesterday, thisWeek, lastWeek, thisMonth, lastMonth := 0, 0, 0, 0, 0, 0;
      for i := 0 to |expenses|
        invariant today == WindowTotal(expenses[..i], Today, now)
        invariant yesterday == WindowTotal(expenses[..i], Yesterday, now)
        invariant thisWeek == WindowTotal(expenses[..i], ThisWeek, now)
        invariant lastWeek == WindowTotal(expenses[..i], LastWeek, now)
        invariant thisMonth == WindowTotal(expenses[..i], ThisMonth, now)
        invariant lastMonth == WindowTotal(expenses[..i], LastMonth, now)
      {
        var expense := expenses[i];
        var date := expense.date;
        if InWindow(Today, date, now) { today := today + expense.amount; }
        WindowTotalPrefix(expenses, i, Today, now);
        if InWindow(Yesterday, date, now) { yesterday := yesterday + expense.amount; }
        WindowTotalPrefix(expenses, i, Yesterday, now);
        if InWindow(ThisWeek, date, now) { thisWeek := thisWeek + expense.amount; }
        WindowTotalPrefix(expenses, i, ThisWeek, now);
        if InWindow(LastWeek, date, now) { lastWeek := lastWeek + expense.amount; }
        WindowTotalPrefix(expenses, i, LastWeek, now);
        if InWindow(ThisMonth, date, now) { thisMonth := thisMonth + expense.amount; }
        WindowTotalPrefix(expenses, i, ThisMonth, now);
        if InWindow(LastMonth, date, now) { lastMonth := lastMonth + expense.amount; }
        WindowTotalPrefix(expenses, i, LastMonth, now);
      }
      assert expenses[..|expenses|] == expenses;
      summary := SpendingSummary(today, yesterday, thisWeek, lastWeek, thisMonth, lastMonth, TotalBudget(categories));
    }

    /** For each category in order, its weekly and its monthly comparison row. */
    method GetCategorySpendingReport(now: Instant) returns (report: CategoryReport)
      ensures report == Report(categories, expenses, now)
    {
      hide InWindow, WindowTotal, ExpensesOf, ReportRows, Filter;
      ReportRowsShape(categories[..0], expenses, now, ThisWeek, LastWeek);
      ReportRowsShape(categories[..0], expenses, now, ThisMonth, LastMonth);
      var weekly: seq<CategoryReportItem> := [];
      var monthly: seq<CategoryReportItem> := [];
      for i := 0 to |categories|
        invariant weekly == ReportRows(categories[..i], expenses, now, ThisWeek, LastWeek)
        invariant monthly == ReportRows(categories[..i], expenses, now, ThisMonth, LastMonth)
      {
        var category := categories[i];
        var categoryExpenses := ExpensesOf(expenses, category.id);
        var thisWeekTotal, lastWeekTotal, thisMonthTotal, lastMonthTotal := PeriodTotals(categoryExpenses, now);
        weekly := weekly + [CategoryReportItem(category.id, category.name, category.icon, thisWeekTotal, lastWeekTotal)];
        monthly := monthly + [CategoryReportItem(category.id, category.name, category.icon, thisMonthTotal, lastMonthTotal)];
        assert categories[..i + 1] == categories[..i] + [category];
        ReportRowsSnoc(categories[..i], category, expenses, now, ThisWeek, LastWeek);
        ReportRowsSnoc(categories[..i], category, expenses, now, ThisMonth, LastMonth);
      }
      assert categories[..|categories|] == categories;
      report := CategoryReport(weekly, monthly);
    }
  }

  /** One pass over a category's expenses, adding each amount into the four period totals whose window holds its date. */
  method PeriodTotals(categoryExpenses: seq<Expense>, now: Instant)
    returns (thisWeekTotal: int, lastWeekTotal: int, thisMonthTotal: int, lastMonthTotal: int)
    ensures thisWeekTotal == WindowTotal(categoryExpenses, ThisWeek, now)
    ensures lastWeekTotal == WindowTotal(categoryExpenses, LastWeek, now)
    ensures thisMonthTotal == WindowTotal(categoryExpenses, ThisMonth, now)
    ensures lastMonthTotal == WindowTotal(categoryExpenses, LastMonth, now)
  {
    hide *;
    WindowTotalsOfNone(now);
    assert categoryExpenses[..0] == [];
    thisWeekTotal, lastWeekTotal, thisMonthTotal, lastMonthTotal := 0, 0, 0, 0;
    for j := 0 to |categoryExpenses|
      invariant thisWeekTotal == WindowTotal(categoryExpenses[..j], ThisWeek, now)
      invariant lastWeekTotal == WindowTotal(categoryExpenses[..j], LastWeek, now)
      invariant thisMonthTotal == WindowTotal(categoryExpenses[..j], ThisMonth, now)
      invariant lastMonthTotal == WindowTotal(categoryExpenses[..j], LastMonth, now)
    {
      var expense := categoryExpenses[j];
      var date := expense.date;
      if InWindow(ThisWeek, date, now) { thisWeekTotal := thisWeekTotal + expense.amount; }
      WindowTotalPrefix(categoryExpenses, j, ThisWeek, now);
      if InWindow(LastWeek, date, now) { lastWeekTotal := lastWeekTotal + expense.amount; }
      WindowTotalPrefix(categoryExpenses, j, LastWeek, now);
      if InWindow(ThisMonth, date, now) { thisMonthTotal := thisMonthTotal + expense.amount; }
      WindowTotalPrefix(categoryExpenses, j, ThisMonth, now);
      if InWindow(LastMonth, date, now) { lastMonthTotal := lastMonthTotal + expense.amount; }
      WindowTotalPrefix(categoryExpenses, j, LastMonth, now);
    }
    assert categoryExpenses[..|categoryExpenses|] == categoryExpenses;
  }

  // ---------------------------------------------------------------------
  // Sums
  // ---------------------------------------------------------------------

  lemma {:induction false} AmountTotalAppend(a: seq<Expense>, b: seq<Expense>)
    ensures AmountTotal(a + b) == AmountTotal(a) + AmountTotal(b)
  {
    if a == [] {
      assert a + b == b;
    } else {
      assert (a + b)[0] == a[0] && (a + b)[1..] == a[1..] + b;
      AmountTotalAppend(a[1..], b);
    }
  }

  /** No expenses, nothing spent in any window. */
  lemma WindowTotalsOfNone(now: Instant)
    ensures forall w: Window :: WindowTotal([], w, now) == 0
  {
  }

  /** Appending an expense adds its amount to a window total exactly when its date is in the window. */
  lemma {:induction false} WindowTotalSnoc(es: seq<Expense>, e: Expense, w: Window, now: Instant)
    ensures WindowTotal(es + [e], w, now) == WindowTotal(es, w, now) + if InWindow(w, e.date, now) then e.amount else 0
  {
    FilterAppend(es, [e], DatedIn(w, now));
    FilterSingleton(e, DatedIn(w, now));
    AmountTotalAppend(ExpensesIn(es, w, now), ExpensesIn([e], w, now));
    assert AmountTotal([e]) == e.amount + AmountTotal([]);
  }

  /** Extending a prefix of `es` by one expense adds its amount to a window total exactly when its date is in the window. */
  lemma {:induction false} WindowTotalPrefix(es: seq<Expense>, i: int, w: Window, now: Instant)
    requires 0 <= i < |es|
    ensures WindowTotal(es[..i + 1], w, now) == WindowTotal(es[..i], w, now) + if InWindow(w, es[i].date, now) then es[i].amount else 0
  {
    assert es[..i + 1] == es[..i] + [es[i]];
    WindowTotalSnoc(es[..i], es[i], w, now);
  }

  lemma {:induction false} ReportRowsSnoc(cs: seq<Category>, c: Category, es: seq<Expense>, now: Instant,
                                          current: Window, previous: Window)
    ensures ReportRows(cs + [c], es, now, current, previous)
         == ReportRows(cs, es, now, current, previous) + [ReportRow(c, es, now, current, previous)]
  {
    hide ReportRow;
    if cs == [] {
      assert [c][1..] == [];
    } else {
      assert (cs + [c])[0] == cs[0] && (cs + [c])[1..] == cs[1..] + [c];
      ReportRowsSnoc(cs[1..], c, es, now, current, previous);
    }
  }

  /** Putting an expense in front adds its amount to a window total exactly when its date is in the window. */
  lemma {:induction false} WindowTotalCons(e: Expense, es: seq<Expense>, w: Window, now: Instant)
    ensures WindowTotal([e] + es, w, now) == (if InWindow(w, e.date, now) then e.amount else 0) + WindowTotal(es, w, now)
  {
    hide InWindow;
    FilterAppend([e], es, DatedIn(w, now));
    FilterSingleton(e, DatedIn(w, now));
    AmountTotalAppend(ExpensesIn([e], w, now), ExpensesIn(es, w, now));
    assert AmountTotal([e]) == e.amount + AmountTotal([]);
  }

  /** A window's total splits between two complementary selections of the expenses. */
  lemma {:induction false} WindowTotalPartition(es: seq<Expense>, keep: Expense -> bool, drop: Expense -> bool,
                                                w: Window, now: Instant)
    requires forall e: Expense :: keep(e) != drop(e)
    ensures WindowTotal(es, w, now) == WindowTotal(Filter(es, keep), w, now) + WindowTotal(Filter(es, drop), w, now)
  {
    hide InWindow;
    if es != [] {
      var e := es[0];
      assert es == [e] + es[1..];
      WindowTotalPartition(es[1..], keep, drop, w, now);
      WindowTotalCons(e, es[1..], w, now);
      FilterAppend([e], es[1..], keep);
      FilterAppend([e], es[1..], drop);
      FilterSingleton(e, keep);
      FilterSingleton(e, drop);
      if keep(e) {
        WindowTotalCons(e, Filter(es[1..], keep), w, now);
      } else {
        WindowTotalCons(e, Filter(es[1..], drop), w, now);
      }
    }
  }

  /** With no negative amounts, a window whose dates all lie in another window has the smaller total. */
  lemma {:induction false} WindowTotalMonotone(es: seq<Expense>, inner: Window, outer: Window, now: Instant)
    requires forall e: Expense :: e in es ==> e.amount >= 0
    requires forall e: Expense :: e in es && InWindow(inner, e.date, now) ==> InWindow(outer, e.date, now)
    ensures WindowTotal(es, inner, now) <= WindowTotal(es, outer, now)
  {
    hide InWindow;
    if es != [] {
      assert es == [es[0]] + es[1..];
      WindowTotalMonotone(es[1..], inner, outer, now);
      WindowTotalCons(es[0], es[1..], inner, now);
      WindowTotalCons(es[0], es[1..], outer, now);
    }
  }

  /** With no negative amounts, a window covered by two others has at most their combined total. */
  lemma {:induction false} WindowTotalCovered(es: seq<Expense>, inner: Window, left: Window, right: Window, now: Instant)
    requires forall e: Expense :: e in es ==> e.amount >= 0
    requires forall e: Expense :: e in es && InWindow(inner, e.date, now) ==> InWindow(left, e.date, now) || InWindow(right, e.date, now)
    ensures WindowTotal(es, inner, now) <= WindowTotal(es, left, now) + WindowTotal(es, right, now)
  {
    hide InWindow;
    if es != [] {
      assert es == [es[0]] + es[1..];
      WindowTotalCovered(es[1..], inner, left, right, now);
      WindowTotalCons(es[0], es[1..], inner, now);
      WindowTotalCons(es[0], es[1..], left, now);
      WindowTotalCons(es[0], es[1..], right, now);
    }
  }

  /** With no negative amounts, two windows no date lies in both of share out at most the total spent. */
  lemma {:induction false} WindowTotalDisjoint(es: seq<Expense>, a: Window, b: Window, now: Instant)
    requires forall e: Expense :: e in es ==> e.amount >= 0
    requires forall e: Expense :: e in es ==> !(InWindow(a, e.date, now) && InWindow(b, e.date, now))
    ensures WindowTotal(es, a, now) + WindowTotal(es, b, now) <= AmountTotal(es)
  {
    hide InWindow;
    if es != [] {
      assert es == [es[0]] + es[1..];
      WindowTotalDisjoint(es[1..], a, b, now);
      WindowTotalCons(es[0], es[1..], a, now);
      WindowTotalCons(es[0], es[1..], b, now);
    }
  }

  // ---------------------------------------------------------------------
  // Category changes
  // ---------------------------------------------------------------------

  lemma {:induction false} CategoryIdsCons(c: Category, cs: seq<Category>)
    ensures CategoryIds([c] + cs) == {c.id} + CategoryIds(cs)
  {
    assert forall x :: x in [c] + cs <==> x == c || x in cs;
  }

  /** Updating a category whose id is not in the list changes nothing. */
  lemma {:induction false} ReplaceCategoryUnknown(cs: seq<Category>, updated: Category)
    requires updated.id !in CategoryIds(cs)
    ensures ReplaceCategory(cs, updated) == cs
  {
    assert forall i :: 0 <= i < |cs| ==> cs[i].id in CategoryIds(cs);
  }

  /** Updating twice with the same category is updating once. */
  lemma {:induction false} ReplaceCategoryIdempotent(cs: seq<Category>, updated: Category)
    ensures ReplaceCategory(ReplaceCategory(cs, updated), updated) == ReplaceCategory(cs, updated)
  {
    var once := ReplaceCategory(cs, updated);
    var twice := ReplaceCategory(once, updated);
    assert forall i :: 0 <= i < |cs| ==> twice[i] == once[i];
  }

  /** Updating keeps the set of ids and their distinctness. */
  lemma {:induction false} ReplaceCategoryKeepsIds(cs: seq<Category>, updated: Category)
    ensures CategoryIds(ReplaceCategory(cs, updated)) == CategoryIds(cs)
    ensures DistinctIds(cs) ==> DistinctIds(ReplaceCategory(cs, updated))
  {
    var r := ReplaceCategory(cs, updated);
    assert forall i :: 0 <= i < |cs| ==> r[i].id == cs[i].id;
    forall x | x in CategoryIds(r) ensures x in CategoryIds(cs) {
      var i :| 0 <= i < |r| && r[i].id == x;
      assert cs[i] in cs;
    }
    forall x | x in CategoryIds(cs) ensures x in CategoryIds(r) {
      var i :| 0 <= i < |cs| && cs[i].id == x;
      assert r[i] in r;
    }
  }

  /** Appending a category adds its budget to the total. */
  lemma {:induction false} TotalBudgetAppend(cs: seq<Category>, c: Category)
    ensures TotalBudget(cs + [c]) == TotalBudget(cs) + c.budget
  {
    if cs == [] {
      assert [c][1..] == [];
    } else {
      assert (cs + [c])[0] == cs[0] && (cs + [c])[1..] == cs[1..] + [c];
      TotalBudgetAppend(cs[1..], c);
    }
  }

  /** With distinct ids, updating the category at `i` moves the total by the change in its budget. */
  lemma {:induction false} TotalBudgetReplace(cs: seq<Category>, i: int, updated: Category)
    requires DistinctIds(cs) && 0 <= i < |cs| && cs[i].id == updated.id
    ensures TotalBudget(ReplaceCategory(cs, updated)) == TotalBudget(cs) - cs[i].budget + updated.budget
  {
    var r := ReplaceCategory(cs, updated);
    assert r[1..] == ReplaceCategory(cs[1..], updated);
    if i == 0 {
      assert forall j :: 0 <= j < |cs[1..]| ==> cs[1..][j].id != updated.id;
      ReplaceCategoryUnknown(cs[1..], updated);
    } else {
      TotalBudgetReplace(cs[1..], i - 1, updated);
    }
  }

  /** Appending a category under an id not yet in use keeps the ids distinct. */
  lemma AddCategoryKeepsDistinct(cs: seq<Category>, c: Category)
    requires DistinctIds(cs) && c.id !in CategoryIds(cs)
    ensures DistinctIds(cs + [c])
  {
    assert forall i :: 0 <= i < |cs| ==> cs[i].id in CategoryIds(cs);
  }

  /** A list with a category in front has distinct ids exactly when the rest does and does not use its id. */
  lemma DistinctIdsCons(c: Category, cs: seq<Category>)
    ensures DistinctIds([c] + cs) <==> DistinctIds(cs) && c.id !in CategoryIds(cs)
  {
    var r := [c] + cs;
    assert forall i :: 0 < i < |r| ==> r[i] == cs[i - 1];
    assert forall k :: 0 <= k < |cs| ==> cs[k].id in CategoryIds(cs);
    if DistinctIds(r) {
      forall i, j | 0 <= i < j < |cs| ensures cs[i].id != cs[j].id {
        assert cs[i] == r[i + 1] && cs[j] == r[j + 1];
      }
    }
    if c.id in CategoryIds(cs) {
      var x :| x in cs && x.id == c.id;
      var j :| 0 <= j < |cs| && cs[j] == x;
      assert r[0] == c && r[j + 1] == x;
      assert !DistinctIds(r);
    } else if DistinctIds(cs) {
      forall i, j | 0 <= i < j < |r| ensures r[i].id != r[j].id {
        if i == 0 {
          assert r[j].id in CategoryIds(cs);
        }
      }
    }
  }

  /** Removing categories keeps distinct ids distinct. */
  lemma {:induction false} FilterKeepsDistinct(cs: seq<Category>, keep: Category -> bool)
    requires DistinctIds(cs)
    ensures DistinctIds(Filter(cs, keep))
  {
    if cs != [] {
      assert cs == [cs[0]] + cs[1..];
      DistinctIdsCons(cs[0], cs[1..]);
      FilterKeepsDistinct(cs[1..], keep);
      if keep(cs[0]) {
        DistinctIdsCons(cs[0], Filter(cs[1..], keep));
      }
    }
  }

  /**
   * Deleting a category takes exactly its id out of the id set, keeps ids
   * distinct, and a second delete changes nothing more.
   */
  lemma DeleteCategoryRemovesId(cs: seq<Category>, id: Id)
    ensures CategoryIds(RemoveCategory(cs, id)) == CategoryIds(cs) - {id}
    ensures DistinctIds(cs) ==> DistinctIds(RemoveCategory(cs, id))
    ensures RemoveCategory(RemoveCategory(cs, id), id) == RemoveCategory(cs, id)
  {
    var r := RemoveCategory(cs, id);
    forall x | x in CategoryIds(cs) - {id} ensures x in CategoryIds(r) {
      var c :| c in cs && c.id == x;
      assert multiset(cs)[c] > 0;
    }
    if DistinctIds(cs) {
      FilterKeepsDistinct(cs, IdIsNot(id));
    }
    FilterIdempotent(cs, IdIsNot(id));
  }

  /**
   * The cascade leaves no expense under the deleted id, so neither the
   * category's list nor `getCategoryExpenses` finds one; a second delete
   * changes nothing more.
   */
  lemma DeleteCategoryRemovesExpenses(es: seq<Expense>, id: Id, now: Instant)
    ensures ExpensesOf(RemoveExpensesOf(es, id), id) == []
    ensures CategoryExpenses(RemoveExpensesOf(es, id), id, now) == []
    ensures RemoveExpensesOf(RemoveExpensesOf(es, id), id) == RemoveExpensesOf(es, id)
  {
    hide IsThisMonth, MonthOf, MonthOfDay, FirstDayOfMonth;
    FilterDropsAll(RemoveExpensesOf(es, id), CategoryIs(id));
    FilterDropsAll(RemoveExpensesOf(es, id), CategoryThisMonth(id, now));
    FilterIdempotent(es, CategoryIsNot(id));
  }

  /** Deleting an expense twice is deleting it once; an unknown id changes nothing. */
  lemma DeleteExpenseIdempotent(es: seq<Expense>, id: Id)
    ensures RemoveExpense(RemoveExpense(es, id), id) == RemoveExpense(es, id)
    ensures (forall e: Expense :: e in es ==> e.id != id) ==> RemoveExpense(es, id) == es
  {
    FilterIdempotent(es, ExpenseIdIsNot(id));
    if forall e: Expense :: e in es ==> e.id != id {
      FilterKeepsAll(es, ExpenseIdIsNot(id));
    }
  }

  /** Deleting a category whose id is not in use leaves the categories unchanged. */
  lemma DeleteUnknownCategory(cs: seq<Category>, id: Id)
    requires id !in CategoryIds(cs)
    ensures RemoveCategory(cs, id) == cs
  {
    FilterKeepsAll(cs, IdIsNot(id));
  }

  /**
   * The cascade leaves the expenses unchanged exactly when none is filed
   * under the id, whether or not a category with that id exists.
   */
  lemma RemoveExpensesOfUnchanged(es: seq<Expense>, id: Id)
    ensures RemoveExpensesOf(es, id) == es <==> forall e: Expense :: e in es ==> e.categoryId != id
  {
    if forall e: Expense :: e in es ==> e.categoryId != id {
      FilterKeepsAll(es, CategoryIsNot(id));
    }
  }

  // ---------------------------------------------------------------------
  // Every expense filed under an existing category
  // ---------------------------------------------------------------------

  /** Category additions and updates never orphan an expense. */
  lemma CategoryChangesKeepNoOrphans(cs: seq<Category>, es: seq<Expense>, c: Category, updated: Category)
    requires NoOrphans(cs, es)
    ensures NoOrphans(cs + [c], es)
    ensures NoOrphans(ReplaceCategory(cs, updated), es)
  {
    ReplaceCategoryKeepsIds(cs, updated);
  }

  /** Deleting a category together with its expenses, or deleting an expense, never orphans an expense. */
  lemma DeletesKeepNoOrphans(cs: seq<Category>, es: seq<Expense>, id: Id)
    requires NoOrphans(cs, es)
    ensures NoOrphans(RemoveCategory(cs, id), RemoveExpensesOf(es, id))
    ensures NoOrphans(cs, RemoveExpense(es, id))
  {
    DeleteCategoryRemovesId(cs, id);
  }

  /** A new expense leaves no orphan exactly when it is filed under an existing category. */
  lemma AddExpenseNoOrphans(cs: seq<Category>, es: seq<Expense>, e: Expense)
    requires NoOrphans(cs, es)
    ensures NoOrphans(cs, [e] + es) <==> e.categoryId in CategoryIds(cs)
  {
    assert e in [e] + es;
  }

  // ---------------------------------------------------------------------
  // The summary
  // ---------------------------------------------------------------------

  /** With no expenses every bucket is zero and the budget total is that of the categories. */
  lemma SummaryOfNoExpenses(cs: seq<Category>, now: Instant)
    ensures Summary(cs, [], now) == SpendingSummary(0, 0, 0, 0, 0, 0, TotalBudget(cs))
  {
    WindowTotalsOfNone(now);
  }

  /** On first start, with nothing stored, nothing is spent against a total budget of 38000. */
  lemma StartupSummary(now: Instant)
    ensures Summary(DefaultCategories(), [], now) == SpendingSummary(0, 0, 0, 0, 0, 0, 38000)
  {
    SummaryOfNoExpenses(DefaultCategories(), now);
  }

  /** A new expense adds its amount to every bucket whose window holds its date, and to no other. */
  lemma SummaryAfterAddExpense(cs: seq<Category>, es: seq<Expense>, e: Expense, now: Instant)
    ensures forall w: Window :: Bucket(Summary(cs, [e] + es, now), w)
                                == Bucket(Summary(cs, es, now), w) + if InWindow(w, e.date, now) then e.amount else 0
    ensures Summary(cs, [e] + es, now).totalBudgetThisMonth == Summary(cs, es, now).totalBudgetThisMonth
  {
    hide InWindow, WindowTotal, Filter;
    forall w: Window {
      WindowTotalCons(e, es, w, now);
    }
  }

  /** An expense dated `now` counts today, this week and this month, and in no other bucket. */
  lemma SummaryAfterAddExpenseNow(cs: seq<Category>, es: seq<Expense>, e: Expense, now: Instant)
    requires e.date == now
    ensures var before := Summary(cs, es, now);
            Summary(cs, [e] + es, now)
            == before.(today := before.today + e.amount,
                       thisWeek := before.thisWeek + e.amount,
                       thisMonth := before.thisMonth + e.amount)
  {
    hide IsToday, IsYesterday, IsThisWeek, IsLastWeek, IsThisMonth, IsLastMonth, WindowTotal;
    NowWindows(now);
    SummaryAfterAddExpense(cs, es, e, now);
    assert Bucket(Summary(cs, [e] + es, now), Today) == Bucket(Summary(cs, es, now), Today) + e.amount;
    assert Bucket(Summary(cs, [e] + es, now), ThisWeek) == Bucket(Summary(cs, es, now), ThisWeek) + e.amount;
    assert Bucket(Summary(cs, [e] + es, now), ThisMonth) == Bucket(Summary(cs, es, now), ThisMonth) + e.amount;
    assert Bucket(Summary(cs, [e] + es, now), Yesterday) == Bucket(Summary(cs, es, now), Yesterday);
    assert Bucket(Summary(cs, [e] + es, now), LastWeek) == Bucket(Summary(cs, es, now), LastWeek);
    assert Bucket(Summary(cs, [e] + es, now), LastMonth) == Bucket(Summary(cs, es, now), LastMonth);
  }

  /** A new category adds its budget to the budget total and leaves the buckets alone. */
  lemma SummaryAfterAddCategory(cs: seq<Category>, es: seq<Expense>, c: Category, now: Instant)
    ensures var before := Summary(cs, es, now);
            Summary(cs + [c], es, now) == before.(totalBudgetThisMonth := before.totalBudgetThisMonth + c.budget)
  {
    hide WindowTotal;
    TotalBudgetAppend(cs, c);
  }

  /** Deleting a category takes exactly its own expenses' window totals out of the buckets. */
  lemma SummaryAfterDeleteCategory(cs: seq<Category>, es: seq<Expense>, id: Id, now: Instant)
    ensures forall w: Window :: Bucket(Summary(RemoveCategory(cs, id), RemoveExpensesOf(es, id), now), w)
                                == Bucket(Summary(cs, es, now), w) - WindowTotal(ExpensesOf(es, id), w, now)
  {
    hide InWindow, WindowTotal, Filter;
    forall w: Window {
      WindowTotalPartition(es, CategoryIsNot(id), CategoryIs(id), w, now);
    }
  }

  /** Deleting an expense takes exactly the window totals of the expenses with that id out of the buckets. */
  lemma SummaryAfterDeleteExpense(cs: seq<Category>, es: seq<Expense>, id: Id, now: Instant)
    ensures forall w: Window :: Bucket(Summary(cs, RemoveExpense(es, id), now), w)
                                == Bucket(Summary(cs, es, now), w) - WindowTotal(Filter(es, ExpenseIdIs(id)), w, now)
    ensures Summary(cs, RemoveExpense(es, id), now).totalBudgetThisMonth == TotalBudget(cs)
  {
    hide InWindow, WindowTotal, Filter;
    forall w: Window {
      WindowTotalPartition(es, ExpenseIdIsNot(id), ExpenseIdIs(id), w, now);
    }
  }

  /**
   * With no negative amounts the buckets nest as the windows do: today is
   * part of this week and of this month, yesterday part of this or last week
   * and of this or last month.
   */
  lemma SummaryBucketsNest(cs: seq<Category>, es: seq<Expense>, now: Instant)
    requires forall e: Expense :: e in es ==> e.amount >= 0
    ensures var s := Summary(cs, es, now);
            s.today <= s.thisWeek && s.today <= s.thisMonth &&
            s.yesterday <= s.thisWeek + s.lastWeek && s.yesterday <= s.thisMonth + s.lastMonth
  {
    hide IsToday, IsYesterday, IsThisWeek, IsLastWeek, IsThisMonth, IsLastMonth, WindowTotal;
    forall e: Expense | e in es
      ensures InWindow(Today, e.date, now) ==> InWindow(ThisWeek, e.date, now) && InWindow(ThisMonth, e.date, now)
      ensures InWindow(Yesterday, e.date, now) ==> InWindow(ThisWeek, e.date, now) || InWindow(LastWeek, e.date, now)
      ensures InWindow(Yesterday, e.date, now) ==> InWindow(ThisMonth, e.date, now) || InWindow(LastMonth, e.date, now)
    {
      TodayNests(e.date, now);
      YesterdayInWeeks(e.date, now);
      YesterdayInMonths(e.date, now);
    }
    WindowTotalMonotone(es, Today, ThisWeek, now);
    WindowTotalMonotone(es, Today, ThisMonth, now);
    WindowTotalCovered(es, Yesterday, ThisWeek, LastWeek, now);
    WindowTotalCovered(es, Yesterday, ThisMonth, LastMonth, now);
  }

  /**
   * With no negative amounts, a current period and the one before it never
   * count an expense twice: together they hold at most the total spent.
   */
  lemma SummaryPeriodsDisjoint(cs: seq<Category>, es: seq<Expense>, now: Instant)
    requires forall e: Expense :: e in es ==> e.amount >= 0
    ensures var s := Summary(cs, es, now);
            s.today + s.yesterday <= AmountTotal(es) &&
            s.thisWeek + s.lastWeek <= AmountTotal(es) &&
            s.thisMonth + s.lastMonth <= AmountTotal(es)
  {
    hide IsToday, IsYesterday, IsThisWeek, IsLastWeek, IsThisMonth, IsLastMonth, WindowTotal;
    forall e: Expense | e in es
      ensures !(InWindow(Today, e.date, now) && InWindow(Yesterday, e.date, now))
      ensures !(InWindow(ThisWeek, e.date, now) && InWindow(LastWeek, e.date, now))
      ensures !(InWindow(ThisMonth, e.date, now) && InWindow(LastMonth, e.date, now))
    {
      PeriodsDisjoint(e.date, now);
    }
    WindowTotalDisjoint(es, Today, Yesterday, now);
    WindowTotalDisjoint(es, ThisWeek, LastWeek, now);
    WindowTotalDisjoint(es, ThisMonth, LastMonth, now);
  }

  // ---------------------------------------------------------------------
  // The report
  // ---------------------------------------------------------------------

  /** One row per category, in category order, each row that category's. */
  lemma {:induction false} ReportRowsShape(cs: seq<Category>, es: seq<Expense>, now: Instant, current: Window, previous: Window)
    ensures |ReportRows(cs, es, now, current, previous)| == |cs|
    ensures forall i :: 0 <= i < |cs| ==> ReportRows(cs, es, now, current, previous)[i] == ReportRow(cs[i], es, now, current, previous)
  {
    hide ReportRow;
    if cs != [] {
      ReportRowsShape(cs[1..], es, now, current, previous);
    }
  }

  /**
   * The weekly and the monthly list each have one row per category, in
   * category order, carrying its id, name and icon and the totals of its own
   * expenses in the current and the previous period.
   */
  lemma ReportShape(cs: seq<Category>, es: seq<Expense>, now: Instant)
    ensures var r := Report(cs, es, now);
            |r.weekly| == |cs| && |r.monthly| == |cs| &&
            forall i :: 0 <= i < |cs| ==>
              r.weekly[i].categoryId == cs[i].id && r.weekly[i].categoryName == cs[i].name &&
              r.weekly[i].categoryIcon == cs[i].icon &&
              r.weekly[i].currentPeriodTotal == WindowTotal(ExpensesOf(es, cs[i].id), ThisWeek, now) &&
              r.weekly[i].previousPeriodTotal == WindowTotal(ExpensesOf(es, cs[i].id), LastWeek, now) &&
              r.monthly[i].categoryId == cs[i].id && r.monthly[i].categoryName == cs[i].name &&
              r.monthly[i].categoryIcon == cs[i].icon &&
              r.monthly[i].currentPeriodTotal == WindowTotal(ExpensesOf(es, cs[i].id), ThisMonth, now) &&
              r.monthly[i].previousPeriodTotal == WindowTotal(ExpensesOf(es, cs[i].id), LastMonth, now)
  {
    hide WindowTotal, ExpensesOf;
    ReportRowsShape(cs, es, now, ThisWeek, LastWeek);
    ReportRowsShape(cs, es, now, ThisMonth, LastMonth);
  }

  /** A category without expenses still gets its row, with both totals zero. */
  lemma ReportRowOfIdle(c: Category, es: seq<Expense>, now: Instant, current: Window, previous: Window)
    requires forall e: Expense :: e in es ==> e.categoryId != c.id
    ensures ReportRow(c, es, now, current, previous) == CategoryReportItem(c.id, c.name, c.icon, 0, 0)
  {
    hide WindowTotal;
    FilterDropsAll(es, CategoryIs(c.id));
    WindowTotalsOfNone(now);
  }

  lemma {:induction false} ExpensesOfCons(e: Expense, es: seq<Expense>, id: Id)
    ensures ExpensesOf([e] + es, id) == (if e.categoryId == id then [e] else []) + ExpensesOf(es, id)
  {
    FilterAppend([e], es, CategoryIs(id));
    FilterSingleton(e, CategoryIs(id));
  }

  /**
   * With distinct category ids, a new expense adds its amount to the rows'
   * summed totals exactly when it is filed under one of the categories and
   * dated in the period.
   */
  lemma {:induction false} RowTotalsCons(cs: seq<Category>, e: Expense, es: seq<Expense>, now: Instant,
                                         current: Window, previous: Window)
    requires DistinctIds(cs)
    ensures CurrentTotal(ReportRows(cs, [e] + es, now, current, previous))
         == CurrentTotal(ReportRows(cs, es, now, current, previous))
            + if e.categoryId in CategoryIds(cs) && InWindow(current, e.date, now) then e.amount else 0
    ensures PreviousTotal(ReportRows(cs, [e] + es, now, current, previous))
         == PreviousTotal(ReportRows(cs, es, now, current, previous))
            + if e.categoryId in CategoryIds(cs) && InWindow(previous, e.date, now) then e.amount else 0
  {
    hide InWindow, WindowTotal, ExpensesOf;
    if cs != [] {
      var c := cs[0];
      assert cs == [c] + cs[1..];
      CategoryIdsCons(c, cs[1..]);
      DistinctIdsCons(c, cs[1..]);
      RowTotalsCons(cs[1..], e, es, now, current, previous);
      ExpensesOfCons(e, es, c.id);
      if e.categoryId == c.id {
        WindowTotalCons(e, ExpensesOf(es, c.id), current, now);
        WindowTotalCons(e, ExpensesOf(es, c.id), previous, now);
      } else {
        assert [] + ExpensesOf(es, c.id) == ExpensesOf(es, c.id);
      }
    }
  }

  /** Without expenses every row sums to zero. */
  lemma {:induction false} RowTotalsOfNone(cs: seq<Category>, now: Instant, current: Window, previous: Window)
    ensures CurrentTotal(ReportRows(cs, [], now, current, previous)) == 0
    ensures PreviousTotal(ReportRows(cs, [], now, current, previous)) == 0
  {
    hide WindowTotal;
    if cs != [] {
      RowTotalsOfNone(cs[1..], now, current, previous);
      ReportRowOfIdle(cs[0], [], now, current, previous);
    }
  }

  /**
   * With distinct category ids and every expense filed under an existing
   * category, the rows of a period share out exactly the overall total of
   * that period.
   */
  lemma {:induction false} RowTotalsMatchWindows(cs: seq<Category>, es: seq<Expense>, now: Instant,
                                                 current: Window, previous: Window)
    requires DistinctIds(cs) && NoOrphans(cs, es)
    ensures CurrentTotal(ReportRows(cs, es, now, current, previous)) == WindowTotal(es, current, now)
    ensures PreviousTotal(ReportRows(cs, es, now, current, previous)) == WindowTotal(es, previous, now)
  {
    hide InWindow, WindowTotal, ReportRows, CategoryIds;
    if es == [] {
      RowTotalsOfNone(cs, now, current, previous);
      WindowTotalsOfNone(now);
    } else {
      var e := es[0];
      assert es == [e] + es[1..];
      assert e in es;
      RowTotalsMatchWindows(cs, es[1..], now, current, previous);
      RowTotalsCons(cs, e, es[1..], now, current, previous);
      WindowTotalCons(e, es[1..], current, now);
      WindowTotalCons(e, es[1..], previous, now);
    }
  }

  /**
   * The report agrees with the summary: under distinct category ids and no
   * orphaned expenses, the weekly rows add up to this and last week's
   * buckets and the monthly rows to this and last month's.
   */
  lemma ReportMatchesSummary(cs: seq<Category>, es: seq<Expense>, now: Instant)
    requires DistinctIds(cs) && NoOrphans(cs, es)
    ensures var r := Report(cs, es, now);
            var s := Summary(cs, es, now);
            CurrentTotal(r.weekly) == s.thisWeek && PreviousTotal(r.weekly) == s.lastWeek &&
            CurrentTotal(r.monthly) == s.thisMonth && PreviousTotal(r.monthly) == s.lastMonth
  {
    hide WindowTotal, ReportRows;
    RowTotalsMatchWindows(cs, es, now, ThisWeek, LastWeek);
    RowTotalsMatchWindows(cs, es, now, ThisMonth, LastMonth);
  }

  /** `getCategoryExpenses` is the category's expenses narrowed to those dated this month. */
  lemma {:induction false} CategoryExpensesByMonth(categoryId: Id, es: seq<Expense>, now: Instant)
    ensures CategoryExpenses(es, categoryId, now) == ExpensesIn(ExpensesOf(es, categoryId), ThisMonth, now)
  {
    hide IsThisMonth, MonthOf, MonthOfDay, FirstDayOfMonth;
    if es != [] {
      var e := es[0];
      var rest := es[1..];
      assert es == [e] + rest;
      CategoryExpensesByMonth(categoryId, rest, now);
      FilterAppend([e], rest, CategoryThisMonth(categoryId, now));
      FilterSingleton(e, CategoryThisMonth(categoryId, now));
      ExpensesOfCons(e, rest, categoryId);
      if e.categoryId == categoryId {
        FilterAppend([e], ExpensesOf(rest, categoryId), DatedIn(ThisMonth, now));
        FilterSingleton(e, DatedIn(ThisMonth, now));
      } else {
        assert [] + ExpensesOf(rest, categoryId) == ExpensesOf(rest, categoryId);
      }
    }
  }

  /** The amounts `getCategoryExpenses` returns add up to the category's current monthly report figure. */
  lemma CategoryExpensesInReport(c: Category, es: seq<Expense>, now: Instant)
    ensures AmountTotal(CategoryExpenses(es, c.id, now)) == ReportRow(c, es, now, ThisMonth, LastMonth).currentPeriodTotal
  {
    hide IsThisMonth, MonthOf, MonthOfDay, FirstDayOfMonth, CategoryExpenses, ExpensesIn;
    CategoryExpensesByMonth(c.id, es, now);
  }
}
