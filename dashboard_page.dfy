/** `pages/1_Dashboard.py`: the period totals and net balance, and the budget
    progress chart for the month of the end date. */
module DashboardPage {
  import opened Wrappers
  import opened Text
  import opened Seqs
  import opened Dates
  import opened Schema
  import opened Db
  import opened Queries
  import opened Aggregate
  import opened BudgetChart

  /* ---------------- Totals and net balance ---------------- */

  /** `total_income - total_expenses - total_savings`, each total being
      `df_summary[df_summary['Type'] == t]['Total'].sum()`. */
  function NetBalance(summary: seq<Bucket>): real
  {
    SumFor(summary, IncomeType) - SumFor(summary, ExpenseType) - SumFor(summary, SavingsType)
  }

  function OfType(ty: string): Bucket -> bool
  {
    (b: Bucket) => b.key == ty
  }

  /** The total of the summary row of type `ty`, or 0 when there is none. */
  function RowTotal(summary: seq<Bucket>, ty: string): real
  {
    match First(summary, OfType(ty))
    case Some(b) => b.total
    case None => 0.0
  }

  /** On a summary with one row per type, summing the rows of a type gives
      that row's total, and 0 for a missing type. */
  lemma SortedRowTotal(summary: seq<Bucket>, ty: string)
    requires StrictlySorted(summary)
    ensures SumFor(summary, ty) == RowTotal(summary, ty)
  {
    match First(summary, OfType(ty))
    case Some(b) =>
      var i :| 0 <= i < |summary| && summary[i] == b && OfType(ty)(summary[i]);
      SortedSumFor(summary, i);
    case None =>
      forall b | b in summary ensures b.key != ty {
        var i :| 0 <= i < |summary| && summary[i] == b;
        assert !OfType(ty)(summary[i]);
      }
      SumForAbsent(summary, ty);
  }

  /** The net balance is income minus expenses minus savings, reading each
      from its summary row, a missing type counting 0; and it equals the
      same difference over the selected transactions themselves. */
  lemma NetBalanceOfSummary(cats: seq<Category>, next: int, txs: seq<Transaction>, userId: int, lo: string, hi: string)
    requires CategoriesOk(cats, next)
    ensures var s := Summary(cats, txs, userId, lo, hi);
      NetBalance(s) == RowTotal(s, IncomeType) - RowTotal(s, ExpenseType) - RowTotal(s, SavingsType)
    ensures NetBalance(Summary(cats, txs, userId, lo, hi))
        == SelectedTypeTotal(cats, txs, userId, lo, hi, IncomeType)
           - SelectedTypeTotal(cats, txs, userId, lo, hi, ExpenseType)
           - SelectedTypeTotal(cats, txs, userId, lo, hi, SavingsType)
  {
    var s := Summary(cats, txs, userId, lo, hi);
    var pairs := SummaryPairs(cats, txs, userId, lo, hi);
    SummaryShape(cats, next, txs, userId, lo, hi, IncomeType);
    SortedRowTotal(s, IncomeType);
    SortedRowTotal(s, ExpenseType);
    SortedRowTotal(s, SavingsType);
    GroupSumFor(pairs, IncomeType);
    GroupSumFor(pairs, ExpenseType);
    GroupSumFor(pairs, SavingsType);
    SummaryPairsSumFor(cats, next, txs, userId, lo, hi, IncomeType);
    SummaryPairsSumFor(cats, next, txs, userId, lo, hi, ExpenseType);
    SummaryPairsSumFor(cats, next, txs, userId, lo, hi, SavingsType);
  }

  /** A transaction the summary selects counts towards its category's type:
      the type's total is taken over exactly such transactions. */
  lemma SelectedOfOwnType(
    cats: seq<Category>, next: int, userId: int, lo: string, hi: string, t: Transaction, c: Category)
    requires CategoriesOk(cats, next) && c in cats && t.categoryId == Some(c.id)
    ensures SelectedOfType(cats, userId, lo, hi, c.categoryType, t)
        <==> t.userId == userId && Between(t.date, lo, hi)
  {
    if SelectedOfType(cats, userId, lo, hi, c.categoryType, t) {
      var c' :| c' in cats && SummaryJoin(t, c', userId, lo, hi) && c'.categoryType == c.categoryType;
      CategoryByIdExact(cats, next, c');
      CategoryByIdExact(cats, next, c);
    }
  }

  /** As written, the dashboard totals count a joined transaction of the user
      exactly when its date lies between the picked dates OR is the day after
      the end date. */
  lemma DashboardCounts(
    cats: seq<Category>, next: int, userId: int, start: Date, end: Date, t: Transaction, c: Category, d: Date)
    requires CategoriesOk(cats, next) && Valid(start) && Valid(end) && Valid(d)
    requires !Before(end, start) && end != LastDate
    requires c in cats && t.userId == userId && t.categoryId == Some(c.id) && t.date == Format(d)
    ensures var w := PageWindow(start, end).value;
      (SelectedOfType(cats, userId, w.0, w.1, c.categoryType, t)
       <==> !Before(d, start) && (!Before(end, d) || NextDay(end) == Some(d)))
  {
    var w := PageWindow(start, end).value;
    PageWindowAdmits(start, end, d);
    SelectedOfOwnType(cats, next, userId, w.0, w.1, t, c);
  }

  /** The as-written window in the totals: for the dates 2024-03-01 to
      2024-03-31, an expense dated 2024-04-01 is counted in the expenses. */
  lemma DashboardCountsNextMonth(
    cats: seq<Category>, next: int, txs: seq<Transaction>, userId: int, t: Transaction, c: Category)
    requires CategoriesOk(cats, next) && t in txs && c in cats && c.categoryType == ExpenseType
    requires t.userId == userId && t.categoryId == Some(c.id) && t.date == Format(Date(2024, 4, 1))
    ensures var w := PageWindow(Date(2024, 3, 1), Date(2024, 3, 31)).value;
      && SelectedOfType(cats, userId, w.0, w.1, ExpenseType, t)
      && ExpenseType in Keys(Summary(cats, txs, userId, w.0, w.1))
  {
    var start, end, d := Date(2024, 3, 1), Date(2024, 3, 31), Date(2024, 4, 1);
    assert NextDay(end) == Some(d);
    DashboardCounts(cats, next, userId, start, end, t, c, d);
    var w := PageWindow(start, end).value;
    SummaryShape(cats, next, txs, userId, w.0, w.1, ExpenseType);
  }

  /** With the window the page evidently intends, the totals count a joined
      transaction of the user exactly when its date lies between the picked
      dates, both included. */
  lemma CorrectedDashboardCounts(
    cats: seq<Category>, next: int, userId: int, start: Date, end: Date, t: Transaction, c: Category, d: Date)
    requires CategoriesOk(cats, next) && Valid(start) && Valid(end) && Valid(d)
    requires c in cats && t.userId == userId && t.categoryId == Some(c.id) && t.date == Format(d)
    ensures var w := InclusiveWindow(start, end);
      (SelectedOfType(cats, userId, w.0, w.1, c.categoryType, t)
       <==> !Before(d, start) && !Before(end, d))
  {
    var w := InclusiveWindow(start, end);
    InclusiveWindowExact(start, end, d);
    SelectedOfOwnType(cats, next, userId, w.0, w.1, t, c);
  }

  /* ---------------- Budget progress ---------------- */

  /** Each budget of the dict, in dict order, yields two entries: its Budget
      then its Spent, both labelled with the category name from the spending
      rows, or 'N/A' with 0 spent when the category has none. */
  predicate PairsBudgets(chart: seq<ChartEntry>, d: Dict, spent: seq<SpentRow>)
  {
    && |chart| == 2 * |d|
    && forall i :: 0 <= i < |d| ==>
         && chart[2 * i] == ChartEntry(SpentLabel(spent, d[i].0), d[i].1, BudgetKind)
         && chart[2 * i + 1] == ChartEntry(SpentLabel(spent, d[i].0), SpentAmount(spent, d[i].0), SpentKind)
  }

  /** Charting one more budget appends its two entries. */
  lemma PairsBudgetsAppend(chart: seq<ChartEntry>, d: Dict, spent: seq<SpentRow>, item: (int, real))
    requires PairsBudgets(chart, d, spent)
    ensures PairsBudgets(chart + [ChartEntry(SpentLabel(spent, item.0), item.1, BudgetKind),
                                  ChartEntry(SpentLabel(spent, item.0), SpentAmount(spent, item.0), SpentKind)],
                         d + [item], spent)
  {
    var d' := d + [item];
    forall i | 0 <= i < |d'| ensures d'[i] == if i < |d| then d[i] else item {
    }
  }

  /** The budget-progress loop for the month and year of the end date. */
  method BudgetProgress(db: Database, userId: int, end: Date) returns (chart: seq<ChartEntry>)
    ensures PairsBudgets(chart,
      BudgetDict(BudgetsForMonth(db.categories, db.budgets, userId, end.month, end.year)),
      SpentPerCategory(db.categories, db.transactions, userId, end.month, end.year))
  {
    var budgets := BudgetDict(BudgetsForMonth(db.categories, db.budgets, userId, end.month, end.year));
    var spent := SpentPerCategory(db.categories, db.transactions, userId, end.month, end.year);
    chart := [];
    var i := 0;
    while i < |budgets|
      invariant 0 <= i <= |budgets|
      invariant PairsBudgets(chart, budgets[..i], spent)
    {
      var categoryId, amount := budgets[i].0, budgets[i].1;
      var name := SpentLabel(spent, categoryId);
      PairsBudgetsAppend(chart, budgets[..i], spent, budgets[i]);
      assert budgets[..i + 1] == budgets[..i] + [budgets[i]];
      chart := chart + [ChartEntry(name, amount, BudgetKind), ChartEntry(name, SpentAmount(spent, categoryId), SpentKind)];
      i := i + 1;
    }
    assert budgets[..i] == budgets;
  }

  /* ---------------- The page ---------------- */

  datatype DashboardView =
    | RangeError       // "Start date must be before end date."
    | Overflow         // the day after 9999-12-31 raises
    | NoData           // "No data to display for the selected date range. ..."
    | Overview(income: real, expenses: real, savings: real, balance: real, progress: seq<ChartEntry>)

  /** The summary section: nothing is fetched when the start is after the
      end; otherwise the summary is taken from the start date to the day
      after the end date, and the budget progress for the end date's month. */
  method Dashboard(db: Database, userId: int, start: Date, end: Date) returns (v: DashboardView)
    requires Valid(start) && Valid(end)
    ensures v.RangeError? <==> Before(end, start)
    ensures v.Overflow? <==> !Before(end, start) && end == LastDate
    ensures !Before(end, start) && end != LastDate ==>
      var s := Summary(db.categories, db.transactions, userId, Format(start), Format(NextDay(end).value));
      && (v.NoData? <==> s == [])
      && (v.Overview? ==>
            && v.income == SumFor(s, IncomeType) && v.expenses == SumFor(s, ExpenseType)
            && v.savings == SumFor(s, SavingsType) && v.balance == NetBalance(s)
            && PairsBudgets(v.progress,
                 BudgetDict(BudgetsForMonth(db.categories, db.budgets, userId, end.month, end.year)),
                 SpentPerCategory(db.categories, db.transactions, userId, end.month, end.year)))
  {
    if Before(end, start) {
      return RangeError;
    }
    var window := PageWindow(start, end);
    if window.None? {
      return Overflow;
    }
    var summary := Summary(db.categories, db.transactions, userId, window.value.0, window.value.1);
    if summary == [] {
      return NoData;
    }
    var income := SumFor(summary, IncomeType);
    var expenses := SumFor(summary, ExpenseType);
    var savings := SumFor(summary, SavingsType);
    var progress := BudgetProgress(db, userId, end);
    v := Overview(income, expenses, savings, income - expenses - savings, progress);
  }
}
