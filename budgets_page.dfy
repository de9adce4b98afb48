/** `pages/4_Budgets.py`: one budget input per expense category, defaulting
    to the stored budget of the month, the save loop of `set_budget`, and
    the "Budget vs. Actual Spending" chart. */
module BudgetsPage {
  import opened Wrappers
  import opened Seqs
  import opened Schema
  import opened Db
  import opened Queries
  import opened BudgetChart

  /* ---------------- Expense categories ---------------- */

  function IsExpenseEntry(e: CategoryEntry): bool
  {
    e.categoryType == ExpenseType
  }

  /** `categories_df[categories_df['Category Type'] == 'expense']`: the
      listed expense categories, in listing order. */
  function ExpenseEntries(listed: seq<CategoryEntry>): (r: seq<CategoryEntry>)
    ensures forall e :: e in r <==> e in listed && e.categoryType == ExpenseType
  {
    Filter(listed, IsExpenseEntry)
  }

  /** No two entries share an id. */
  predicate IdsDistinct(entries: seq<CategoryEntry>)
  {
    forall i, j :: 0 <= i < j < |entries| ==> entries[i].id != entries[j].id
  }

  /* ---------------- The form ---------------- */

  /** `float(budget_dict.get(cat_id, 0.0))`. */
  function DefaultAmount(d: Dict, id: int): real
  {
    match DictGet(d, id)
    case Some(a) => a
    case None => 0.0
  }

  /** `budget_inputs[cat_id] = <the input's value>` for each expense
      category in turn. */
  function InputsDict(expense: seq<CategoryEntry>, entered: seq<real>): Dict
    requires |entered| == |expense|
  {
    if expense == [] then []
    else DictPut(InputsDict(expense[..|expense| - 1], entered[..|entered| - 1]),
                 expense[|expense| - 1].id, entered[|entered| - 1])
  }

  /** The form loop: each expense category gets an input whose default is
      its stored budget for the month, or 0.0, and whose value goes into
      `budget_inputs`. */
  method BudgetForm(expense: seq<CategoryEntry>, budgets: Dict, entered: seq<real>)
    returns (defaults: seq<real>, inputs: Dict)
    requires |entered| == |expense|
    ensures |defaults| == |expense|
    ensures forall i :: 0 <= i < |expense| ==> defaults[i] == DefaultAmount(budgets, expense[i].id)
    ensures inputs == InputsDict(expense, entered)
  {
    defaults, inputs := [], [];
    var i := 0;
    while i < |expense|
      invariant 0 <= i <= |expense|
      invariant |defaults| == i
      invariant forall k :: 0 <= k < i ==> defaults[k] == DefaultAmount(budgets, expense[k].id)
      invariant inputs == InputsDict(expense[..i], entered[..i])
    {
      defaults := defaults + [DefaultAmount(budgets, expense[i].id)];
      assert expense[..i + 1][..i] == expense[..i] && entered[..i + 1][..i] == entered[..i];
      inputs := DictPut(inputs, expense[i].id, entered[i]);
      i := i + 1;
    }
    assert expense[..i] == expense && entered[..i] == entered;
  }

  /* ---------------- Saving ---------------- */

  /** `set_budget` for every item of the dict in turn; the i-th call takes
      the id `next + i`. */
  function SaveAll(budgets: seq<Budget>, next: int, userId: int, month: int, year: int, items: Dict): seq<Budget>
  {
    if items == [] then budgets
    else
      var init := items[..|items| - 1];
      UpsertBudget(SaveAll(budgets, next, userId, month, year, init),
        Budget(next + |init|, userId, items[|items| - 1].1, month, year, items[|items| - 1].0))
  }

  /** The save loop: one `set_budget` per input, zeros included. */
  method SaveBudgets(db: Database, userId: int, month: int, year: int, inputs: Dict)
    requires db.Valid()
    modifies db
    ensures db.Valid()
    ensures db.budgets == SaveAll(old(db.budgets), old(db.nextBudgetId), userId, month, year, inputs)
    ensures db.nextBudgetId == old(db.nextBudgetId) + |inputs|
    ensures db.users == old(db.users) && db.categories == old(db.categories) && db.transactions == old(db.transactions)
    ensures db.nextUserId == old(db.nextUserId) && db.nextCategoryId == old(db.nextCategoryId)
    ensures db.nextTransactionId == old(db.nextTransactionId)
  {
    var i := 0;
    while i < |inputs|
      invariant 0 <= i <= |inputs|
      invariant db.Valid()
      invariant db.budgets == SaveAll(old(db.budgets), old(db.nextBudgetId), userId, month, year, inputs[..i])
      invariant db.nextBudgetId == old(db.nextBudgetId) + i
      invariant db.users == old(db.users) && db.categories == old(db.categories) && db.transactions == old(db.transactions)
      invariant db.nextUserId == old(db.nextUserId) && db.nextCategoryId == old(db.nextCategoryId)
      invariant db.nextTransactionId == old(db.nextTransactionId)
    {
      assert inputs[..i + 1][..i] == inputs[..i];
      db.SetBudget(userId, inputs[i].0, month, year, inputs[i].1);
      i := i + 1;
    }
    assert inputs[..i] == inputs;
  }

  /* ---------------- The chart ---------------- */

  /** Each expense category, in listing order, yields its Budget entry (0 if
      no budget is stored) then its Spent entry (0 if it has no spending
      row), both labelled with the category's own name. */
  predicate ChartOfExpenses(chart: seq<ChartEntry>, expense: seq<CategoryEntry>, budgets: Dict, spent: seq<SpentRow>)
  {
    && |chart| == 2 * |expense|
    && forall i :: 0 <= i < |expense| ==>
         && chart[2 * i] == ChartEntry(expense[i].name, DefaultAmount(budgets, expense[i].id), BudgetKind)
         && chart[2 * i + 1] == ChartEntry(expense[i].name, SpentAmount(spent, expense[i].id), SpentKind)
  }

  /** The chart loop. */
  method BudgetVsSpent(expense: seq<CategoryEntry>, budgets: Dict, spent: seq<SpentRow>) returns (chart: seq<ChartEntry>)
    ensures ChartOfExpenses(chart, expense, budgets, spent)
  {
    chart := [];
    var i := 0;
    while i < |expense|
      invariant 0 <= i <= |expense|
      invariant ChartOfExpenses(chart, expense[..i], budgets, spent)
    {
      var e := expense[i];
      chart := chart + [ChartEntry(e.name, DefaultAmount(budgets, e.id), BudgetKind),
                        ChartEntry(e.name, SpentAmount(spent, e.id), SpentKind)];
      i := i + 1;
    }
    assert expense[..i] == expense;
  }

  /* ---------------- The page ---------------- */

  datatype BudgetsView =
    | NoCategories          // "Please add some categories first."
    | NoExpenseCategories   // "You don't have any expense categories yet. ..."
    | Budgets(defaults: seq<real>, saved: bool, chart: seq<ChartEntry>)

  /** One run of the page for the selected month and year. `entered` holds
      the inputs' values and `submitted` whether "Save Budgets" was pressed.
      The chart reads the budgets fetched BEFORE the save. */
  method BudgetsPageRun(db: Database, userId: int, month: int, year: int, entered: seq<real>, submitted: bool)
    returns (v: BudgetsView)
    requires db.Valid()
    requires |entered| == |ExpenseEntries(UserCategories(db.categories, userId))|
    modifies db
    ensures db.Valid()
    ensures db.users == old(db.users) && db.categories == old(db.categories) && db.transactions == old(db.transactions)
    ensures UserCategories(db.categories, userId) == [] ==> v == NoCategories && db.budgets == old(db.budgets)
    ensures UserCategories(db.categories, userId) != [] && ExpenseEntries(UserCategories(db.categories, userId)) == [] ==>
      v == NoExpenseCategories && db.budgets == old(db.budgets)
    ensures ExpenseEntries(UserCategories(db.categories, userId)) != [] ==>
      var expense := ExpenseEntries(UserCategories(db.categories, userId));
      var budgets := BudgetDict(BudgetsForMonth(db.categories, old(db.budgets), userId, month, year));
      && v.Budgets?
      && |v.defaults| == |expense|
      && (forall i :: 0 <= i < |expense| ==> v.defaults[i] == DefaultAmount(budgets, expense[i].id))
      && v.saved == submitted
      && (submitted ==>
            db.budgets == SaveAll(old(db.budgets), old(db.nextBudgetId), userId, month, year, InputsDict(expense, entered)))
      && (!submitted ==> db.budgets == old(db.budgets))
      && ChartOfExpenses(v.chart, expense, budgets, SpentPerCategory(db.categories, db.transactions, userId, month, year))
  {
    var listed := UserCategories(db.categories, userId);
    if listed == [] {
      return NoCategories;
    }
    var expense := ExpenseEntries(listed);
    if expense == [] {
      return NoExpenseCategories;
    }
    var budgets := BudgetDict(BudgetsForMonth(db.categories, db.budgets, userId, month, year));
    var defaults, inputs := BudgetForm(expense, budgets, entered);
    if submitted {
      SaveBudgets(db, userId, month, year, inputs);
    }
    var spent := SpentPerCategory(db.categories, db.transactions, userId, month, year);
    var chart := BudgetVsSpent(expense, budgets, spent);
    v := Budgets(defaults, submitted, chart);
  }

  /* ---------------- Properties ---------------- */

  predicate DictDistinct(d: Dict)
  {
    forall i, j :: 0 <= i < j < |d| ==> d[i].0 != d[j].0
  }

  lemma {:induction false} DictPutDistinct(d: Dict, k: int, v: real)
    requires DictDistinct(d)
    ensures DictDistinct(DictPut(d, k, v))
  {
    DictPutKeys(d, k, v);
    var r := DictPut(d, k, v);
    assert forall i :: 0 <= i < |d| ==> DictKeys(d)[i] == d[i].0;
    assert forall i :: 0 <= i < |r| ==> DictKeys(r)[i] == r[i].0;
  }

  /** A key the dict gives a value to sits at some position with that value. */
  lemma {:induction false} DictGetIndex(d: Dict, k: int)
    requires DictGet(d, k).Some?
    ensures exists j :: 0 <= j < |d| && d[j] == (k, DictGet(d, k).value)
  {
    if d[0].0 != k {
      DictGetIndex(d[1..], k);
      var j :| 0 <= j < |d[1..]| && d[1..][j] == (k, DictGet(d[1..], k).value);
      assert d[j + 1] == d[1..][j];
    }
  }

  lemma {:induction false} InputsDictDistinct(expense: seq<CategoryEntry>, entered: seq<real>)
    requires |entered| == |expense|
    ensures DictDistinct(InputsDict(expense, entered))
  {
    if expense != [] {
      InputsDictDistinct(expense[..|expense| - 1], entered[..|entered| - 1]);
      DictPutDistinct(InputsDict(expense[..|expense| - 1], entered[..|entered| - 1]),
        expense[|expense| - 1].id, entered[|entered| - 1]);
    }
  }

  /** With distinct ids, the inputs dict gives each expense category the
      value of its own input. */
  lemma {:induction false} InputsDictGet(expense: seq<CategoryEntry>, entered: seq<real>, i: nat)
    requires |entered| == |expense| && IdsDistinct(expense) && i < |expense|
    ensures DictGet(InputsDict(expense, entered), expense[i].id) == Some(entered[i])
  {
    var n := |expense| - 1;
    var init, initEntered := expense[..n], entered[..n];
    DictPutGet(InputsDict(init, initEntered), expense[n].id, entered[n], expense[i].id);
    if i < n {
      assert IdsDistinct(init) by {
        forall a, b | 0 <= a < b < |init| ensures init[a].id != init[b].id {
          assert init[a] == expense[a] && init[b] == expense[b];
        }
      }
      InputsDictGet(init, initEntered, i);
      assert init[i] == expense[i] && initEntered[i] == entered[i];
    }
  }

  lemma {:induction false} SaveAllOk(budgets: seq<Budget>, next: int, userId: int, month: int, year: int, items: Dict)
    requires BudgetsOk(budgets, next)
    ensures BudgetsOk(SaveAll(budgets, next, userId, month, year, items), next + |items|)
  {
    if items != [] {
      var init := items[..|items| - 1];
      SaveAllOk(budgets, next, userId, month, year, init);
      UpsertBudgetOk(SaveAll(budgets, next, userId, month, year, init), next + |init|,
        Budget(next + |init|, userId, items[|items| - 1].1, month, year, items[|items| - 1].0));
    }
  }

  /** `key` has a row, and every row with that key holds `amount` and an id
      from `first` on. */
  predicate Stored(budgets: seq<Budget>, key: BudgetKey, amount: real, first: int)
  {
    && (exists b :: b in budgets && KeyOf(b) == key)
    && (forall b :: b in budgets && KeyOf(b) == key ==> b.amount == amount && b.id >= first)
  }

  /** One `set_budget` stores its own row. */
  lemma UpsertStores(budgets: seq<Budget>, next: int, row: Budget, first: int)
    requires BudgetsOk(budgets, next) && row.id == next && first <= next
    ensures Stored(UpsertBudget(budgets, row), KeyOf(row), row.amount, first)
  {
    UpsertBudgetEffect(budgets, next, row);
  }

  /** One `set_budget` on another key keeps what was stored. */
  lemma UpsertKeepsStored(budgets: seq<Budget>, next: int, row: Budget, key: BudgetKey, amount: real, first: int)
    requires BudgetsOk(budgets, next) && row.id == next && KeyOf(row) != key
    requires Stored(budgets, key, amount, first)
    ensures Stored(UpsertBudget(budgets, row), key, amount, first)
  {
    UpsertBudgetEffect(budgets, next, row);
    var b :| b in budgets && KeyOf(b) == key;
    assert b in UpsertBudget(budgets, row);
  }

  /** After the save, the key of item `k` has a row, and every row with that
      key holds the item's amount and an id the save allocated. */
  lemma {:induction false} SaveAllStores(
    budgets: seq<Budget>, next: int, userId: int, month: int, year: int, items: Dict, k: nat)
    requires BudgetsOk(budgets, next) && DictDistinct(items) && k < |items|
    ensures Stored(SaveAll(budgets, next, userId, month, year, items),
                   BudgetKey(userId, items[k].0, month, year), items[k].1, next)
  {
    var n := |items| - 1;
    var init := items[..n];
    var prev := SaveAll(budgets, next, userId, month, year, init);
    var row := Budget(next + n, userId, items[n].1, month, year, items[n].0);
    SaveAllOk(budgets, next, userId, month, year, init);
    if k == n {
      UpsertStores(prev, next + n, row, next);
    } else {
      assert DictDistinct(init) by {
        forall a, b | 0 <= a < b < |init| ensures init[a].0 != init[b].0 {
          assert init[a] == items[a] && init[b] == items[b];
        }
      }
      SaveAllStores(budgets, next, userId, month, year, init, k);
      assert init[k] == items[k];
      UpsertKeepsStored(prev, next + n, row, BudgetKey(userId, items[k].0, month, year), items[k].1, next);
    }
  }

  /** Saving leaves every budget of another user, month, year or category
      where it was. */
  lemma {:induction false} SaveAllKeepsOthers(
    budgets: seq<Budget>, next: int, userId: int, month: int, year: int, items: Dict, b: Budget)
    requires BudgetsOk(budgets, next) && b in budgets
    requires b.userId != userId || b.month != month || b.year != year
      || forall j :: 0 <= j < |items| ==> items[j].0 != b.categoryId
    ensures b in SaveAll(budgets, next, userId, month, year, items)
  {
    if items != [] {
      var n := |items| - 1;
      var init := items[..n];
      assert forall j :: 0 <= j < n ==> init[j] == items[j];
      SaveAllKeepsOthers(budgets, next, userId, month, year, init, b);
      var prev := SaveAll(budgets, next, userId, month, year, init);
      var row := Budget(next + n, userId, items[n].1, month, year, items[n].0);
      SaveAllOk(budgets, next, userId, month, year, init);
      UpsertBudgetEffect(prev, next + n, row);
      assert KeyOf(b) != KeyOf(row);
    }
  }

  /** Saving the form stores, for each expense category, one budget key for
      the month whose rows all hold the value of that category's input. */
  lemma SaveStoresEntered(
    budgets: seq<Budget>, next: int, userId: int, month: int, year: int,
    expense: seq<CategoryEntry>, entered: seq<real>, i: nat)
    requires BudgetsOk(budgets, next) && |entered| == |expense| && IdsDistinct(expense) && i < |expense|
    ensures var key := BudgetKey(userId, expense[i].id, month, year);
      var r := SaveAll(budgets, next, userId, month, year, InputsDict(expense, entered));
      && (exists b :: b in r && KeyOf(b) == key)
      && (forall b :: b in r && KeyOf(b) == key ==> b.amount == entered[i])
  {
    var items := InputsDict(expense, entered);
    InputsDictGet(expense, entered, i);
    InputsDictDistinct(expense, entered);
    DictGetIndex(items, expense[i].id);
    var k :| 0 <= k < |items| && items[k] == (expense[i].id, entered[i]);
    SaveAllStores(budgets, next, userId, month, year, items, k);
  }
}
