/** The readers of `setup/db.py`: each SELECT as a function of the tables.
    A JOIN on `category_id = c.id` looks the category up by id; under the
    schema's constraints ids are unique, so the first match is the only one.
    A query without `ORDER BY` returns rows in table (rowid) order. */
module Queries {
  import opened Wrappers
  import opened Text
  import opened Seqs
  import opened Dates
  import opened Schema
  import opened Aggregate

  /* ---------------- Users ---------------- */

  function NamedUser(username: string): User -> bool
  {
    (u: User) => u.username == username
  }

  function UserWithId(id: int): User -> bool
  {
    (u: User) => u.id == id
  }

  /** `authenticate_user(username, password)`: the user row with that name if
      the password checks against its stored hash (`bcrypt.checkpw` is the
      parameter `checkpw`), otherwise nothing. */
  function Authenticate(users: seq<User>, username: string, password: string, checkpw: (string, string) -> bool)
    : (r: Option<User>)
    ensures r.Some? ==> r.value in users && r.value.username == username && checkpw(password, r.value.passwordHash)
  {
    match First(users, NamedUser(username))
    case Some(u) => if checkpw(password, u.passwordHash) then Some(u) else None
    case None => None
  }

  /** With unique usernames, login succeeds exactly for a stored user of that
      name whose hash the password checks against. */
  lemma AuthenticateExact(users: seq<User>, next: int, username: string, password: string,
                          checkpw: (string, string) -> bool)
    requires UsersOk(users, next)
    ensures Authenticate(users, username, password, checkpw).Some?
        <==> exists u :: u in users && u.username == username && checkpw(password, u.passwordHash)
  {
    if exists u :: u in users && u.username == username && checkpw(password, u.passwordHash) {
      var u :| u in users && u.username == username && checkpw(password, u.passwordHash);
      var k :| 0 <= k < |users| && users[k] == u;
      assert NamedUser(username)(users[k]);
      var found := First(users, NamedUser(username));
      var i :| 0 <= i < |users| && users[i] == found.value && NamedUser(username)(users[i]);
      SameNameSameUser(users, next, users[i], u);
    }
  }

  /** Two stored users with one name are one user. */
  lemma SameNameSameUser(users: seq<User>, next: int, a: User, b: User)
    requires UsersOk(users, next) && a in users && b in users && a.username == b.username
    ensures a == b
  {
    var i :| 0 <= i < |users| && users[i] == a;
    var j :| 0 <= j < |users| && users[j] == b;
    assert UserRowId(users[i]) == UserRowId(users[j]);
  }

  /** `get_username_by_id(user_id)`. */
  function UsernameById(users: seq<User>, id: int): (r: Option<string>)
    ensures r.Some? <==> exists u :: u in users && u.id == id
    ensures r.Some? ==> exists u :: u in users && u.id == id && u.username == r.value
  {
    match First(users, UserWithId(id))
    case Some(u) =>
      assert UserWithId(id)(u);
      Some(u.username)
    case None =>
      assert forall u | u in users :: u.id != id by {
        forall u | u in users ensures u.id != id {
          var k :| 0 <= k < |users| && users[k] == u;
          assert !UserWithId(id)(users[k]);
        }
      }
      None
  }

  /* ---------------- Categories ---------------- */

  /** A row of `get_user_categories`: (id, category_name, category_type). */
  datatype CategoryEntry = CategoryEntry(id: int, name: string, categoryType: string)

  function EntryOf(userId: int): Category -> Option<CategoryEntry>
  {
    (c: Category) => if c.userId == userId then Some(CategoryEntry(c.id, c.name, c.categoryType)) else None
  }

  function EntryName(e: CategoryEntry): string
  {
    e.name
  }

  /** `get_user_categories(user_id)`: the user's categories `ORDER BY
      category_name ASC`, a permutation of the user's rows in name order. */
  function UserCategories(cats: seq<Category>, userId: int): (r: seq<CategoryEntry>)
    ensures SortedBy(r, EntryName, false)
    ensures multiset(r) == multiset(FilterMap(cats, EntryOf(userId)))
  {
    SortBy(FilterMap(cats, EntryOf(userId)), EntryName, false)
  }

  /** The listed entries are exactly the user's categories. */
  lemma UserCategoriesMembers(cats: seq<Category>, userId: int, e: CategoryEntry)
    ensures e in UserCategories(cats, userId)
        <==> exists c :: c in cats && c.userId == userId && e == CategoryEntry(c.id, c.name, c.categoryType)
  {
    var s := FilterMap(cats, EntryOf(userId));
    assert e in UserCategories(cats, userId) <==> e in multiset(s);
    FilterMapMembers(cats, EntryOf(userId), e);
    if e in s {
      var i :| 0 <= i < |cats| && EntryOf(userId)(cats[i]) == Some(e);
      assert cats[i] in cats;
    }
    if exists c :: c in cats && c.userId == userId && e == CategoryEntry(c.id, c.name, c.categoryType) {
      var c :| c in cats && c.userId == userId && e == CategoryEntry(c.id, c.name, c.categoryType);
      var i :| 0 <= i < |cats| && cats[i] == c;
      assert EntryOf(userId)(cats[i]) == Some(e);
    }
  }

  /** The entries of the six default rows, in insertion order. */
  lemma DefaultEntries(cats: seq<Category>, userId: int, first: int)
    requires forall c :: c in cats ==> c.userId != userId
    ensures FilterMap(cats + DefaultRows(userId, first), EntryOf(userId)) == [
      CategoryEntry(first, "Groceries", ExpenseType),
      CategoryEntry(first + 1, "Bills", ExpenseType),
      CategoryEntry(first + 2, "Rent", ExpenseType),
      CategoryEntry(first + 3, "Salary", IncomeType),
      CategoryEntry(first + 4, "Freelance", IncomeType),
      CategoryEntry(first + 5, "Savings", SavingsType)]
  {
    var f := EntryOf(userId);
    var rows := DefaultRows(userId, first);
    forall i | 0 <= i < |cats| ensures f(cats[i]).None? {
      assert cats[i] in cats;
    }
    FilterMapNone(cats, f);
    FilterMapAll(rows, f);
    FilterMapAppend(cats, rows, f);
  }

  /** The six default entries in insertion order. */
  function DefaultEntryList(first: int): seq<CategoryEntry>
  {
    [CategoryEntry(first, "Groceries", ExpenseType),
     CategoryEntry(first + 1, "Bills", ExpenseType),
     CategoryEntry(first + 2, "Rent", ExpenseType),
     CategoryEntry(first + 3, "Salary", IncomeType),
     CategoryEntry(first + 4, "Freelance", IncomeType),
     CategoryEntry(first + 5, "Savings", SavingsType)]
  }

  /** The six default entries in name order. */
  function DefaultListing(first: int): seq<CategoryEntry>
  {
    [CategoryEntry(first + 1, "Bills", ExpenseType),
     CategoryEntry(first + 4, "Freelance", IncomeType),
     CategoryEntry(first, "Groceries", ExpenseType),
     CategoryEntry(first + 2, "Rent", ExpenseType),
     CategoryEntry(first + 3, "Salary", IncomeType),
     CategoryEntry(first + 5, "Savings", SavingsType)]
  }

  lemma DefaultListingSorted(first: int)
    ensures SortedBy(DefaultListing(first), EntryName, false)
  {
    assert Le("Bills", "Freelance") && Le("Freelance", "Groceries") && Le("Groceries", "Rent");
    assert Le("Rent", "Salary") && Le("Salary", "Savings");
    AdjacentSorted(DefaultListing(first), EntryName, false);
  }

  lemma DefaultListingDistinct(first: int)
    ensures forall i, j :: 0 <= i < j < |DefaultListing(first)| ==>
      EntryName(DefaultListing(first)[i]) != EntryName(DefaultListing(first)[j])
  {
  }

  lemma DefaultListingPermutation(first: int)
    ensures multiset(DefaultEntryList(first)) == multiset(DefaultListing(first))
  {
  }

  /** Name order of the six default entries. */
  lemma SortDefaultEntries(first: int)
    ensures SortBy(DefaultEntryList(first), EntryName, false) == DefaultListing(first)
  {
    DefaultListingSorted(first);
    DefaultListingDistinct(first);
    DefaultListingPermutation(first);
    SortedUnique(SortBy(DefaultEntryList(first), EntryName, false), DefaultListing(first), EntryName, false);
  }

  /** After `set_default_categories` for a user who had no categories, the
      list is Bills, Freelance, Groceries, Rent, Salary, Savings, each with
      the id it was inserted with. */
  lemma DefaultCategoriesListed(cats: seq<Category>, userId: int, first: int)
    requires forall c :: c in cats ==> c.userId != userId
    ensures UserCategories(cats + DefaultRows(userId, first), userId) == [
      CategoryEntry(first + 1, "Bills", ExpenseType),
      CategoryEntry(first + 4, "Freelance", IncomeType),
      CategoryEntry(first, "Groceries", ExpenseType),
      CategoryEntry(first + 2, "Rent", ExpenseType),
      CategoryEntry(first + 3, "Salary", IncomeType),
      CategoryEntry(first + 5, "Savings", SavingsType)]
  {
    DefaultEntries(cats, userId, first);
    assert FilterMap(cats + DefaultRows(userId, first), EntryOf(userId)) == DefaultEntryList(first);
    SortDefaultEntries(first);
  }

  /* ---------------- Transactions ---------------- */

  function HasCategoryId(id: int): Category -> bool
  {
    (c: Category) => c.id == id
  }

  /** The category row `JOIN categories c ON ... = c.id` pairs with `id`. */
  function CategoryById(cats: seq<Category>, id: int): (r: Option<Category>)
    ensures r.Some? ==> r.value in cats && r.value.id == id
    ensures r.None? ==> forall c :: c in cats ==> c.id != id
  {
    var r := First(cats, HasCategoryId(id));
    assert r.None? ==> forall c :: c in cats ==> c.id != id by {
      if r.None? {
        forall c | c in cats ensures c.id != id {
          var k :| 0 <= k < |cats| && cats[k] == c;
          assert !HasCategoryId(id)(cats[k]);
        }
      }
    }
    assert r.Some? ==> HasCategoryId(id)(r.value);
    r
  }

  /** With unique ids the join finds every category that has the id. */
  lemma CategoryByIdExact(cats: seq<Category>, next: int, c: Category)
    requires CategoriesOk(cats, next) && c in cats
    ensures CategoryById(cats, c.id) == Some(c)
  {
    var r := CategoryById(cats, c.id);
    var i :| 0 <= i < |cats| && cats[i] == r.value;
    var j :| 0 <= j < |cats| && cats[j] == c;
    assert CategoryRowId(cats[i]) == CategoryRowId(cats[j]);
  }

  /** A row of `fetch_transaction_history`:
      (id, transaction_date, category_name, category_type, amount, note). */
  datatype HistoryRow = HistoryRow(
    id: int, date: string, categoryName: string, categoryType: string, amount: real, note: Option<string>)

  /** `if start_date and end_date`: both bounds given and neither empty. */
  predicate HasWindow(start: Option<string>, end: Option<string>)
  {
    start.Some? && end.Some? && start.value != "" && end.value != ""
  }

  /** The history's date condition: `BETWEEN start AND end` when both bounds
      are given, no condition otherwise. */
  predicate InRange(date: string, start: Option<string>, end: Option<string>)
  {
    HasWindow(start, end) ==> Between(date, start.value, end.value)
  }

  /** The history row of one transaction, if it is selected. */
  function JoinHistory(cats: seq<Category>, userId: int, start: Option<string>, end: Option<string>, t: Transaction)
    : Option<HistoryRow>
  {
    if t.userId == userId && t.categoryId.Some? && InRange(t.date, start, end) then
      match CategoryById(cats, t.categoryId.value)
      case Some(c) => Some(MakeHistoryRow(t, c))
      case None => None
    else None
  }

  function HistoryRowOf(cats: seq<Category>, userId: int, start: Option<string>, end: Option<string>)
    : Transaction -> Option<HistoryRow>
  {
    (t: Transaction) => JoinHistory(cats, userId, start, end, t)
  }

  function RowDate(r: HistoryRow): string
  {
    r.date
  }

  /** `fetch_transaction_history(user_id, start_date, end_date)`: the joined
      rows of the user `ORDER BY t.transaction_date DESC`, a permutation of
      the selected rows in descending date order. */
  function History(cats: seq<Category>, txs: seq<Transaction>, userId: int, start: Option<string>, end: Option<string>)
    : (r: seq<HistoryRow>)
    ensures SortedBy(r, RowDate, true)
    ensures multiset(r) == multiset(FilterMap(txs, HistoryRowOf(cats, userId, start, end)))
  {
    SortBy(FilterMap(txs, HistoryRowOf(cats, userId, start, end)), RowDate, true)
  }

  /** The join condition of the history: the user's transaction, paired
      with the category its id names, inside the window. */
  predicate HistoryJoin(t: Transaction, c: Category, userId: int, start: Option<string>, end: Option<string>)
  {
    t.userId == userId && t.categoryId == Some(c.id) && InRange(t.date, start, end)
  }

  function MakeHistoryRow(t: Transaction, c: Category): HistoryRow
  {
    HistoryRow(t.id, t.date, c.name, c.categoryType, t.amount, t.note)
  }

  lemma HistoryOnlyJoined(
    cats: seq<Category>, txs: seq<Transaction>, userId: int,
    start: Option<string>, end: Option<string>, row: HistoryRow)
    requires row in History(cats, txs, userId, start, end)
    ensures exists t, c :: t in txs && c in cats && HistoryJoin(t, c, userId, start, end) && row == MakeHistoryRow(t, c)
  {
    var f := HistoryRowOf(cats, userId, start, end);
    assert row in multiset(FilterMap(txs, f));
    FilterMapMembers(txs, f, row);
    var i :| 0 <= i < |txs| && f(txs[i]) == Some(row);
    var c := CategoryById(cats, txs[i].categoryId.value).value;
    assert txs[i] in txs && c in cats && HistoryJoin(txs[i], c, userId, start, end);
  }

  lemma HistoryAllJoined(
    cats: seq<Category>, next: int, txs: seq<Transaction>, userId: int,
    start: Option<string>, end: Option<string>, t: Transaction, c: Category)
    requires CategoriesOk(cats, next)
    requires t in txs && c in cats && HistoryJoin(t, c, userId, start, end)
    ensures MakeHistoryRow(t, c) in History(cats, txs, userId, start, end)
  {
    var f := HistoryRowOf(cats, userId, start, end);
    CategoryByIdExact(cats, next, c);
    var i :| 0 <= i < |txs| && txs[i] == t;
    assert f(txs[i]) == Some(MakeHistoryRow(t, c));
    FilterMapMembers(txs, f, MakeHistoryRow(t, c));
    assert MakeHistoryRow(t, c) in multiset(FilterMap(txs, f));
  }

  /** The history holds exactly the user's transactions whose category row
      exists and, when both bounds are given, whose date text lies between
      them, both included. */
  lemma HistoryMembers(
    cats: seq<Category>, next: int, txs: seq<Transaction>, userId: int,
    start: Option<string>, end: Option<string>, row: HistoryRow)
    requires CategoriesOk(cats, next)
    ensures row in History(cats, txs, userId, start, end)
        <==> exists t, c :: t in txs && c in cats && HistoryJoin(t, c, userId, start, end) && row == MakeHistoryRow(t, c)
  {
    if row in History(cats, txs, userId, start, end) {
      HistoryOnlyJoined(cats, txs, userId, start, end, row);
    }
    if exists t, c :: t in txs && c in cats && HistoryJoin(t, c, userId, start, end) && row == MakeHistoryRow(t, c) {
      var t, c :| t in txs && c in cats && HistoryJoin(t, c, userId, start, end) && row == MakeHistoryRow(t, c);
      HistoryAllJoined(cats, next, txs, userId, start, end, t, c);
    }
  }

  /** What `get_transaction_by_id` returns: (category_id, amount, date, note). */
  datatype TransactionFields = TransactionFields(categoryId: Option<int>, amount: real, date: string, note: Option<string>)

  function TransactionWithId(id: int): Transaction -> bool
  {
    (t: Transaction) => t.id == id
  }

  /** `get_transaction_by_id(transaction_id)`. */
  function TransactionById(txs: seq<Transaction>, id: int): (r: Option<TransactionFields>)
    ensures r.Some? <==> exists t :: t in txs && t.id == id
    ensures r.Some? ==>
              exists t :: t in txs && t.id == id && r.value == TransactionFields(t.categoryId, t.amount, t.date, t.note)
  {
    match First(txs, TransactionWithId(id))
    case Some(t) =>
      assert TransactionWithId(id)(t);
      Some(TransactionFields(t.categoryId, t.amount, t.date, t.note))
    case None =>
      assert forall t | t in txs :: t.id != id by {
        forall t | t in txs ensures t.id != id {
          var k :| 0 <= k < |txs| && txs[k] == t;
          assert !TransactionWithId(id)(txs[k]);
        }
      }
      None
  }

  /* ---------------- Budgets ---------------- */

  /** A row of `get_budgets_for_month`:
      (id, user_id, budget_amount, category_id, category_name). */
  datatype BudgetRow = BudgetRow(id: int, userId: int, amount: real, categoryId: int, categoryName: string)

  /** The month's row of one budget, if it is selected. */
  function JoinBudget(cats: seq<Category>, userId: int, month: int, year: int, b: Budget): Option<BudgetRow>
  {
    if b.userId == userId && b.month == month && b.year == year then
      match CategoryById(cats, b.categoryId)
      case Some(c) => Some(BudgetRow(b.id, b.userId, b.amount, b.categoryId, c.name))
      case None => None
    else None
  }

  function BudgetRowOf(cats: seq<Category>, userId: int, month: int, year: int): Budget -> Option<BudgetRow>
  {
    (b: Budget) => JoinBudget(cats, userId, month, year, b)
  }

  /** `get_budgets_for_month(user_id, month, year)`, in table order. */
  function BudgetsForMonth(cats: seq<Category>, budgets: seq<Budget>, userId: int, month: int, year: int)
    : (r: seq<BudgetRow>)
    ensures |r| <= |budgets|
  {
    FilterMap(budgets, BudgetRowOf(cats, userId, month, year))
  }

  /** The month's rows are exactly the user's budgets for that month whose
      category row still exists. */
  lemma BudgetsForMonthMembers(
    cats: seq<Category>, next: int, budgets: seq<Budget>, userId: int, month: int, year: int, row: BudgetRow)
    requires CategoriesOk(cats, next)
    ensures row in BudgetsForMonth(cats, budgets, userId, month, year)
        <==> exists b, c :: b in budgets && c in cats && b.userId == userId && b.month == month && b.year == year
                && b.categoryId == c.id && row == BudgetRow(b.id, b.userId, b.amount, b.categoryId, c.name)
  {
    var f := BudgetRowOf(cats, userId, month, year);
    FilterMapMembers(budgets, f, row);
    if row in FilterMap(budgets, f) {
      var i :| 0 <= i < |budgets| && f(budgets[i]) == Some(row);
      assert budgets[i] in budgets;
      var c := CategoryById(cats, budgets[i].categoryId).value;
      assert c in cats;
    }
    if exists b, c :: b in budgets && c in cats && b.userId == userId && b.month == month && b.year == year
                && b.categoryId == c.id && row == BudgetRow(b.id, b.userId, b.amount, b.categoryId, c.name) {
      var b, c :| b in budgets && c in cats && b.userId == userId && b.month == month && b.year == year
                && b.categoryId == c.id && row == BudgetRow(b.id, b.userId, b.amount, b.categoryId, c.name);
      CategoryByIdExact(cats, next, c);
      var i :| 0 <= i < |budgets| && budgets[i] == b;
      assert f(budgets[i]) == Some(row);
    }
  }

  /** Deleting a category leaves its budgets in the table but the join hides
      them from every month's list. */
  lemma DeletedCategoryHidesBudgets(
    cats: seq<Category>, next: int, budgets: seq<Budget>, id: int, userId: int, month: int, year: int, row: BudgetRow)
    requires CategoriesOk(cats, next)
    requires row in BudgetsForMonth(DeleteCategoryRows(cats, id), budgets, userId, month, year)
    ensures row.categoryId != id
  {
    var f := BudgetRowOf(DeleteCategoryRows(cats, id), userId, month, year);
    FilterMapMembers(budgets, f, row);
    var i :| 0 <= i < |budgets| && f(budgets[i]) == Some(row);
    var c := CategoryById(DeleteCategoryRows(cats, id), budgets[i].categoryId).value;
    assert c in DeleteCategoryRows(cats, id);
  }

  /* ---------------- Spending per category ---------------- */

  /** `strftime('%m', date) = f'{month:02}' AND strftime('%Y', date) = str(year)`. */
  predicate InPeriod(date: string, month: int, year: int)
  {
    StrftimeMonth(date) == Some(ZeroPad2(month)) && StrftimeYear(date) == Some(IntText(year))
  }

  /** The transaction counts towards category `categoryId` in that period. */
  predicate Spends(t: Transaction, userId: int, categoryId: int, month: int, year: int)
  {
    t.userId == userId && t.categoryId == Some(categoryId) && InPeriod(t.date, month, year)
  }

  /** `SUM(t.amount)` over the transactions that count towards the category. */
  function SpendTotal(txs: seq<Transaction>, userId: int, categoryId: int, month: int, year: int): real
  {
    if txs == [] then 0.0
    else
      (if Spends(txs[0], userId, categoryId, month, year) then txs[0].amount else 0.0)
      + SpendTotal(txs[1..], userId, categoryId, month, year)
  }

  predicate HasSpend(txs: seq<Transaction>, userId: int, categoryId: int, month: int, year: int)
  {
    exists t :: t in txs && Spends(t, userId, categoryId, month, year)
  }

  /** A row of `get_total_spent_per_category`: (id, category_name, total_spent). */
  datatype SpentRow = SpentRow(categoryId: int, categoryName: string, total: real)

  function SpentRowOf(txs: seq<Transaction>, userId: int, month: int, year: int): Category -> Option<SpentRow>
  {
    (c: Category) =>
      if c.categoryType == ExpenseType && HasSpend(txs, userId, c.id, month, year)
      then Some(SpentRow(c.id, c.name, SpendTotal(txs, userId, c.id, month, year)))
      else None
  }

  /** `get_total_spent_per_category(user_id, month, year)`: `GROUP BY c.id`
      gives one row per joined category, in id order, which is table order. */
  function SpentPerCategory(cats: seq<Category>, txs: seq<Transaction>, userId: int, month: int, year: int)
    : (r: seq<SpentRow>)
    ensures |r| <= |cats|
  {
    FilterMap(cats, SpentRowOf(txs, userId, month, year))
  }

  /** The row a category contributes, when it is of type `expense` and has
      at least one of the user's transactions in the period. */
  predicate SpentRowFrom(c: Category, txs: seq<Transaction>, userId: int, month: int, year: int, row: SpentRow)
  {
    && c.categoryType == ExpenseType
    && HasSpend(txs, userId, c.id, month, year)
    && row == SpentRow(c.id, c.name, SpendTotal(txs, userId, c.id, month, year))
  }

  /** A category has a row exactly when it is of type `expense` and has at
      least one of the user's transactions in the period; its total is the
      sum of their amounts. Other categories are absent. */
  lemma SpentPerCategoryMembers(
    cats: seq<Category>, txs: seq<Transaction>, userId: int, month: int, year: int, row: SpentRow)
    ensures row in SpentPerCategory(cats, txs, userId, month, year)
        <==> exists c :: c in cats && SpentRowFrom(c, txs, userId, month, year, row)
  {
    if row in SpentPerCategory(cats, txs, userId, month, year) {
      SpentRowHasCategory(cats, txs, userId, month, year, row);
    }
    if exists c :: c in cats && SpentRowFrom(c, txs, userId, month, year, row) {
      var c :| c in cats && SpentRowFrom(c, txs, userId, month, year, row);
      SpentCategoryHasRow(cats, txs, userId, month, year, c);
    }
  }

  lemma SpentRowHasCategory(
    cats: seq<Category>, txs: seq<Transaction>, userId: int, month: int, year: int, row: SpentRow)
    requires row in SpentPerCategory(cats, txs, userId, month, year)
    ensures exists c :: c in cats && SpentRowFrom(c, txs, userId, month, year, row)
  {
    var f := SpentRowOf(txs, userId, month, year);
    FilterMapMembers(cats, f, row);
    var i :| 0 <= i < |cats| && f(cats[i]) == Some(row);
    assert cats[i] in cats && SpentRowFrom(cats[i], txs, userId, month, year, row);
  }

  lemma SpentCategoryHasRow(
    cats: seq<Category>, txs: seq<Transaction>, userId: int, month: int, year: int, c: Category)
    requires c in cats && c.categoryType == ExpenseType && HasSpend(txs, userId, c.id, month, year)
    ensures SpentRow(c.id, c.name, SpendTotal(txs, userId, c.id, month, year)) in SpentPerCategory(cats, txs, userId, month, year)
  {
    var f := SpentRowOf(txs, userId, month, year);
    var row := SpentRow(c.id, c.name, SpendTotal(txs, userId, c.id, month, year));
    FilterMapMembers(cats, f, row);
    var i :| 0 <= i < |cats| && cats[i] == c;
    assert f(cats[i]) == Some(row);
  }

  /** For a date the pages stored, the period test is the calendar month:
      the month and year of the date, and only for years of four digits. */
  lemma SpendsStoredDate(t: Transaction, d: Date, userId: int, categoryId: int, month: int, year: int)
    requires Valid(d) && t.date == Format(d)
    ensures Spends(t, userId, categoryId, month, year)
        <==> t.userId == userId && t.categoryId == Some(categoryId)
             && d.month == month && d.year == year && year >= 1000
  {
    PeriodMatch(d, month, year);
  }

  /* ---------------- Dashboard summary ---------------- */

  /** The (category_type, amount) pair of one transaction, if it is selected. */
  function JoinType(cats: seq<Category>, userId: int, lo: string, hi: string, t: Transaction): Option<Bucket>
  {
    if t.userId == userId && t.categoryId.Some? && Between(t.date, lo, hi) then
      match CategoryById(cats, t.categoryId.value)
      case Some(c) => Some(Bucket(c.categoryType, t.amount))
      case None => None
    else None
  }

  function TypeAmountOf(cats: seq<Category>, userId: int, lo: string, hi: string): Transaction -> Option<Bucket>
  {
    (t: Transaction) => JoinType(cats, userId, lo, hi, t)
  }

  /** The joined (category_type, amount) pairs the summary groups. */
  function SummaryPairs(cats: seq<Category>, txs: seq<Transaction>, userId: int, lo: string, hi: string)
    : (r: seq<Bucket>)
    ensures |r| <= |txs|
  {
    FilterMap(txs, TypeAmountOf(cats, userId, lo, hi))
  }

  /** `fetch_summary_data(user_id, start_date, end_date)`:
      `SUM(t.amount) ... GROUP BY c.category_type`, in type order. */
  function Summary(cats: seq<Category>, txs: seq<Transaction>, userId: int, lo: string, hi: string)
    : (r: seq<Bucket>)
  {
    GroupSum(SummaryPairs(cats, txs, userId, lo, hi))
  }

  /** The join condition of the summary. */
  predicate SummaryJoin(t: Transaction, c: Category, userId: int, lo: string, hi: string)
  {
    t.userId == userId && t.categoryId == Some(c.id) && Between(t.date, lo, hi)
  }

  lemma SummaryTypeJoined(
    cats: seq<Category>, txs: seq<Transaction>, userId: int, lo: string, hi: string, ty: string)
    requires ty in Keys(SummaryPairs(cats, txs, userId, lo, hi))
    ensures exists t, c :: t in txs && c in cats && SummaryJoin(t, c, userId, lo, hi) && c.categoryType == ty
  {
    var f := TypeAmountOf(cats, userId, lo, hi);
    var p :| p in SummaryPairs(cats, txs, userId, lo, hi) && p.key == ty;
    FilterMapMembers(txs, f, p);
    var i :| 0 <= i < |txs| && f(txs[i]) == Some(p);
    var c := CategoryById(cats, txs[i].categoryId.value).value;
    assert txs[i] in txs && c in cats && SummaryJoin(txs[i], c, userId, lo, hi);
  }

  lemma SummaryJoinedType(
    cats: seq<Category>, next: int, txs: seq<Transaction>, userId: int, lo: string, hi: string,
    t: Transaction, c: Category)
    requires CategoriesOk(cats, next)
    requires t in txs && c in cats && SummaryJoin(t, c, userId, lo, hi)
    ensures c.categoryType in Keys(SummaryPairs(cats, txs, userId, lo, hi))
  {
    var f := TypeAmountOf(cats, userId, lo, hi);
    CategoryByIdExact(cats, next, c);
    var i :| 0 <= i < |txs| && txs[i] == t;
    assert f(txs[i]) == Some(Bucket(c.categoryType, t.amount));
    FilterMapMembers(txs, f, Bucket(c.categoryType, t.amount));
  }

  /** The summary selects `t` and joins it to a category of type `ty`. */
  predicate SelectedOfType(cats: seq<Category>, userId: int, lo: string, hi: string, ty: string, t: Transaction)
  {
    exists c :: c in cats && SummaryJoin(t, c, userId, lo, hi) && c.categoryType == ty
  }

  /** The amounts of the transactions the summary selects for type `ty`,
      added up in table order. */
  function SelectedTypeTotal(cats: seq<Category>, txs: seq<Transaction>, userId: int, lo: string, hi: string, ty: string)
    : real
  {
    if txs == [] then 0.0
    else
      (if SelectedOfType(cats, userId, lo, hi, ty, txs[0]) then txs[0].amount else 0.0)
      + SelectedTypeTotal(cats, txs[1..], userId, lo, hi, ty)
  }

  /** One transaction's joined pair has type `ty` exactly when the summary
      selects it for `ty`, and then carries its amount. */
  lemma JoinTypeSelected(
    cats: seq<Category>, next: int, userId: int, lo: string, hi: string, ty: string, t: Transaction)
    requires CategoriesOk(cats, next)
    ensures (JoinType(cats, userId, lo, hi, t).Some? && JoinType(cats, userId, lo, hi, t).value.key == ty)
        <==> SelectedOfType(cats, userId, lo, hi, ty, t)
    ensures JoinType(cats, userId, lo, hi, t).Some? ==> JoinType(cats, userId, lo, hi, t).value.total == t.amount
  {
    if SelectedOfType(cats, userId, lo, hi, ty, t) {
      var c :| c in cats && SummaryJoin(t, c, userId, lo, hi) && c.categoryType == ty;
      CategoryByIdExact(cats, next, c);
    }
    if JoinType(cats, userId, lo, hi, t).Some? {
      var c := CategoryById(cats, t.categoryId.value).value;
      assert c in cats && SummaryJoin(t, c, userId, lo, hi);
    }
  }

  /** Summing the joined pairs of a type is summing the amounts of the
      transactions the summary selects for that type. */
  lemma {:induction false} SummaryPairsSumFor(
    cats: seq<Category>, next: int, txs: seq<Transaction>, userId: int, lo: string, hi: string, ty: string)
    requires CategoriesOk(cats, next)
    ensures SumFor(SummaryPairs(cats, txs, userId, lo, hi), ty) == SelectedTypeTotal(cats, txs, userId, lo, hi, ty)
  {
    if txs != [] {
      var f := TypeAmountOf(cats, userId, lo, hi);
      var head := match f(txs[0]) case Some(y) => [y] case None => [];
      assert SummaryPairs(cats, txs, userId, lo, hi) == head + SummaryPairs(cats, txs[1..], userId, lo, hi);
      SumForAppend(head, SummaryPairs(cats, txs[1..], userId, lo, hi), ty);
      SummaryPairsSumFor(cats, next, txs[1..], userId, lo, hi, ty);
      JoinTypeSelected(cats, next, userId, lo, hi, ty, txs[0]);
    }
  }

  /** One row per category type, in ascending order, present exactly when
      the user has a joined transaction of that type dated from `lo` to `hi`
      (both included), and totalling the amounts of those transactions. */
  lemma SummaryShape(
    cats: seq<Category>, next: int, txs: seq<Transaction>, userId: int, lo: string, hi: string, ty: string)
    requires CategoriesOk(cats, next)
    ensures StrictlySorted(Summary(cats, txs, userId, lo, hi))
    ensures ty in Keys(Summary(cats, txs, userId, lo, hi))
        <==> exists t, c :: t in txs && c in cats && SummaryJoin(t, c, userId, lo, hi) && c.categoryType == ty
    ensures forall i :: 0 <= i < |Summary(cats, txs, userId, lo, hi)| ==>
              Summary(cats, txs, userId, lo, hi)[i].total
              == SelectedTypeTotal(cats, txs, userId, lo, hi, Summary(cats, txs, userId, lo, hi)[i].key)
  {
    var pairs := SummaryPairs(cats, txs, userId, lo, hi);
    GroupSumShape(pairs);
    forall i | 0 <= i < |GroupSum(pairs)|
      ensures GroupSum(pairs)[i].total == SelectedTypeTotal(cats, txs, userId, lo, hi, GroupSum(pairs)[i].key)
    {
      GroupTotal(pairs, i);
      SummaryPairsSumFor(cats, next, txs, userId, lo, hi, GroupSum(pairs)[i].key);
    }
    if ty in Keys(pairs) {
      SummaryTypeJoined(cats, txs, userId, lo, hi, ty);
    }
    if exists t, c :: t in txs && c in cats && SummaryJoin(t, c, userId, lo, hi) && c.categoryType == ty {
      var t, c :| t in txs && c in cats && SummaryJoin(t, c, userId, lo, hi) && c.categoryType == ty;
      SummaryJoinedType(cats, next, txs, userId, lo, hi, t, c);
    }
  }
}
