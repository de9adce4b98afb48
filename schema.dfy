/** The four tables of `setup/db.py` (`users`, `categories`, `transactions`,
    `budgets`), their constraints, and the row-level effect of each writing
    statement as a function on a table. */
module Schema {
  import opened Wrappers
  import opened Seqs

  /** A row of `users`; `passwordHash` is the bcrypt text. */
  datatype User = User(id: int, username: string, passwordHash: string)

  /** A row of `categories`. `categoryType` is free text to the store; the
      pages only ever write one of the three known types. */
  datatype Category = Category(id: int, userId: int, name: string, categoryType: string)

  /** A row of `transactions`. `categoryId` and `note` are nullable; `date` is text. */
  datatype Transaction = Transaction(
    id: int, userId: int, categoryId: Option<int>, amount: real, date: string, note: Option<string>)

  /** A row of `budgets`. */
  datatype Budget = Budget(
    id: int, userId: int, amount: real, month: int, year: int, categoryId: int)

  /** The key of `UNIQUE(user_id, category_id, month, year)`. */
  datatype BudgetKey = BudgetKey(userId: int, categoryId: int, month: int, year: int)

  function KeyOf(b: Budget): BudgetKey
  {
    BudgetKey(b.userId, b.categoryId, b.month, b.year)
  }

  const ExpenseType := "expense"
  const IncomeType := "income"
  const SavingsType := "savings"

  /** The three category types the pages offer. */
  predicate IsKnownType(t: string)
  {
    t == ExpenseType || t == IncomeType || t == SavingsType
  }

  /* ---------------- Constraints of the schema ---------------- */

  function UserRowId(u: User): int { u.id }
  function CategoryRowId(c: Category): int { c.id }
  function TransactionRowId(t: Transaction): int { t.id }
  function BudgetRowId(b: Budget): int { b.id }

  /** `id INTEGER PRIMARY KEY AUTOINCREMENT`: ids are positive, increase in
      rowid order and stay below the table's next id; `username UNIQUE`. */
  predicate UsersOk(users: seq<User>, next: int)
  {
    && 1 <= next
    && Increasing(users, UserRowId)
    && (forall u :: u in users ==> 0 < u.id < next)
    && (forall a, b :: a in users && b in users && a.username == b.username ==> a.id == b.id)
  }

  /** Ids as for users, and `UNIQUE(user_id, category_name)`. */
  predicate CategoriesOk(cats: seq<Category>, next: int)
  {
    && 1 <= next
    && Increasing(cats, CategoryRowId)
    && (forall c :: c in cats ==> 0 < c.id < next)
    && (forall a, b :: a in cats && b in cats && a.userId == b.userId && a.name == b.name ==> a.id == b.id)
  }

  predicate TransactionsOk(txs: seq<Transaction>, next: int)
  {
    && 1 <= next
    && Increasing(txs, TransactionRowId)
    && (forall t :: t in txs ==> 0 < t.id < next)
  }

  /** Ids as for users, and `UNIQUE(user_id, category_id, month, year)`. */
  predicate BudgetsOk(budgets: seq<Budget>, next: int)
  {
    && 1 <= next
    && Increasing(budgets, BudgetRowId)
    && (forall b :: b in budgets ==> 0 < b.id < next)
    && (forall a, b :: a in budgets && b in budgets && KeyOf(a) == KeyOf(b) ==> a.id == b.id)
  }

  /* ---------------- Row-level effects of the writing statements ---------------- */

  predicate UsernameTaken(users: seq<User>, username: string)
  {
    exists u :: u in users && u.username == username
  }

  /** The user already has a category of that name. */
  predicate NameTaken(cats: seq<Category>, userId: int, name: string)
  {
    exists c :: c in cats && c.userId == userId && c.name == name
  }

  /** `UPDATE categories SET category_name = name ... WHERE id = id` would
      violate `UNIQUE(user_id, category_name)`: another row of the same user
      already has that name. */
  predicate RenameConflict(cats: seq<Category>, id: int, name: string)
  {
    exists c, other :: c in cats && other in cats && c.id == id && other.id != id
      && other.userId == c.userId && other.name == name
  }

  /** `UPDATE categories SET category_name = ?, category_type = ? WHERE id = ?`. */
  function RenameCategory(cats: seq<Category>, id: int, name: string, categoryType: string): (r: seq<Category>)
  {
    seq(|cats|, i requires 0 <= i < |cats| =>
      if cats[i].id == id then cats[i].(name := name, categoryType := categoryType) else cats[i])
  }

  /** The rows `DELETE FROM categories WHERE id = ?` keeps. */
  function OtherCategory(id: int): Category -> bool
  {
    (c: Category) => c.id != id
  }

  /** `DELETE FROM categories WHERE id = ?`. */
  function DeleteCategoryRows(cats: seq<Category>, id: int): seq<Category>
  {
    Filter(cats, OtherCategory(id))
  }

  /** The rows `DELETE FROM transactions WHERE category_id = ?` keeps. A NULL
      category id never equals the argument, so those rows stay. */
  function NotInCategory(categoryId: int): Transaction -> bool
  {
    (t: Transaction) => t.categoryId != Some(categoryId)
  }

  /** `DELETE FROM transactions WHERE category_id = ?`. */
  function DeleteTransactionsOfCategory(txs: seq<Transaction>, categoryId: int): seq<Transaction>
  {
    Filter(txs, NotInCategory(categoryId))
  }

  /** `UPDATE transactions SET category_id = ?, amount = ?, transaction_date = ?,
      note = ? WHERE id = ?`. */
  function UpdateTransactionRows(
    txs: seq<Transaction>, id: int, categoryId: Option<int>, amount: real, date: string, note: Option<string>)
    : seq<Transaction>
  {
    seq(|txs|, i requires 0 <= i < |txs| =>
      if txs[i].id == id
      then txs[i].(categoryId := categoryId, amount := amount, date := date, note := note)
      else txs[i])
  }

  /** The rows `DELETE FROM transactions WHERE id = ?` keeps. */
  function OtherTransaction(id: int): Transaction -> bool
  {
    (t: Transaction) => t.id != id
  }

  /** `DELETE FROM transactions WHERE id = ?`. */
  function DeleteTransactionRows(txs: seq<Transaction>, id: int): seq<Transaction>
  {
    Filter(txs, OtherTransaction(id))
  }

  /** The budgets whose key differs from `key`. */
  function OtherKey(key: BudgetKey): Budget -> bool
  {
    (b: Budget) => KeyOf(b) != key
  }

  /** `INSERT OR REPLACE INTO budgets ...`: the rows with the new row's key are
      deleted and the new row is inserted. */
  function UpsertBudget(budgets: seq<Budget>, row: Budget): seq<Budget>
  {
    Filter(budgets, OtherKey(KeyOf(row))) + [row]
  }

  /** The categories `set_default_categories` inserts, in insertion order. */
  const DefaultCategories: seq<(string, string)> := [
    ("Groceries", ExpenseType), ("Bills", ExpenseType), ("Rent", ExpenseType),
    ("Salary", IncomeType), ("Freelance", IncomeType),
    ("Savings", SavingsType)
  ]

  /** The rows `set_default_categories(userId)` inserts when the next
      category id is `first`. */
  function DefaultRows(userId: int, first: int): (r: seq<Category>)
    ensures |r| == |DefaultCategories|
  {
    seq(|DefaultCategories|, i requires 0 <= i < |DefaultCategories| =>
      Category(first + i, userId, DefaultCategories[i].0, DefaultCategories[i].1))
  }

  /** None of the first `n` default names is taken yet for the user. */
  predicate DefaultsFitUpTo(cats: seq<Category>, userId: int, n: nat)
    requires n <= |DefaultCategories|
  {
    forall k :: 0 <= k < n ==> !NameTaken(cats, userId, DefaultCategories[k].0)
  }

  /** None of the default names is taken yet for the user. */
  predicate DefaultsFit(cats: seq<Category>, userId: int)
  {
    DefaultsFitUpTo(cats, userId, |DefaultCategories|)
  }

  /* ---------------- Inserting a row with the next id keeps the constraints ---------------- */

  lemma InsertUserOk(users: seq<User>, next: int, row: User)
    requires UsersOk(users, next) && row.id == next && !UsernameTaken(users, row.username)
    ensures UsersOk(users + [row], next + 1)
  {
    forall i | 0 <= i < |users| ensures UserRowId(users[i]) < UserRowId(row) {
      assert users[i] in users;
    }
    AppendIncreasing(users, row, UserRowId);
  }

  lemma InsertCategoryOk(cats: seq<Category>, next: int, row: Category)
    requires CategoriesOk(cats, next) && row.id == next && !NameTaken(cats, row.userId, row.name)
    ensures CategoriesOk(cats + [row], next + 1)
  {
    forall i | 0 <= i < |cats| ensures CategoryRowId(cats[i]) < CategoryRowId(row) {
      assert cats[i] in cats;
    }
    AppendIncreasing(cats, row, CategoryRowId);
  }

  lemma InsertTransactionOk(txs: seq<Transaction>, next: int, row: Transaction)
    requires TransactionsOk(txs, next) && row.id == next
    ensures TransactionsOk(txs + [row], next + 1)
  {
    forall i | 0 <= i < |txs| ensures TransactionRowId(txs[i]) < TransactionRowId(row) {
      assert txs[i] in txs;
    }
    AppendIncreasing(txs, row, TransactionRowId);
  }

  /** `INSERT OR REPLACE` with the next id keeps the budget constraints. */
  lemma UpsertBudgetOk(budgets: seq<Budget>, next: int, row: Budget)
    requires BudgetsOk(budgets, next) && row.id == next
    ensures BudgetsOk(UpsertBudget(budgets, row), next + 1)
  {
    var kept := Filter(budgets, OtherKey(KeyOf(row)));
    FilterIncreasing(budgets, OtherKey(KeyOf(row)), BudgetRowId);
    forall i | 0 <= i < |kept| ensures BudgetRowId(kept[i]) < BudgetRowId(row) {
      assert kept[i] in kept;
    }
    AppendIncreasing(kept, row, BudgetRowId);
  }

  /** The six default names are pairwise different. */
  lemma DefaultNamesDistinct()
    ensures forall k, l :: 0 <= k < l < |DefaultCategories| ==> DefaultCategories[k].0 != DefaultCategories[l].0
  {
  }

  /** While `set_default_categories` runs, a clash with a default name it
      has already inserted cannot happen: a clash is with an older row. */
  lemma DefaultPrefixTaken(cats: seq<Category>, userId: int, first: int, i: nat)
    requires i < |DefaultCategories|
    requires NameTaken(cats + DefaultRows(userId, first)[..i], userId, DefaultCategories[i].0)
    ensures NameTaken(cats, userId, DefaultCategories[i].0)
  {
    var added := DefaultRows(userId, first)[..i];
    var c :| c in cats + added && c.userId == userId && c.name == DefaultCategories[i].0;
    DefaultNamesDistinct();
    assert c !in added by {
      forall k | 0 <= k < i ensures added[k] != c {
        assert added[k].name == DefaultCategories[k].0;
      }
    }
  }

  /** One step of `set_default_categories`: inserting the next default row
      when its name is free keeps the category constraints, and a name free
      after the earlier inserts was free before them. */
  lemma DefaultInsertOk(cats: seq<Category>, userId: int, first: int, i: nat)
    requires i < |DefaultCategories|
    requires CategoriesOk(cats + DefaultRows(userId, first)[..i], first + i)
    requires !NameTaken(cats + DefaultRows(userId, first)[..i], userId, DefaultCategories[i].0)
    ensures CategoriesOk(cats + DefaultRows(userId, first)[..i + 1], first + i + 1)
    ensures !NameTaken(cats, userId, DefaultCategories[i].0)
  {
    var added := DefaultRows(userId, first);
    assert cats + added[..i + 1] == (cats + added[..i]) + [added[i]];
    InsertCategoryOk(cats + added[..i], first + i, added[i]);
    forall c | c in cats ensures c in cats + added[..i] {
    }
  }

  /* ---------------- Updates and deletes keep the constraints ---------------- */

  lemma RenameCategoryOk(cats: seq<Category>, next: int, id: int, name: string, categoryType: string)
    requires CategoriesOk(cats, next) && !RenameConflict(cats, id, name)
    ensures CategoriesOk(RenameCategory(cats, id, name, categoryType), next)
  {
    var r := RenameCategory(cats, id, name, categoryType);
    forall c | c in r ensures 0 < c.id < next {
      var i :| 0 <= i < |r| && r[i] == c;
      assert cats[i] in cats;
    }
    forall a, b | a in r && b in r && a.userId == b.userId && a.name == b.name
      ensures a.id == b.id
    {
      var i :| 0 <= i < |r| && r[i] == a;
      var j :| 0 <= j < |r| && r[j] == b;
      assert cats[i] in cats && cats[j] in cats;
    }
  }

  lemma DeleteCategoryOk(cats: seq<Category>, txs: seq<Transaction>, nextC: int, nextT: int, id: int)
    requires CategoriesOk(cats, nextC) && TransactionsOk(txs, nextT)
    ensures CategoriesOk(DeleteCategoryRows(cats, id), nextC)
    ensures TransactionsOk(DeleteTransactionsOfCategory(txs, id), nextT)
  {
    FilterIncreasing(cats, OtherCategory(id), CategoryRowId);
    FilterIncreasing(txs, NotInCategory(id), TransactionRowId);
  }

  lemma UpdateTransactionOk(
    txs: seq<Transaction>, next: int, id: int, categoryId: Option<int>, amount: real, date: string, note: Option<string>)
    requires TransactionsOk(txs, next)
    ensures TransactionsOk(UpdateTransactionRows(txs, id, categoryId, amount, date, note), next)
  {
    var r := UpdateTransactionRows(txs, id, categoryId, amount, date, note);
    forall t | t in r ensures 0 < t.id < next {
      var i :| 0 <= i < |r| && r[i] == t;
      assert txs[i] in txs;
    }
  }

  lemma DeleteTransactionOk(txs: seq<Transaction>, next: int, id: int)
    requires TransactionsOk(txs, next)
    ensures TransactionsOk(DeleteTransactionRows(txs, id), next)
  {
    FilterIncreasing(txs, OtherTransaction(id), TransactionRowId);
  }

  /* ---------------- What each writer changes ---------------- */

  /** `delete_category(id)` leaves no category with that id and no
      transaction in it, and keeps every other row in order. */
  lemma DeleteCategoryEffect(cats: seq<Category>, txs: seq<Transaction>, id: int)
    ensures forall c :: c in DeleteCategoryRows(cats, id) <==> c in cats && c.id != id
    ensures forall t :: t in DeleteTransactionsOfCategory(txs, id) <==> t in txs && t.categoryId != Some(id)
    ensures (forall c :: c in cats ==> c.id != id) ==> DeleteCategoryRows(cats, id) == cats
  {
    if forall c :: c in cats ==> c.id != id {
      FilterKeepsAll(cats, OtherCategory(id));
    }
  }

  /** `update_category` renames and retypes only the row with that id; every
      row keeps its id and user, and an unknown id changes nothing. */
  lemma RenameCategoryEffect(cats: seq<Category>, id: int, name: string, categoryType: string)
    ensures |RenameCategory(cats, id, name, categoryType)| == |cats|
    ensures forall i :: 0 <= i < |cats| ==>
      var c := RenameCategory(cats, id, name, categoryType)[i];
      c.id == cats[i].id && c.userId == cats[i].userId
      && (cats[i].id == id ==> c.name == name && c.categoryType == categoryType)
      && (cats[i].id != id ==> c == cats[i])
    ensures (forall c :: c in cats ==> c.id != id) ==> RenameCategory(cats, id, name, categoryType) == cats
  {
    if forall c :: c in cats ==> c.id != id {
      forall i | 0 <= i < |cats| ensures RenameCategory(cats, id, name, categoryType)[i] == cats[i] {
        assert cats[i] in cats;
      }
    }
  }

  /** `update_transaction` overwrites category, amount, date and note of the
      row with that id only; every row keeps its id and user, and an unknown
      id changes nothing. */
  lemma UpdateTransactionEffect(
    txs: seq<Transaction>, id: int, categoryId: Option<int>, amount: real, date: string, note: Option<string>)
    ensures |UpdateTransactionRows(txs, id, categoryId, amount, date, note)| == |txs|
    ensures forall i :: 0 <= i < |txs| ==>
      var t := UpdateTransactionRows(txs, id, categoryId, amount, date, note)[i];
      t.id == txs[i].id && t.userId == txs[i].userId
      && (txs[i].id == id ==> t.categoryId == categoryId && t.amount == amount && t.date == date && t.note == note)
      && (txs[i].id != id ==> t == txs[i])
    ensures (forall t :: t in txs ==> t.id != id) ==> UpdateTransactionRows(txs, id, categoryId, amount, date, note) == txs
  {
    if forall t :: t in txs ==> t.id != id {
      forall i | 0 <= i < |txs| ensures UpdateTransactionRows(txs, id, categoryId, amount, date, note)[i] == txs[i] {
        assert txs[i] in txs;
      }
    }
  }

  /** `delete_transaction(id)` removes the row with that id and only it; an
      unknown id changes nothing. */
  lemma DeleteTransactionEffect(txs: seq<Transaction>, id: int)
    ensures forall t :: t in DeleteTransactionRows(txs, id) <==> t in txs && t.id != id
    ensures (forall t :: t in txs ==> t.id != id) ==> DeleteTransactionRows(txs, id) == txs
  {
    if forall t :: t in txs ==> t.id != id {
      FilterKeepsAll(txs, OtherTransaction(id));
    }
  }

  /** After `set_budget` exactly one row has the key: the new row, whose id
      is above every id before; every row with another key is kept. */
  lemma UpsertBudgetEffect(budgets: seq<Budget>, next: int, row: Budget)
    requires BudgetsOk(budgets, next) && row.id == next
    ensures row in UpsertBudget(budgets, row)
    ensures forall b :: b in UpsertBudget(budgets, row) && KeyOf(b) == KeyOf(row) ==> b == row
    ensures forall b :: b in UpsertBudget(budgets, row) && b != row <==> b in budgets && KeyOf(b) != KeyOf(row)
    ensures forall b :: b in budgets ==> b.id < row.id
  {
  }
}
