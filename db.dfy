/** The writers of `setup/db.py` on an in-memory store. Every function there
    opens a connection, runs its statements and commits once, so each method
    here is one atomic step on the four tables. The `next...Id` counters are
    SQLite's `sqlite_sequence` entries plus one: AUTOINCREMENT never reuses an
    id, and a statement that fails takes no id. Foreign keys are NOT enforced
    (`get_db_connection` never turns on `PRAGMA foreign_keys`), so no
    `ON DELETE CASCADE` clause ever fires. */
module Db {
  import opened Wrappers
  import opened Seqs
  import opened Schema

  /** The constraint a failing statement violates (`sqlite3.IntegrityError`). */
  datatype DbError = UniqueUsername | UniqueCategoryName | NotNullAmount

  datatype Status = Done | Failed(error: DbError)

  class Database {
    var users: seq<User>
    var categories: seq<Category>
    var transactions: seq<Transaction>
    var budgets: seq<Budget>
    var nextUserId: int
    var nextCategoryId: int
    var nextTransactionId: int
    var nextBudgetId: int

    /** The constraints of the schema hold. */
    ghost predicate Valid()
      reads this
    {
      && UsersOk(users, nextUserId)
      && CategoriesOk(categories, nextCategoryId)
      && TransactionsOk(transactions, nextTransactionId)
      && BudgetsOk(budgets, nextBudgetId)
    }

    /** `initialize_database()` on a new file: four empty tables. */
    constructor ()
      ensures Valid()
      ensures users == [] && categories == [] && transactions == [] && budgets == []
      ensures nextUserId == 1 && nextCategoryId == 1 && nextTransactionId == 1 && nextBudgetId == 1
    {
      users, categories, transactions, budgets := [], [], [], [];
      nextUserId, nextCategoryId, nextTransactionId, nextBudgetId := 1, 1, 1, 1;
    }

    /** `create_user(username, password)` with the bcrypt hash already
        computed: inserts the user and returns its id, or fails on
        `username UNIQUE` and changes nothing. */
    method CreateUser(username: string, passwordHash: string) returns (r: Result<int, DbError>)
      requires Valid()
      modifies this
      ensures Valid()
      ensures UsernameTaken(old(users), username) ==>
        r == Err(UniqueUsername) && users == old(users) && nextUserId == old(nextUserId)
      ensures !UsernameTaken(old(users), username) ==>
        && r == Ok(old(nextUserId))
        && users == old(users) + [User(old(nextUserId), username, passwordHash)]
        && nextUserId == old(nextUserId) + 1
      ensures categories == old(categories) && transactions == old(transactions) && budgets == old(budgets)
      ensures nextCategoryId == old(nextCategoryId) && nextTransactionId == old(nextTransactionId)
      ensures nextBudgetId == old(nextBudgetId)
    {
      if UsernameTaken(users, username) {
        return Err(UniqueUsername);
      }
      r := Ok(nextUserId);
      InsertUserOk(users, nextUserId, User(nextUserId, username, passwordHash));
      users := users + [User(nextUserId, username, passwordHash)];
      nextUserId := nextUserId + 1;
    }

    /** `set_default_categories(user_id)`: inserts the six default categories
        one by one. If one name is already taken the INSERT raises before the
        commit and the connection is dropped, which rolls back the earlier
        inserts: the call either adds all six rows or changes nothing. */
    method SetDefaultCategories(userId: int) returns (r: Status)
      requires Valid()
      modifies this
      ensures Valid()
      ensures DefaultsFit(old(categories), userId) ==>
        && r == Done
        && categories == old(categories) + DefaultRows(userId, old(nextCategoryId))
        && nextCategoryId == old(nextCategoryId) + |DefaultCategories|
      ensures !DefaultsFit(old(categories), userId) ==>
        r == Failed(UniqueCategoryName) && categories == old(categories) && nextCategoryId == old(nextCategoryId)
      ensures users == old(users) && transactions == old(transactions) && budgets == old(budgets)
      ensures nextUserId == old(nextUserId) && nextTransactionId == old(nextTransactionId)
      ensures nextBudgetId == old(nextBudgetId)
    {
      var rows, next := categories, nextCategoryId;
      ghost var added := DefaultRows(userId, nextCategoryId);
      var i := 0;
      while i < |DefaultCategories|
        invariant 0 <= i <= |DefaultCategories|
        invariant unchanged(this)
        invariant rows == categories + added[..i] && next == nextCategoryId + i
        invariant DefaultsFitUpTo(categories, userId, i)
        invariant CategoriesOk(rows, next)
      {
        var (name, categoryType) := DefaultCategories[i];
        if NameTaken(rows, userId, name) {
          DefaultPrefixTaken(categories, userId, nextCategoryId, i);
          return Failed(UniqueCategoryName);
        }
        DefaultInsertOk(categories, userId, nextCategoryId, i);
        rows := rows + [Category(next, userId, name, categoryType)];
        next := next + 1;
        i := i + 1;
      }
      assert added[..i] == added;
      categories, nextCategoryId := rows, next;
      r := Done;
    }

    /** `add_category(user_id, name, type)`: inserts the category, or fails on
        `UNIQUE(user_id, category_name)` and changes nothing. */
    method AddCategory(userId: int, name: string, categoryType: string) returns (r: Status)
      requires Valid()
      modifies this
      ensures Valid()
      ensures NameTaken(old(categories), userId, name) ==>
        r == Failed(UniqueCategoryName) && categories == old(categories) && nextCategoryId == old(nextCategoryId)
      ensures !NameTaken(old(categories), userId, name) ==>
        && r == Done
        && categories == old(categories) + [Category(old(nextCategoryId), userId, name, categoryType)]
        && nextCategoryId == old(nextCategoryId) + 1
      ensures users == old(users) && transactions == old(transactions) && budgets == old(budgets)
      ensures nextUserId == old(nextUserId) && nextTransactionId == old(nextTransactionId)
      ensures nextBudgetId == old(nextBudgetId)
    {
      if NameTaken(categories, userId, name) {
        return Failed(UniqueCategoryName);
      }
      InsertCategoryOk(categories, nextCategoryId, Category(nextCategoryId, userId, name, categoryType));
      categories := categories + [Category(nextCategoryId, userId, name, categoryType)];
      nextCategoryId := nextCategoryId + 1;
      r := Done;
    }

    /** `update_category(id, name, type)`: renames and retypes the row with that
        id (no row: nothing happens), or fails on
        `UNIQUE(user_id, category_name)` and changes nothing. The row keeps its
        id and its user; no ownership is checked. */
    method UpdateCategory(id: int, name: string, categoryType: string) returns (r: Status)
      requires Valid()
      modifies this
      ensures Valid()
      ensures RenameConflict(old(categories), id, name) ==>
        r == Failed(UniqueCategoryName) && categories == old(categories)
      ensures !RenameConflict(old(categories), id, name) ==>
        r == Done && categories == RenameCategory(old(categories), id, name, categoryType)
      ensures users == old(users) && transactions == old(transactions) && budgets == old(budgets)
      ensures nextUserId == old(nextUserId) && nextCategoryId == old(nextCategoryId)
      ensures nextTransactionId == old(nextTransactionId) && nextBudgetId == old(nextBudgetId)
    {
      if RenameConflict(categories, id, name) {
        return Failed(UniqueCategoryName);
      }
      RenameCategoryOk(categories, nextCategoryId, id, name, categoryType);
      categories := RenameCategory(categories, id, name, categoryType);
      r := Done;
    }

    /** `delete_category(id)`: deletes the category's transactions, then the
        category. Budgets are left in place (no cascade). */
    method DeleteCategory(id: int)
      requires Valid()
      modifies this
      ensures Valid()
      ensures transactions == DeleteTransactionsOfCategory(old(transactions), id)
      ensures categories == DeleteCategoryRows(old(categories), id)
      ensures users == old(users) && budgets == old(budgets)
      ensures nextUserId == old(nextUserId) && nextCategoryId == old(nextCategoryId)
      ensures nextTransactionId == old(nextTransactionId) && nextBudgetId == old(nextBudgetId)
    {
      DeleteCategoryOk(categories, transactions, nextCategoryId, nextTransactionId, id);
      transactions := DeleteTransactionsOfCategory(transactions, id);
      categories := DeleteCategoryRows(categories, id);
    }

    /** `add_transaction(user_id, category_id, amount, date, note)`: inserts one
        row; the store checks nothing about the values. */
    method AddTransaction(userId: int, categoryId: int, amount: real, date: string, note: Option<string>)
      requires Valid()
      modifies this
      ensures Valid()
      ensures transactions == old(transactions)
        + [Transaction(old(nextTransactionId), userId, Some(categoryId), amount, date, note)]
      ensures nextTransactionId == old(nextTransactionId) + 1
      ensures users == old(users) && categories == old(categories) && budgets == old(budgets)
      ensures nextUserId == old(nextUserId) && nextCategoryId == old(nextCategoryId)
      ensures nextBudgetId == old(nextBudgetId)
    {
      InsertTransactionOk(transactions, nextTransactionId,
        Transaction(nextTransactionId, userId, Some(categoryId), amount, date, note));
      transactions := transactions + [Transaction(nextTransactionId, userId, Some(categoryId), amount, date, note)];
      nextTransactionId := nextTransactionId + 1;
    }

    /** `update_transaction(id, category_id, amount, date, note)`: overwrites
        those four columns of the row with that id (no row: nothing happens);
        a `None` note is stored as NULL.
        A NULL amount violates `amount REAL NOT NULL` when a row matches. */
    method UpdateTransaction(id: int, categoryId: Option<int>, amount: Option<real>, date: string, note: Option<string>)
      returns (r: Status)
      requires Valid()
      modifies this
      ensures Valid()
      ensures amount.None? && (exists t :: t in old(transactions) && t.id == id) ==>
        r == Failed(NotNullAmount) && transactions == old(transactions)
      ensures amount.None? && !(exists t :: t in old(transactions) && t.id == id) ==>
        r == Done && transactions == old(transactions)
      ensures amount.Some? ==>
        r == Done && transactions == UpdateTransactionRows(old(transactions), id, categoryId, amount.value, date, note)
      ensures users == old(users) && categories == old(categories) && budgets == old(budgets)
      ensures nextUserId == old(nextUserId) && nextCategoryId == old(nextCategoryId)
      ensures nextTransactionId == old(nextTransactionId) && nextBudgetId == old(nextBudgetId)
    {
      if amount.None? {
        if exists t :: t in transactions && t.id == id {
          return Failed(NotNullAmount);
        }
        return Done;
      }
      UpdateTransactionOk(transactions, nextTransactionId, id, categoryId, amount.value, date, note);
      transactions := UpdateTransactionRows(transactions, id, categoryId, amount.value, date, note);
      r := Done;
    }

    /** `delete_transaction(id)`: deletes the row with that id, if any. */
    method DeleteTransaction(id: int)
      requires Valid()
      modifies this
      ensures Valid()
      ensures transactions == DeleteTransactionRows(old(transactions), id)
      ensures users == old(users) && categories == old(categories) && budgets == old(budgets)
      ensures nextUserId == old(nextUserId) && nextCategoryId == old(nextCategoryId)
      ensures nextTransactionId == old(nextTransactionId) && nextBudgetId == old(nextBudgetId)
    {
      DeleteTransactionOk(transactions, nextTransactionId, id);
      transactions := DeleteTransactionRows(transactions, id);
    }

    /** `set_budget(user_id, category_id, month, year, amount)`:
        `INSERT OR REPLACE` deletes any budget with the same
        (user, category, month, year) and inserts a row with a fresh id. */
    method SetBudget(userId: int, categoryId: int, month: int, year: int, amount: real)
      requires Valid()
      modifies this
      ensures Valid()
      ensures budgets == UpsertBudget(old(budgets), Budget(old(nextBudgetId), userId, amount, month, year, categoryId))
      ensures nextBudgetId == old(nextBudgetId) + 1
      ensures users == old(users) && categories == old(categories) && transactions == old(transactions)
      ensures nextUserId == old(nextUserId) && nextCategoryId == old(nextCategoryId)
      ensures nextTransactionId == old(nextTransactionId)
    {
      var row := Budget(nextBudgetId, userId, amount, month, year, categoryId);
      UpsertBudgetOk(budgets, nextBudgetId, row);
      budgets := UpsertBudget(budgets, row);
      nextBudgetId := nextBudgetId + 1;
    }
  }
}
