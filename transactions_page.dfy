/** `pages/2_Transactions.py`: the add, bulk-edit and delete callbacks and the
    history the page shows for a date range. The callbacks run against the
    store; the widgets' values arrive as parameters. */
module TransactionsPage {
  import opened Wrappers
  import opened Text
  import opened Seqs
  import opened Dates
  import opened Schema
  import opened Db
  import opened Queries
  import opened Notices

  /* ---------------- Adding one transaction ---------------- */

  /** `add_transaction_callback`: a non-positive amount is refused with an
      error; otherwise one row is inserted, dated with the picked date as
      `YYYY-MM-DD`. The note comes from a text input, so it is always text,
      empty when left blank. */
  method AddTransactionCallback(db: Database, userId: int, categoryId: int, amount: real, date: Date, note: string)
    returns (notice: Notice)
    requires db.Valid() && Valid(date)
    modifies db
    ensures db.Valid()
    ensures amount <= 0.0 ==>
      notice == Error("Amount must be positive.")
      && db.transactions == old(db.transactions) && db.nextTransactionId == old(db.nextTransactionId)
    ensures amount > 0.0 ==>
      notice == Success("Transaction added successfully!")
      && db.transactions == old(db.transactions)
           + [Transaction(old(db.nextTransactionId), userId, Some(categoryId), amount, Format(date), Some(note))]
      && db.nextTransactionId == old(db.nextTransactionId) + 1
    ensures db.users == old(db.users) && db.categories == old(db.categories) && db.budgets == old(db.budgets)
    ensures db.nextUserId == old(db.nextUserId) && db.nextCategoryId == old(db.nextCategoryId)
    ensures db.nextBudgetId == old(db.nextBudgetId)
  {
    if amount <= 0.0 {
      notice := Error("Amount must be positive.");
    } else {
      db.AddTransaction(userId, categoryId, amount, Format(date), Some(note));
      notice := Success("Transaction added successfully!");
    }
  }

  /* ---------------- Looking a category up by name ---------------- */

  function NamedEntry(name: string): CategoryEntry -> bool
  {
    (e: CategoryEntry) => e.name == name
  }

  /** The id of the first listed category with that name, if any. */
  function IdOfName(entries: seq<CategoryEntry>, name: string): Option<int>
  {
    match First(entries, NamedEntry(name))
    case Some(e) => Some(e.id)
    case None => None
  }

  /** `get_category_id_from_name`: scans the user's categories in listing
      order and returns the id of the first one with that name, or nothing. */
  method CategoryIdFromName(db: Database, userId: int, name: string) returns (r: Option<int>)
    ensures r == IdOfName(UserCategories(db.categories, userId), name)
    ensures r.None? <==> forall e :: e in UserCategories(db.categories, userId) ==> e.name != name
    ensures r.Some? ==> exists e :: e in UserCategories(db.categories, userId) && e.name == name && e.id == r.value
  {
    var categories := UserCategories(db.categories, userId);
    var i := 0;
    while i < |categories|
      invariant 0 <= i <= |categories|
      invariant forall j :: 0 <= j < i ==> categories[j].name != name
    {
      if categories[i].name == name {
        var f := First(categories, NamedEntry(name));
        assert NamedEntry(name)(categories[i]);
        var k :| 0 <= k < |categories| && categories[k] == f.value && NamedEntry(name)(categories[k])
          && forall j :: 0 <= j < k ==> !NamedEntry(name)(categories[j]);
        assert k == i;
        return Some(categories[i].id);
      }
      i := i + 1;
    }
    assert forall j :: 0 <= j < |categories| ==> !NamedEntry(name)(categories[j]);
    r := None;
  }

  /* ---------------- Saving the edited history ---------------- */

  /** One row of the edited table: the transaction id, the chosen category
      name, the date (`None` for a cleared cell, whose `strftime` raises),
      the amount (`None` for a cleared cell, stored as NULL) and the note
      (`None` for a cleared cell, also stored as NULL). The
      Type column is shown but never written back. */
  datatype EditedRow = EditedRow(id: int, category: string, date: Option<Date>, amount: Option<real>, note: Option<string>)

  predicate DateValid(row: EditedRow)
  {
    row.date.Some? ==> Valid(row.date.value)
  }

  predicate DatesValid(rows: seq<EditedRow>)
  {
    forall row :: row in rows ==> DateValid(row)
  }

  /** What one edited row does to the table: the new table, or `None` when
      the row raises (no date, or a NULL amount for an existing row). A
      category name that is not listed stores a NULL category id. */
  function EditRow(cats: seq<Category>, userId: int, txs: seq<Transaction>, row: EditedRow): Option<seq<Transaction>>
    requires DateValid(row)
  {
    if row.date.None? then None
    else if row.amount.None? then
      (if exists t :: t in txs && t.id == row.id then None else Some(txs))
    else
      Some(UpdateTransactionRows(txs, row.id, IdOfName(UserCategories(cats, userId), row.category),
        row.amount.value, Format(row.date.value), row.note))
  }

  /** The rows applied one after another: the final table and the ids of the
      rows that failed, in order. */
  function EditAll(cats: seq<Category>, userId: int, txs: seq<Transaction>, rows: seq<EditedRow>)
    : (seq<Transaction>, seq<int>)
    requires DatesValid(rows)
  {
    if rows == [] then (txs, [])
    else
      var before := EditAll(cats, userId, txs, rows[..|rows| - 1]);
      var row := rows[|rows| - 1];
      match EditRow(cats, userId, before.0, row)
      case Some(next) => (next, before.1)
      case None => (before.0, before.1 + [row.id])
  }

  /** The `try` block for one edited row: looks the category up by name,
      formats the date and calls `update_transaction`. `ok` is false when the
      row raises, and then nothing changes. */
  method ApplyEditedRow(db: Database, userId: int, row: EditedRow) returns (ok: bool)
    requires db.Valid() && DateValid(row)
    modifies db
    ensures db.Valid()
    ensures ok == EditRow(old(db.categories), userId, old(db.transactions), row).Some?
    ensures db.transactions == if ok then EditRow(old(db.categories), userId, old(db.transactions), row).value
                               else old(db.transactions)
    ensures db.users == old(db.users) && db.categories == old(db.categories) && db.budgets == old(db.budgets)
    ensures db.nextUserId == old(db.nextUserId) && db.nextCategoryId == old(db.nextCategoryId)
    ensures db.nextTransactionId == old(db.nextTransactionId) && db.nextBudgetId == old(db.nextBudgetId)
  {
    var categoryId := CategoryIdFromName(db, userId, row.category);
    if row.date.None? {
      return false;
    }
    var status := db.UpdateTransaction(row.id, categoryId, row.amount, Format(row.date.value), row.note);
    ok := status.Done?;
  }

  /** `update_transactions_callback`: every row is attempted; a row that
      raises is reported and the loop goes on with the next one. The page
      then reports success whatever happened. */
  method UpdateTransactionsCallback(db: Database, userId: int, rows: seq<EditedRow>)
    returns (failed: seq<int>, notice: Notice)
    requires db.Valid() && DatesValid(rows)
    modifies db
    ensures db.Valid()
    ensures (db.transactions, failed) == EditAll(old(db.categories), userId, old(db.transactions), rows)
    ensures notice == Success("Transactions updated successfully!")
    ensures db.users == old(db.users) && db.categories == old(db.categories) && db.budgets == old(db.budgets)
    ensures db.nextUserId == old(db.nextUserId) && db.nextCategoryId == old(db.nextCategoryId)
    ensures db.nextTransactionId == old(db.nextTransactionId) && db.nextBudgetId == old(db.nextBudgetId)
  {
    failed := [];
    var i := 0;
    while i < |rows|
      invariant 0 <= i <= |rows|
      invariant db.Valid()
      invariant (db.transactions, failed) == EditAll(old(db.categories), userId, old(db.transactions), rows[..i])
      invariant db.users == old(db.users) && db.categories == old(db.categories) && db.budgets == old(db.budgets)
      invariant db.nextUserId == old(db.nextUserId) && db.nextCategoryId == old(db.nextCategoryId)
      invariant db.nextTransactionId == old(db.nextTransactionId) && db.nextBudgetId == old(db.nextBudgetId)
    {
      var row := rows[i];
      assert row in rows;
      assert rows[..i + 1][..i] == rows[..i];
      var ok := ApplyEditedRow(db, userId, row);
      if !ok {
        failed := failed + [row.id];
      }
      i := i + 1;
    }
    assert rows[..i] == rows;
    notice := Success("Transactions updated successfully!");
  }

  /** A row that fails is skipped: the rows after it are applied as if it
      had not been there, and its id is reported. */
  lemma {:induction false} FailedRowSkipped(
    cats: seq<Category>, userId: int, txs: seq<Transaction>,
    before: seq<EditedRow>, bad: EditedRow, after: seq<EditedRow>)
    requires DatesValid(before + [bad] + after)
    requires EditRow(cats, userId, EditAll(cats, userId, txs, before).0, bad).None?
    ensures EditAll(cats, userId, txs, before + [bad] + after).0 == EditAll(cats, userId, txs, before + after).0
    ensures bad.id in EditAll(cats, userId, txs, before + [bad] + after).1
  {
    var all := before + [bad] + after;
    if after == [] {
      assert all[..|all| - 1] == before;
      assert before + after == before;
    } else {
      var init, last := after[..|after| - 1], after[|after| - 1];
      assert all[..|all| - 1] == before + [bad] + init;
      assert (before + after)[..|before + after| - 1] == before + init;
      assert after == init + [last];
      FailedRowSkipped(cats, userId, txs, before, bad, init);
      var prev := EditAll(cats, userId, txs, before + [bad] + init);
      assert bad.id in prev.1;
    }
  }

  /** A row with a date and an amount always succeeds: it overwrites the
      row with its id and nothing else. */
  lemma CompleteRowApplies(cats: seq<Category>, userId: int, txs: seq<Transaction>, row: EditedRow, i: nat)
    requires row.date.Some? && Valid(row.date.value) && row.amount.Some? && i < |txs|
    ensures EditRow(cats, userId, txs, row).Some?
    ensures var r := EditRow(cats, userId, txs, row).value;
      |r| == |txs|
      && (txs[i].id != row.id ==> r[i] == txs[i])
      && (txs[i].id == row.id ==>
            r[i] == Transaction(txs[i].id, txs[i].userId, IdOfName(UserCategories(cats, userId), row.category),
                                row.amount.value, Format(row.date.value), row.note))
  {
  }

  /* ---------------- Deleting one transaction ---------------- */

  /** `delete_transaction_callback`: deletes the selected transaction. */
  method DeleteTransactionCallback(db: Database, id: int) returns (notice: Notice)
    requires db.Valid()
    modifies db
    ensures db.Valid()
    ensures db.transactions == DeleteTransactionRows(old(db.transactions), id)
    ensures notice == Success("Transaction deleted.")
    ensures db.users == old(db.users) && db.categories == old(db.categories) && db.budgets == old(db.budgets)
    ensures db.nextUserId == old(db.nextUserId) && db.nextCategoryId == old(db.nextCategoryId)
    ensures db.nextTransactionId == old(db.nextTransactionId) && db.nextBudgetId == old(db.nextBudgetId)
  {
    db.DeleteTransaction(id);
    notice := Success("Transaction deleted.");
  }

  /* ---------------- The history for a date range ---------------- */

  /** What the history section shows. */
  datatype HistoryView =
    | NoCategories          // the page asks for categories first
    | RangeError            // "Start date cannot be after end date."
    | Overflow              // the day after 9999-12-31 raises
    | NoTransactions        // "No transactions found for the selected date range."
    | Rows(rows: seq<HistoryRow>)

  function Shown(v: HistoryView): seq<HistoryRow>
  {
    if v.Rows? then v.rows else []
  }

  /** The history the page fetches for the picked start and end dates. */
  function TransactionHistory(cats: seq<Category>, txs: seq<Transaction>, userId: int, start: Date, end: Date)
    : (v: HistoryView)
    requires Valid(start) && Valid(end)
    ensures v.RangeError? <==> UserCategories(cats, userId) != [] && Before(end, start)
    ensures v.Overflow? ==> end == LastDate
    ensures v.Rows? ==> v.rows != [] && SortedBy(v.rows, RowDate, true)
  {
    if UserCategories(cats, userId) == [] then NoCategories
    else if Before(end, start) then RangeError
    else
      match PageWindow(start, end)
      case None => Overflow
      case Some(w) =>
        var rows := History(cats, txs, userId, Some(w.0), Some(w.1));
        if rows == [] then NoTransactions else Rows(rows)
  }

  /** As written, the page lists a joined transaction of the user exactly
      when its date lies between the picked dates OR is the day after the
      end date. */
  lemma HistoryViewMembers(
    cats: seq<Category>, next: int, txs: seq<Transaction>, userId: int, start: Date, end: Date,
    t: Transaction, c: Category, d: Date)
    requires CategoriesOk(cats, next) && Valid(start) && Valid(end) && Valid(d)
    requires UserCategories(cats, userId) != [] && !Before(end, start) && end != LastDate
    requires t in txs && c in cats && t.userId == userId && t.categoryId == Some(c.id) && t.date == Format(d)
    ensures MakeHistoryRow(t, c) in Shown(TransactionHistory(cats, txs, userId, start, end))
        <==> !Before(d, start) && (!Before(end, d) || NextDay(end) == Some(d))
  {
    var w := PageWindow(start, end).value;
    PageWindowAdmits(start, end, d);
    assert |w.0| == 10 && |w.1| == 10;
    HistoryMembers(cats, next, txs, userId, Some(w.0), Some(w.1), MakeHistoryRow(t, c));
  }

  /** With the window the page evidently intends, a joined transaction of the
      user is listed exactly when its date lies between the picked dates,
      both included. */
  lemma CorrectedHistoryMembers(
    cats: seq<Category>, next: int, txs: seq<Transaction>, userId: int, start: Date, end: Date,
    t: Transaction, c: Category, d: Date)
    requires CategoriesOk(cats, next) && Valid(start) && Valid(end) && Valid(d)
    requires t in txs && c in cats && t.userId == userId && t.categoryId == Some(c.id) && t.date == Format(d)
    ensures var w := InclusiveWindow(start, end);
      (MakeHistoryRow(t, c) in History(cats, txs, userId, Some(w.0), Some(w.1)))
        <==> !Before(d, start) && !Before(end, d)
  {
    var w := InclusiveWindow(start, end);
    InclusiveWindowExact(start, end, d);
    assert |w.0| == 10 && |w.1| == 10;
    HistoryMembers(cats, next, txs, userId, Some(w.0), Some(w.1), MakeHistoryRow(t, c));
  }

  /** Saving a row whose category name is not listed stores a NULL category
      id, and the inner join then drops that transaction from every
      history. */
  lemma UnlistedCategoryHidesRow(
    cats: seq<Category>, txs: seq<Transaction>, next: int, userId: int, row: EditedRow,
    start: Option<string>, end: Option<string>)
    requires TransactionsOk(txs, next)
    requires row.date.Some? && Valid(row.date.value) && row.amount.Some?
    requires forall e :: e in UserCategories(cats, userId) ==> e.name != row.category
    ensures forall h :: h in History(cats, EditRow(cats, userId, txs, row).value, userId, start, end) ==> h.id != row.id
  {
    var r := EditRow(cats, userId, txs, row).value;
    var entries := UserCategories(cats, userId);
    assert IdOfName(entries, row.category) == None by {
      forall k | 0 <= k < |entries| ensures !NamedEntry(row.category)(entries[k]) {
        assert entries[k] in entries;
      }
    }
    forall h | h in History(cats, r, userId, start, end)
      ensures h.id != row.id
    {
      HistoryOnlyJoined(cats, r, userId, start, end, h);
      var t, c :| t in r && c in cats && HistoryJoin(t, c, userId, start, end) && h == MakeHistoryRow(t, c);
      var j :| 0 <= j < |r| && r[j] == t;
      assert TransactionRowId(txs[j]) == txs[j].id;
    }
  }
}
