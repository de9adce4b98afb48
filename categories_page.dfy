/** `pages/3_Manage_Categories.py`: the three session flags that the buttons'
    callbacks raise, and the handlers that lower each flag before acting on
    the store. Each handler is one section of a script run; the widgets'
    values arrive as parameters. */
module CategoriesPage {
  import opened Wrappers
  import opened Text
  import opened Schema
  import opened Db
  import opened Queries
  import opened Notices

  /** Every category has one of the three types the page offers. */
  predicate TypesKnown(cats: seq<Category>)
  {
    forall c :: c in cats ==> IsKnownType(c.categoryType)
  }

  /** One row of the edited category table. */
  datatype CategoryEdit = CategoryEdit(id: int, name: string, categoryType: string)

  predicate EditTypesKnown(edits: seq<CategoryEdit>)
  {
    forall e :: e in edits ==> IsKnownType(e.categoryType)
  }

  /** The edited rows applied one after another with `update_category`: the
      final table and the ids of the rows that failed on the unique name, in
      order. */
  function RenameAll(cats: seq<Category>, edits: seq<CategoryEdit>): (seq<Category>, seq<int>)
  {
    if edits == [] then (cats, [])
    else
      var before := RenameAll(cats, edits[..|edits| - 1]);
      var e := edits[|edits| - 1];
      if RenameConflict(before.0, e.id, e.name) then (before.0, before.1 + [e.id])
      else (RenameCategory(before.0, e.id, e.name, e.categoryType), before.1)
  }

  /** `{c[1]: c[0] for c in categories}`: name to id; for a repeated name the
      last id wins. */
  function NameToId(listed: seq<CategoryEntry>): map<string, int>
  {
    if listed == [] then map[]
    else NameToId(listed[..|listed| - 1])[listed[|listed| - 1].name := listed[|listed| - 1].id]
  }

  /** `if cat_id_to_del:` on `dict.get`: a missing name and the id 0 are both
      falsy. */
  function DeleteTarget(listed: seq<CategoryEntry>, selected: string): Option<int>
  {
    if selected in NameToId(listed) && NameToId(listed)[selected] != 0 then Some(NameToId(listed)[selected]) else None
  }

  /** The session state of the page: one flag per button. */
  class CategoriesSession {
    var addSubmitted: bool
    var updateSubmitted: bool
    var deleteSubmitted: bool

    /** The first run of the page sets all three flags to False. */
    constructor ()
      ensures !addSubmitted && !updateSubmitted && !deleteSubmitted
    {
      addSubmitted, updateSubmitted, deleteSubmitted := false, false, false;
    }

    /** `add_category_callback`. */
    method ClickAdd()
      modifies this
      ensures addSubmitted && updateSubmitted == old(updateSubmitted) && deleteSubmitted == old(deleteSubmitted)
    {
      addSubmitted := true;
    }

    /** `update_categories_callback`. */
    method ClickUpdate()
      modifies this
      ensures updateSubmitted && addSubmitted == old(addSubmitted) && deleteSubmitted == old(deleteSubmitted)
    {
      updateSubmitted := true;
    }

    /** `delete_category_callback`. */
    method ClickDelete()
      modifies this
      ensures deleteSubmitted && addSubmitted == old(addSubmitted) && updateSubmitted == old(updateSubmitted)
    {
      deleteSubmitted := true;
    }

    /** The add section: with its flag raised, lowers it, refuses a name that
        is blank after `strip()`, and otherwise adds the stripped name. A
        name the user already has makes `add_category` raise, and nothing in
        the section catches it. */
    method HandleAdd(db: Database, userId: int, name: string, categoryType: string) returns (notice: Option<Notice>)
      requires db.Valid() && IsKnownType(categoryType)
      modifies this, db
      ensures !addSubmitted && updateSubmitted == old(updateSubmitted) && deleteSubmitted == old(deleteSubmitted)
      ensures db.Valid()
      ensures (!old(addSubmitted) || Strip(name) == [] || NameTaken(old(db.categories), userId, Strip(name))) ==>
        db.categories == old(db.categories) && db.nextCategoryId == old(db.nextCategoryId)
      ensures !old(addSubmitted) ==> notice == None
      ensures old(addSubmitted) && Strip(name) == [] ==> notice == Some(Error("Category name cannot be empty."))
      ensures old(addSubmitted) && Strip(name) != [] && NameTaken(old(db.categories), userId, Strip(name)) ==>
        notice == Some(Uncaught)
      ensures old(addSubmitted) && Strip(name) != [] && !NameTaken(old(db.categories), userId, Strip(name)) ==>
        && notice == Some(Success("Category added successfully!"))
        && db.categories == old(db.categories) + [Category(old(db.nextCategoryId), userId, Strip(name), categoryType)]
        && db.nextCategoryId == old(db.nextCategoryId) + 1
      ensures TypesKnown(old(db.categories)) ==> TypesKnown(db.categories)
      ensures db.users == old(db.users) && db.transactions == old(db.transactions) && db.budgets == old(db.budgets)
      ensures db.nextUserId == old(db.nextUserId) && db.nextTransactionId == old(db.nextTransactionId)
      ensures db.nextBudgetId == old(db.nextBudgetId)
    {
      if !addSubmitted {
        return None;
      }
      addSubmitted := false;
      var stripped := Strip(name);
      if stripped == [] {
        return Some(Error("Category name cannot be empty."));
      }
      var status := db.AddCategory(userId, stripped, categoryType);
      if status.Failed? {
        return Some(Uncaught);
      }
      notice := Some(Success("Category added successfully!"));
    }

    /** The update section: with its flag raised, lowers it and calls
        `update_category` for every edited row; a row that fails is reported
        and the loop goes on. Success is reported whatever happened. With no
        categories listed there is no edited table, and the section raises. */
    method HandleUpdate(db: Database, listed: seq<CategoryEntry>, edits: seq<CategoryEdit>)
      returns (failed: seq<int>, notice: Option<Notice>)
      requires db.Valid()
      modifies this, db
      ensures !updateSubmitted && addSubmitted == old(addSubmitted) && deleteSubmitted == old(deleteSubmitted)
      ensures db.Valid()
      ensures !old(updateSubmitted) || listed == [] ==> failed == [] && db.categories == old(db.categories)
      ensures !old(updateSubmitted) ==> notice == None
      ensures old(updateSubmitted) && listed == [] ==> notice == Some(Uncaught)
      ensures old(updateSubmitted) && listed != [] ==>
        && (db.categories, failed) == RenameAll(old(db.categories), edits)
        && notice == Some(Success("Categories updated successfully!"))
      ensures TypesKnown(old(db.categories)) && EditTypesKnown(edits) ==> TypesKnown(db.categories)
      ensures db.users == old(db.users) && db.transactions == old(db.transactions) && db.budgets == old(db.budgets)
      ensures db.nextUserId == old(db.nextUserId) && db.nextCategoryId == old(db.nextCategoryId)
      ensures db.nextTransactionId == old(db.nextTransactionId) && db.nextBudgetId == old(db.nextBudgetId)
    {
      failed := [];
      if !updateSubmitted {
        return failed, None;
      }
      updateSubmitted := false;
      if listed == [] {
        return failed, Some(Uncaught);
      }
      var i := 0;
      while i < |edits|
        invariant 0 <= i <= |edits|
        invariant !updateSubmitted && addSubmitted == old(addSubmitted) && deleteSubmitted == old(deleteSubmitted)
        invariant db.Valid()
        invariant (db.categories, failed) == RenameAll(old(db.categories), edits[..i])
        invariant TypesKnown(old(db.categories)) && EditTypesKnown(edits) ==> TypesKnown(db.categories)
        invariant db.users == old(db.users) && db.transactions == old(db.transactions) && db.budgets == old(db.budgets)
        invariant db.nextUserId == old(db.nextUserId) && db.nextCategoryId == old(db.nextCategoryId)
        invariant db.nextTransactionId == old(db.nextTransactionId) && db.nextBudgetId == old(db.nextBudgetId)
      {
        var e := edits[i];
        assert edits[..i + 1][..i] == edits[..i];
        if TypesKnown(db.categories) && EditTypesKnown(edits) {
          assert e in edits;
          RenameKeepsTypesKnown(db.categories, e.id, e.name, e.categoryType);
        }
        var status := db.UpdateCategory(e.id, e.name, e.categoryType);
        if status.Failed? {
          failed := failed + [e.id];
        }
        i := i + 1;
      }
      assert edits[..i] == edits;
      notice := Some(Success("Categories updated successfully!"));
    }

    /** The delete section: with its flag raised, lowers it, looks the
        selected name up in the listing taken before the update section ran,
        and deletes the category and its transactions when the lookup gives a
        truthy id. With no categories listed there is no lookup table, and
        the section raises. */
    method HandleDelete(db: Database, listed: seq<CategoryEntry>, selected: string) returns (notice: Option<Notice>)
      requires db.Valid()
      modifies this, db
      ensures !deleteSubmitted && addSubmitted == old(addSubmitted) && updateSubmitted == old(updateSubmitted)
      ensures db.Valid()
      ensures !old(deleteSubmitted) || listed == [] || DeleteTarget(listed, selected).None? ==>
        db.categories == old(db.categories) && db.transactions == old(db.transactions)
      ensures !old(deleteSubmitted) ==> notice == None
      ensures old(deleteSubmitted) && listed == [] ==> notice == Some(Uncaught)
      ensures old(deleteSubmitted) && listed != [] && DeleteTarget(listed, selected).None? ==>
        notice == Some(Error("Please select a category to delete."))
      ensures old(deleteSubmitted) && listed != [] && DeleteTarget(listed, selected).Some? ==>
        var id := DeleteTarget(listed, selected).value;
        && notice == Some(Success("Category and all related transactions deleted."))
        && db.categories == DeleteCategoryRows(old(db.categories), id)
        && db.transactions == DeleteTransactionsOfCategory(old(db.transactions), id)
      ensures TypesKnown(old(db.categories)) ==> TypesKnown(db.categories)
      ensures db.users == old(db.users) && db.budgets == old(db.budgets)
      ensures db.nextUserId == old(db.nextUserId) && db.nextCategoryId == old(db.nextCategoryId)
      ensures db.nextTransactionId == old(db.nextTransactionId) && db.nextBudgetId == old(db.nextBudgetId)
    {
      if !deleteSubmitted {
        return None;
      }
      deleteSubmitted := false;
      if listed == [] {
        return Some(Uncaught);
      }
      var options := NameToId(listed);
      if selected in options && options[selected] != 0 {
        DeleteCategoryEffect(db.categories, db.transactions, options[selected]);
        db.DeleteCategory(options[selected]);
        notice := Some(Success("Category and all related transactions deleted."));
      } else {
        notice := Some(Error("Please select a category to delete."));
      }
    }
  }

  /* ---------------- Properties ---------------- */

  /** Renaming with a known type keeps every type known. */
  lemma RenameKeepsTypesKnown(cats: seq<Category>, id: int, name: string, categoryType: string)
    requires TypesKnown(cats) && IsKnownType(categoryType)
    ensures TypesKnown(RenameCategory(cats, id, name, categoryType))
  {
    var r := RenameCategory(cats, id, name, categoryType);
    forall c | c in r ensures IsKnownType(c.categoryType) {
      var i :| 0 <= i < |r| && r[i] == c;
      assert cats[i] in cats;
    }
  }

  /** The six default categories have known types. */
  lemma DefaultTypesKnown(cats: seq<Category>, userId: int, first: int)
    requires TypesKnown(cats)
    ensures TypesKnown(cats + DefaultRows(userId, first))
  {
    var d := DefaultRows(userId, first);
    forall c | c in cats + d ensures IsKnownType(c.categoryType) {
      if c !in cats {
        var i :| 0 <= i < |d| && d[i] == c;
      }
    }
  }

  /** A row that fails on the unique name is skipped: the rows after it are
      applied as if it had not been there, and its id is reported. */
  lemma {:induction false} FailedRenameSkipped(
    cats: seq<Category>, before: seq<CategoryEdit>, bad: CategoryEdit, after: seq<CategoryEdit>)
    requires RenameConflict(RenameAll(cats, before).0, bad.id, bad.name)
    ensures RenameAll(cats, before + [bad] + after).0 == RenameAll(cats, before + after).0
    ensures bad.id in RenameAll(cats, before + [bad] + after).1
  {
    var all := before + [bad] + after;
    if after == [] {
      assert all[..|all| - 1] == before;
      assert before + after == before;
    } else {
      var init := after[..|after| - 1];
      assert all[..|all| - 1] == before + [bad] + init;
      assert (before + after)[..|before + after| - 1] == before + init;
      assert all[|all| - 1] == (before + after)[|before + after| - 1];
      FailedRenameSkipped(cats, before, bad, init);
    }
  }

  /** Within one user's listing, a name belongs to one id. */
  lemma ListingNamesDistinct(cats: seq<Category>, next: int, userId: int, a: CategoryEntry, b: CategoryEntry)
    requires CategoriesOk(cats, next)
    requires a in UserCategories(cats, userId) && b in UserCategories(cats, userId) && a.name == b.name
    ensures a.id == b.id
  {
    UserCategoriesMembers(cats, userId, a);
    UserCategoriesMembers(cats, userId, b);
  }

  /** The name-to-id map has exactly the listed names as keys. */
  lemma {:induction false} NameToIdKeys(listed: seq<CategoryEntry>)
    ensures forall k :: k in NameToId(listed) <==> exists x :: x in listed && x.name == k
  {
    if listed != [] {
      var init, last := listed[..|listed| - 1], listed[|listed| - 1];
      assert listed == init + [last];
      NameToIdKeys(init);
      forall k | k in NameToId(listed) ensures exists x :: x in listed && x.name == k {
        if k != last.name {
          assert NameToId(listed) == NameToId(init)[last.name := last.id];
          assert k in NameToId(init);
          var x :| x in init && x.name == k;
          assert x in listed;
        }
      }
    }
  }

  /** When names are not repeated, each listed name maps to its entry's id. */
  lemma {:induction false} NameToIdValue(listed: seq<CategoryEntry>, e: CategoryEntry)
    requires forall a, b :: a in listed && b in listed && a.name == b.name ==> a.id == b.id
    requires e in listed
    ensures e.name in NameToId(listed) && NameToId(listed)[e.name] == e.id
  {
    NameToIdKeys(listed);
    var init, last := listed[..|listed| - 1], listed[|listed| - 1];
    assert listed == init + [last];
    if e.name != last.name {
      assert e in init;
      NameToIdValue(init, e);
    }
  }

  /** Selecting a listed category deletes exactly that category: its id is
      positive, so the truthiness test passes. */
  lemma DeleteSelectsListed(cats: seq<Category>, next: int, userId: int, e: CategoryEntry)
    requires CategoriesOk(cats, next) && e in UserCategories(cats, userId)
    ensures DeleteTarget(UserCategories(cats, userId), e.name) == Some(e.id)
  {
    var listed := UserCategories(cats, userId);
    forall a, b | a in listed && b in listed && a.name == b.name ensures a.id == b.id {
      ListingNamesDistinct(cats, next, userId, a, b);
    }
    NameToIdValue(listed, e);
    UserCategoriesMembers(cats, userId, e);
  }

  /** A name that is not listed deletes nothing. */
  lemma DeleteUnlistedNothing(listed: seq<CategoryEntry>, selected: string)
    requires forall e :: e in listed ==> e.name != selected
    ensures DeleteTarget(listed, selected) == None
  {
    NameToIdKeys(listed);
  }
}
