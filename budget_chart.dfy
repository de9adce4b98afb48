/** What the Dashboard and Budgets pages share: a Python dict from category
    id to amount (`{b[3]: b[2] for b in budgets}`, `dict.get`), the lookup
    of a category's row in the spending query's result (`spent_df.loc`), and
    the entries of the grouped "Budget vs. Spent" bar chart. */
module BudgetChart {
  import opened Wrappers
  import opened Seqs
  import opened Schema
  import opened Queries

  /** One bar: `{'Category': ..., 'Amount': ..., 'Type': 'Budget' | 'Spent'}`. */
  datatype ChartEntry = ChartEntry(category: string, amount: real, kind: string)

  const BudgetKind := "Budget"
  const SpentKind := "Spent"

  /* ---------------- A dict from id to amount ---------------- */

  /** The items of a dict, in the order their keys were first inserted. */
  type Dict = seq<(int, real)>

  function DictKeys(d: Dict): seq<int>
  {
    seq(|d|, i requires 0 <= i < |d| => d[i].0)
  }

  /** `d.get(k)`. */
  function DictGet(d: Dict, k: int): Option<real>
  {
    if d == [] then None else if d[0].0 == k then Some(d[0].1) else DictGet(d[1..], k)
  }

  /** `d[k] = v`: a present key keeps its place and takes the new value, a
      new key goes last. */
  function DictPut(d: Dict, k: int, v: real): Dict
  {
    if d == [] then [(k, v)]
    else if d[0].0 == k then [(k, v)] + d[1..]
    else [d[0]] + DictPut(d[1..], k, v)
  }

  /** After `d[k] = v`, `k` gives `v` and every other key what it gave. */
  lemma {:induction false} DictPutGet(d: Dict, k: int, v: real, x: int)
    ensures DictGet(DictPut(d, k, v), x) == if x == k then Some(v) else DictGet(d, x)
  {
    if d != [] && d[0].0 != k {
      DictPutGet(d[1..], k, v, x);
    }
  }

  /** `d[k] = v` keeps the key order and appends a new key. */
  lemma {:induction false} DictPutKeys(d: Dict, k: int, v: real)
    ensures DictKeys(DictPut(d, k, v)) == DictKeys(d) + (if k in DictKeys(d) then [] else [k])
  {
    if d != [] {
      assert DictKeys(d) == [d[0].0] + DictKeys(d[1..]);
      if d[0].0 != k {
        DictPutKeys(d[1..], k, v);
        assert DictKeys(DictPut(d, k, v)) == [d[0].0] + DictKeys(DictPut(d[1..], k, v));
      } else {
        assert DictKeys(DictPut(d, k, v)) == [k] + DictKeys(d[1..]);
      }
    }
  }

  /** `{b[3]: b[2] for b in budgets}`: category id to amount. */
  function BudgetDict(rows: seq<BudgetRow>): Dict
  {
    if rows == [] then []
    else DictPut(BudgetDict(rows[..|rows| - 1]), rows[|rows| - 1].categoryId, rows[|rows| - 1].amount)
  }

  /** The dict has a key exactly for each category among the rows, and gives
      it the amount of the LAST row of that category. */
  lemma {:induction false} BudgetDictGet(rows: seq<BudgetRow>, c: int)
    ensures DictGet(BudgetDict(rows), c).None? <==> forall i :: 0 <= i < |rows| ==> rows[i].categoryId != c
    ensures DictGet(BudgetDict(rows), c).Some? ==>
      exists i :: 0 <= i < |rows| && rows[i].categoryId == c && DictGet(BudgetDict(rows), c).value == rows[i].amount
        && forall j :: i < j < |rows| ==> rows[j].categoryId != c
  {
    if rows != [] {
      var init, last := rows[..|rows| - 1], rows[|rows| - 1];
      BudgetDictGet(init, c);
      DictPutGet(BudgetDict(init), last.categoryId, last.amount, c);
      assert forall i :: 0 <= i < |init| ==> rows[i] == init[i];
      if last.categoryId != c && DictGet(BudgetDict(init), c).Some? {
        var i :| 0 <= i < |init| && init[i].categoryId == c && DictGet(BudgetDict(init), c).value == init[i].amount
          && forall j :: i < j < |init| ==> init[j].categoryId != c;
        assert rows[i] == init[i];
      }
    }
  }

  /* ---------------- Looking a category up in the spending rows ---------------- */

  function ForCategory(id: int): SpentRow -> bool
  {
    (r: SpentRow) => r.categoryId == id
  }

  /** `cat_id in spent_df.index`, and then that row. */
  function SpentRowFor(spent: seq<SpentRow>, id: int): Option<SpentRow>
  {
    First(spent, ForCategory(id))
  }

  /** `spent_df.loc[cat_id, 'Spent'] if cat_id in spent_df.index else 0.0`. */
  function SpentAmount(spent: seq<SpentRow>, id: int): real
  {
    match SpentRowFor(spent, id)
    case Some(r) => r.total
    case None => 0.0
  }

  /** `spent_df.loc[cat_id, 'Category'] if cat_id in spent_df.index else 'N/A'`. */
  function SpentLabel(spent: seq<SpentRow>, id: int): string
  {
    match SpentRowFor(spent, id)
    case Some(r) => r.categoryName
    case None => "N/A"
  }

  /** Two categories with one id are one category. */
  lemma SameIdSameCategory(cats: seq<Category>, next: int, a: Category, b: Category)
    requires CategoriesOk(cats, next) && a in cats && b in cats && a.id == b.id
    ensures a == b
  {
    var i :| 0 <= i < |cats| && cats[i] == a;
    var j :| 0 <= j < |cats| && cats[j] == b;
    assert CategoryRowId(cats[i]) == CategoryRowId(cats[j]);
  }

  /** For a category of the table, the spending lookup finds its row exactly
      when it is an expense category with spending in the period, and then
      gives its name and total. */
  lemma SpentLookup(
    cats: seq<Category>, next: int, txs: seq<Transaction>, userId: int, month: int, year: int, c: Category)
    requires CategoriesOk(cats, next) && c in cats
    ensures SpentRowFor(SpentPerCategory(cats, txs, userId, month, year), c.id)
      == if c.categoryType == ExpenseType && HasSpend(txs, userId, c.id, month, year)
         then Some(SpentRow(c.id, c.name, SpendTotal(txs, userId, c.id, month, year)))
         else None
  {
    var spent := SpentPerCategory(cats, txs, userId, month, year);
    var expected := SpentRow(c.id, c.name, SpendTotal(txs, userId, c.id, month, year));
    var found := SpentRowFor(spent, c.id);
    if c.categoryType == ExpenseType && HasSpend(txs, userId, c.id, month, year) {
      SpentPerCategoryMembers(cats, txs, userId, month, year, expected);
      var i :| 0 <= i < |spent| && spent[i] == expected;
      assert ForCategory(c.id)(spent[i]);
    }
    if found.Some? {
      var i :| 0 <= i < |spent| && spent[i] == found.value && ForCategory(c.id)(spent[i]);
      SpentPerCategoryMembers(cats, txs, userId, month, year, spent[i]);
      var c' :| c' in cats && SpentRowFrom(c', txs, userId, month, year, spent[i]);
      SameIdSameCategory(cats, next, c, c');
    }
  }

  /** A budget's category id that names no category of the table gets no
      spending row: the chart shows 0 spent and the label 'N/A'. */
  lemma SpentLookupMissing(
    cats: seq<Category>, txs: seq<Transaction>, userId: int, month: int, year: int, id: int)
    requires forall c :: c in cats ==> c.id != id
    ensures SpentAmount(SpentPerCategory(cats, txs, userId, month, year), id) == 0.0
    ensures SpentLabel(SpentPerCategory(cats, txs, userId, month, year), id) == "N/A"
  {
    var spent := SpentPerCategory(cats, txs, userId, month, year);
    forall i | 0 <= i < |spent| ensures !ForCategory(id)(spent[i]) {
      assert spent[i] in spent;
      SpentPerCategoryMembers(cats, txs, userId, month, year, spent[i]);
    }
  }
}
