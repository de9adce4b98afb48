/** `pages/5_Insights.py`: the running net balance per day and the expense
    rows, both derived from the user's whole transaction history. */
module InsightsPage {
  import opened Wrappers
  import opened Seqs
  import opened Schema
  import opened Queries
  import opened Aggregate

  /** The amount a row adds to the balance: an expense subtracts, every other
      type (income and savings alike) adds. */
  function Signed(r: HistoryRow): real
  {
    if r.categoryType == ExpenseType then -r.amount else r.amount
  }

  /** (date, signed amount) for each row, in order. */
  function SignedPairs(rows: seq<HistoryRow>): (r: seq<Bucket>)
    ensures |r| == |rows|
  {
    if rows == [] then [] else [Bucket(rows[0].date, Signed(rows[0]))] + SignedPairs(rows[1..])
  }

  /** `groupby('Date')['Amount'].sum()`: one total per date, ascending. */
  function DailyTotals(rows: seq<HistoryRow>): seq<Bucket>
  {
    GroupSum(SignedPairs(rows))
  }

  /** One point of the balance chart. */
  datatype DailyBalance = DailyBalance(date: string, amount: real, balance: real)

  /** `cumsum()` over the daily totals, starting from `carried`. */
  function RunningBalances(daily: seq<Bucket>, carried: real): (r: seq<DailyBalance>)
    ensures |r| == |daily|
    ensures forall i :: 0 <= i < |daily| ==> r[i].date == daily[i].key && r[i].amount == daily[i].total
  {
    if daily == [] then []
    else
      var tail := RunningBalances(daily[1..], carried + daily[0].total);
      assert forall i :: 1 <= i < |daily| ==> daily[i] == daily[1..][i - 1];
      [DailyBalance(daily[0].key, daily[0].total, carried + daily[0].total)] + tail
  }

  function Balances(rows: seq<HistoryRow>): seq<DailyBalance>
  {
    RunningBalances(DailyTotals(rows), 0.0)
  }

  /** An expense row: `df['Type'] == 'expense'`. */
  function IsExpenseRow(r: HistoryRow): bool
  {
    r.categoryType == ExpenseType
  }

  /** `df[df['Type'] == 'expense']` on `df.sort_values('Date')`: exactly the
      expense rows of the history, now in ascending date order. */
  function ExpenseRows(rows: seq<HistoryRow>): (r: seq<HistoryRow>)
    ensures forall x :: x in r <==> x in rows && x.categoryType == ExpenseType
    ensures multiset(r) == multiset(Filter(rows, IsExpenseRow))
    ensures SortedBy(r, RowDate, false)
  {
    var sorted := SortBy(rows, RowDate, false);
    FilterSorted(sorted, IsExpenseRow, RowDate, false);
    FilterPermutation(sorted, rows, IsExpenseRow);
    assert forall x :: x in sorted <==> x in multiset(sorted);
    assert forall x :: x in rows <==> x in multiset(rows);
    Filter(sorted, IsExpenseRow)
  }

  /** What the page shows: a warning and nothing else for an empty history,
      otherwise the balance chart and the expense rows. */
  datatype InsightsView =
    | NoTransactions
    | Charts(balances: seq<DailyBalance>, expenses: seq<HistoryRow>)

  function Insights(cats: seq<Category>, txs: seq<Transaction>, userId: int): (v: InsightsView)
    ensures v.NoTransactions? <==> History(cats, txs, userId, None, None) == []
    ensures v.Charts? ==> v.balances != []
  {
    var rows := History(cats, txs, userId, None, None);
    if rows == [] then NoTransactions
    else
      GroupSumShape(SignedPairs(rows));
      assert SignedPairs(rows)[0] in SignedPairs(rows);
      assert SignedPairs(rows)[0].key in Keys(DailyTotals(rows));
      Charts(Balances(rows), ExpenseRows(rows))
  }

  /* ---------------- Properties ---------------- */

  /** The dates that occur among the rows. */
  function DatesOf(rows: seq<HistoryRow>): set<string>
  {
    set r | r in rows :: r.date
  }

  lemma {:induction false} SignedPairsKeys(rows: seq<HistoryRow>)
    ensures Keys(SignedPairs(rows)) == DatesOf(rows)
  {
    if rows != [] {
      SignedPairsKeys(rows[1..]);
      assert rows == [rows[0]] + rows[1..];
      assert DatesOf(rows) == {rows[0].date} + DatesOf(rows[1..]);
      assert Keys(SignedPairs(rows)) == {rows[0].date} + Keys(SignedPairs(rows[1..]));
    }
  }

  /** The signed amounts of the rows with date `k`, added up. */
  function SignedOn(rows: seq<HistoryRow>, k: string): real
  {
    if rows == [] then 0.0 else (if rows[0].date == k then Signed(rows[0]) else 0.0) + SignedOn(rows[1..], k)
  }

  lemma {:induction false} SignedPairsSumFor(rows: seq<HistoryRow>, k: string)
    ensures SumFor(SignedPairs(rows), k) == SignedOn(rows, k)
  {
    if rows != [] {
      SignedPairsSumFor(rows[1..], k);
      assert SignedPairs(rows)[1..] == SignedPairs(rows[1..]);
    }
  }

  /** Daily totals: one per date that occurs, in ascending date order, each
      the sum of the signed amounts of that date. */
  lemma DailyTotalsShape(rows: seq<HistoryRow>)
    ensures StrictlySorted(DailyTotals(rows))
    ensures Keys(DailyTotals(rows)) == DatesOf(rows)
    ensures forall i :: 0 <= i < |DailyTotals(rows)| ==>
      DailyTotals(rows)[i].total == SignedOn(rows, DailyTotals(rows)[i].key)
  {
    GroupSumShape(SignedPairs(rows));
    SignedPairsKeys(rows);
    forall i | 0 <= i < |DailyTotals(rows)|
      ensures DailyTotals(rows)[i].total == SignedOn(rows, DailyTotals(rows)[i].key)
    {
      GroupTotal(SignedPairs(rows), i);
      SignedPairsSumFor(rows, DailyTotals(rows)[i].key);
    }
  }

  /** The balance on day `i` is what was carried in plus the daily totals up
      to and including day `i`. */
  lemma {:induction false} BalancePrefix(daily: seq<Bucket>, carried: real, i: nat)
    requires i < |daily|
    ensures RunningBalances(daily, carried)[i].balance == carried + Sum(daily[..i + 1])
  {
    assert daily[..i + 1][1..] == daily[1..][..i];
    if i > 0 {
      BalancePrefix(daily[1..], carried + daily[0].total, i - 1);
    }
  }

  /** The last balance is the sum of all signed amounts. */
  lemma FinalBalance(rows: seq<HistoryRow>)
    requires Balances(rows) != []
    ensures Balances(rows)[|Balances(rows)| - 1].balance == Sum(SignedPairs(rows))
  {
    var daily := DailyTotals(rows);
    BalancePrefix(daily, 0.0, |daily| - 1);
    assert daily[..|daily|] == daily;
    GroupSumSum(SignedPairs(rows));
  }

  /** The amounts of the rows of type `ty`, added up. */
  function TypeTotal(rows: seq<HistoryRow>, ty: string): real
  {
    if rows == [] then 0.0 else (if rows[0].categoryType == ty then rows[0].amount else 0.0) + TypeTotal(rows[1..], ty)
  }

  /** With the three known types only, the signed sum is income plus savings
      minus expenses: savings RAISE this balance, while the dashboard's net
      balance subtracts them. */
  lemma {:induction false} SignedSumByType(rows: seq<HistoryRow>)
    requires forall r :: r in rows ==> IsKnownType(r.categoryType)
    ensures Sum(SignedPairs(rows)) == TypeTotal(rows, IncomeType) + TypeTotal(rows, SavingsType) - TypeTotal(rows, ExpenseType)
  {
    if rows != [] {
      assert rows[0] in rows;
      assert forall r :: r in rows[1..] ==> r in rows;
      SignedSumByType(rows[1..]);
      assert SignedPairs(rows)[1..] == SignedPairs(rows[1..]);
    }
  }
}
