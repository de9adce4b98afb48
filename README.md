# Personal finance tracker: ledger and budget store, in Dafny

This project models the core of a small personal finance application. A
SQLite store (`setup/db.py`) holds four tables: users, categories,
transactions and monthly budgets. Five Streamlit pages read and write it:
Dashboard, Transactions, Manage Categories, Budgets and Insights. The model
states and proves what each operation does to the tables and what each page
derives from the query results.

Layout:

- `wrappers.dfy`: `Option` and `Result`.
- `text.dfy`: SQLite's BINARY string order, `BETWEEN`, zero-padded digits,
  Python's `str(n)`, `f'{n:02}'` and `str.strip()`.
- `seqs.dfy`: order-preserving filters, first match, and `ORDER BY` as a
  stable sort.
- `dates.dfy`: `datetime.date`, the day after, `YYYY-MM-DD` text,
  `strftime('%m'/'%Y')`, and the date windows the pages query with.
- `schema.dfy`: the rows and the schema's constraints. Each writing
  statement is a function on its table, with lemmas saying what it changes
  and that it keeps the constraints.
- `db.dfy`: class `Db.Database`, with one `seq` field per table and one
  AUTOINCREMENT counter per table. Every writer of `setup/db.py` is a
  method on it.
- `aggregate.dfy`: `GROUP BY key` with `SUM(amount)`.
- `queries.dfy`: every reader of `setup/db.py`, as a function of the tables.
- `notices.dfy`: the messages a page shows.
- `transactions_page.dfy`, `categories_page.dfy`, `dashboard_page.dfy`,
  `budget_chart.dfy`, `budgets_page.dfy`, `insights_page.dfy`: the pages.
  The callbacks and loops are methods on the store. Derived values are
  functions. Widget values and button presses arrive as parameters.

### Semantics the model follows

- Every function in `setup/db.py` opens a connection and commits once, so
  each writer is one atomic step.
- `UNIQUE` violations make the statement fail and change nothing. The model
  returns an error value for them; `sqlite3.IntegrityError` in Python.
- `INSERT OR REPLACE` deletes the row with the same
  (user, category, month, year) and inserts a new row with a fresh id.
- `get_db_connection` never enables `PRAGMA foreign_keys`. So no
  `ON DELETE CASCADE` fires: `delete_category` removes only what its two
  statements name, and budgets of a deleted category stay in their table.
- Inner joins drop a transaction or budget whose category row does not
  exist. A NULL category id never joins.
- `BETWEEN` is inclusive at both ends and compares `YYYY-MM-DD` text in
  byte order. `Dates.FormatOrder` proves this matches date order.
- `set_default_categories` raises on a taken name before its commit, and
  closing the connection rolls back the earlier inserts. So it adds all six
  rows or nothing.
- `note` is a nullable column. A cleared Note cell in the edited history
  arrives as `None` and is stored as NULL, so the model's notes are
  `Option<string>`. The add form's note is text, empty when left blank.
- On the pages, an exception that nothing catches ends the script run. The
  model reports it as `Notices.Uncaught`.

## Model

| member | source | states |
|---|---|---|
| Db.Database.constructor | setup/db.py:79-84 | A new store has four empty tables and every id counter at 1; the schema constraints hold |
| Db.Database.CreateUser | setup/db.py:87-95 | A taken username fails with the UNIQUE error and changes nothing; otherwise exactly one user is appended with the next id, which is returned; the other tables are unchanged |
| Db.Database.SetDefaultCategories | setup/db.py:115-129 | Either all six default categories are appended with consecutive fresh ids, or (one default name already taken by the user) the call fails and nothing changes |
| Db.Database.AddCategory | setup/db.py:132-137 | A name the user already has fails with the UNIQUE error and changes nothing; otherwise exactly one category is appended with the next id |
| Db.Database.UpdateCategory | setup/db.py:139-144 | A name another category of the same user holds fails and changes nothing; otherwise only the row with that id takes the new name and type; the other tables are unchanged |
| Db.Database.DeleteCategory | setup/db.py:146-152 | The transactions of the category and the category row are removed; users and all budgets are unchanged |
| Db.Database.AddTransaction | setup/db.py:163-168 | Exactly one transaction with the given values and the next id is appended; nothing else changes |
| Db.Database.UpdateTransaction | setup/db.py:170-175 | Only the row with that id gets the new category, amount, date and note, a `None` note being stored as NULL; a NULL amount fails on NOT NULL when the row exists and is a no-op otherwise |
| Db.Database.DeleteTransaction | setup/db.py:177-182 | Only the row with that id is removed; the other tables are unchanged |
| Db.Database.SetBudget | setup/db.py:216-224 | The budgets become the old ones without the new row's key plus the new row with a fresh id; the other tables are unchanged |
| Schema.InsertUserOk | setup/db.py:17-20 | Appending a user with the next id and an unused name keeps ids increasing, positive, below the counter, and usernames unique |
| Schema.InsertCategoryOk | setup/db.py:29-37 | Appending a category with the next id and a name the user lacks keeps the id constraints and UNIQUE(user_id, category_name) |
| Schema.InsertTransactionOk | setup/db.py:45-56 | Appending a transaction with the next id keeps the id constraints |
| Schema.UpsertBudgetOk | setup/db.py:63-74 | An upsert with the next id keeps the id constraints and UNIQUE(user_id, category_id, month, year) |
| Schema.RenameCategoryOk | setup/db.py:139-144 | A rename without a name conflict keeps the category constraints |
| Schema.DeleteCategoryOk | setup/db.py:146-152 | The two deletes of `delete_category` keep the category and transaction constraints |
| Schema.UpdateTransactionOk | setup/db.py:170-175 | Updating a transaction keeps the transaction constraints |
| Schema.DeleteTransactionOk | setup/db.py:177-182 | Deleting a transaction keeps the transaction constraints |
| Schema.DefaultNamesDistinct | setup/db.py:119-123 | The six default names are pairwise different |
| Schema.DefaultInsertOk | setup/db.py:125-127 | Inserting the next default row under a free name keeps the category constraints, and that name was free before the loop began |
| Schema.DefaultPrefixTaken | setup/db.py:125-127 | A default name taken during the insert loop was already taken before the loop, since the six names differ |
| Schema.DeleteCategoryEffect | setup/db.py:146-152 | Afterwards no category has the id and no transaction has that category id; every other row is kept; an unknown id changes nothing |
| Schema.RenameCategoryEffect | setup/db.py:139-144 | Only the row with that id changes name and type; every row keeps its id and user; an unknown id changes nothing |
| Schema.UpdateTransactionEffect | setup/db.py:170-175 | Only the row with that id changes, and only in category, amount, date and note; it keeps its user; an unknown id changes nothing |
| Schema.DeleteTransactionEffect | setup/db.py:177-182 | Exactly the row with that id is removed; an unknown id changes nothing |
| Schema.UpsertBudgetEffect | setup/db.py:216-224 | After `set_budget` the new row is the only row with its key, its id exceeds every earlier id, and every row with another key is kept |
| Queries.Authenticate | setup/db.py:97-105 | A returned user is stored, has that name, and the password checks against its hash |
| Queries.SameNameSameUser | setup/db.py:19 | Two stored users with one username are the same user |
| Queries.AuthenticateExact | setup/db.py:97-105 | With unique usernames, login succeeds exactly when a stored user of that name has a hash the password checks against |
| Queries.UsernameById | setup/db.py:107-113 | A name is returned exactly when a user has that id, and it is that user's name |
| Queries.UserCategories | setup/db.py:154-160 | The result is sorted by name ascending and is a permutation of the user's category rows |
| Queries.UserCategoriesMembers | setup/db.py:154-160 | An entry is listed exactly when it is a category row of the user |
| Queries.DefaultEntries | setup/db.py:115-129 | For a user without categories, the user's rows after the default insert are the six defaults in insertion order |
| Queries.SortDefaultEntries | setup/db.py:157 | The six defaults sorted by name are Bills, Freelance, Groceries, Rent, Salary, Savings |
| Queries.DefaultCategoriesListed | setup/db.py:115-160 | After `set_default_categories` for a user with no categories, the listing is exactly the six rows in name order, with their types and insertion ids |
| Queries.CategoryById | setup/db.py:191 | The join finds a category with that id, or none exists |
| Queries.CategoryByIdExact | setup/db.py:191 | With unique ids, the join finds the one category with the id |
| Queries.History | setup/db.py:184-205 | The history is sorted by date descending and is a permutation of the selected joined rows |
| Queries.HistoryOnlyJoined | setup/db.py:188-198 | Every history row comes from a transaction of the user that joins a category and passes the date test |
| Queries.HistoryAllJoined | setup/db.py:188-198 | Every such transaction and category pair gives a history row |
| Queries.HistoryMembers | setup/db.py:184-205 | A row is in the history exactly when it joins a transaction of the user with its existing category, and with both bounds given the date lies between them inclusively; a missing or empty bound means no date test |
| Queries.TransactionById | setup/db.py:207-213 | The fields are returned exactly when a transaction has the id, and they are that transaction's |
| Queries.BudgetsForMonthMembers | setup/db.py:226-237 | A row is listed exactly when a budget of the user for that month and year joins an existing category, and carries the category's name |
| Queries.DeletedCategoryHidesBudgets | setup/db.py:226-237 | After a category is deleted, no month lists a budget of it, although the budget rows stay |
| Queries.SpentPerCategoryMembers | setup/db.py:239-253 | A row exists exactly for an expense category with at least one transaction of the user in that month and year, and its total is the sum of their amounts |
| Queries.SpendsStoredDate | setup/db.py:247-249 | For a stored date, the strftime test holds exactly for the date's own month and year, and never for a year below 1000 |
| Queries.SummaryShape | setup/db.py:256-268 | One row per category type, ascending; a type is present exactly when a joined transaction of the user of that type is dated within the bounds; each total is `SelectedTypeTotal`, the sum over the transactions table of the amounts of exactly those transactions |
| Queries.JoinTypeSelected | setup/db.py:259-262 | A transaction yields a (type, amount) pair of type `ty` exactly when it is the user's, dated within the bounds and joined to a category of type `ty`; the pair carries its amount |
| Queries.SummaryPairsSumFor | setup/db.py:258-263 | Summing the joined pairs of a type equals summing, over the transactions table, the amounts of the transactions selected for that type |
| Text.PadOrder | setup/db.py:197 | Fixed-width digit strings compare in byte order as the numbers they spell |
| Text.StripSlice | pages/3_Manage_Categories.py:46-49 | `strip()` is the slice between the first and last non-whitespace characters, with only whitespace cut off |
| Text.StripEmptyIffBlank | pages/3_Manage_Categories.py:46 | A stripped name is empty exactly when the input is all whitespace |
| Text.StripIdempotent | pages/3_Manage_Categories.py:49 | Stripping a stripped name changes nothing |
| Seqs.First | pages/2_Transactions.py:45-48 | No match exactly when no element satisfies the test; otherwise the element at the first index that does |
| Seqs.SortBy | setup/db.py:157 | `ORDER BY` yields a permutation of the rows, sorted by the key |
| Seqs.Filter | pages/4_Budgets.py:22 | Exactly the accepted elements remain |
| Aggregate.GroupSumShape | setup/db.py:264 | Grouping gives one group per key that occurs, in strictly ascending key order |
| Aggregate.GroupTotal | setup/db.py:260-264 | Each group's total is the sum of the amounts with its key |
| Aggregate.GroupSumFor | setup/db.py:260-264 | Per key, the groups sum to what the pairs sum to |
| Aggregate.GroupSumSum | pages/5_Insights.py:25 | Grouping loses no amount: the group totals add up to the sum of all pairs |
| Aggregate.SortedSumFor | pages/1_Dashboard.py:35-37 | With one group per key, summing the rows of a key gives that group's total |
| Dates.NextDay | pages/2_Transactions.py:84 | The day after is a valid date, later than the date, with no valid date strictly between; it does not exist only after 9999-12-31 |
| Dates.FormatOrder | setup/db.py:197 | Comparing two stored `YYYY-MM-DD` texts in byte order is comparing the dates |
| Dates.FormatInjective | pages/2_Transactions.py:24 | Two dates are stored as the same text only if they are the same date |
| Dates.FormatFields | setup/db.py:247 | A stored date is date text whose strftime month and year are its month and year, zero-padded |
| Dates.PeriodMatch | setup/db.py:247-249 | The strftime period test holds for a stored date exactly for its own month and year, and never for a year below 1000 |
| Dates.PageWindowAdmits | pages/2_Transactions.py:84 | As written, the page window admits a date exactly when it lies between the picked dates or is the day after the end date |
| Dates.PageWindowCounterexample | pages/1_Dashboard.py:28 | The March 2024 window also admits 2024-04-01 |
| Dates.InclusiveWindowExact | pages/2_Transactions.py:84 | The window of the start and end dates themselves admits a date exactly when it lies between them, both included |
| TransactionsPage.AddTransactionCallback | pages/2_Transactions.py:15-25 | A non-positive amount shows the error and inserts nothing; otherwise exactly one transaction is added, dated as `YYYY-MM-DD`, with the success message |
| TransactionsPage.CategoryIdFromName | pages/2_Transactions.py:43-48 | Returns the id of the first listed category with that name, in name order; none exactly when no listed category has the name |
| TransactionsPage.ApplyEditedRow | pages/2_Transactions.py:29-32 | One edited row fails exactly when it has no date, or has a NULL amount for an existing transaction; on success the transactions become that row's edit (an unlisted category name storing a NULL category), on failure they are unchanged, and the other tables never change |
| TransactionsPage.UpdateTransactionsCallback | pages/2_Transactions.py:27-35 | Every edited row is attempted in order; the final table and the failed row ids are those of the row-by-row fold; success is reported in all cases |
| TransactionsPage.FailedRowSkipped | pages/2_Transactions.py:28-34 | A row that raises is reported, and the later rows apply as if it were absent |
| TransactionsPage.CompleteRowApplies | pages/2_Transactions.py:30-32 | A row with a date and an amount always succeeds and changes only the row with its id |
| TransactionsPage.UnlistedCategoryHidesRow | pages/2_Transactions.py:30-32 | Saving a row whose category name is not listed stores a NULL category id, and the row then drops out of every history |
| TransactionsPage.DeleteTransactionCallback | pages/2_Transactions.py:37-40 | Exactly the selected transaction is removed |
| TransactionsPage.TransactionHistory | pages/2_Transactions.py:55-84 | The range error shows exactly when there are categories and the start is after the end; overflow only at 9999-12-31; shown rows are non-empty and sorted by date descending |
| TransactionsPage.HistoryViewMembers | pages/2_Transactions.py:81-86 | As written, a joined transaction of the user is listed exactly when its date lies between the picked dates or is the day after the end date |
| TransactionsPage.CorrectedHistoryMembers | pages/2_Transactions.py:84 | With the intended window, a joined transaction is listed exactly when its date lies between the picked dates, both included |
| CategoriesPage.CategoriesSession.constructor | pages/3_Manage_Categories.py:22-28 | A new session has all three submit flags down |
| CategoriesPage.CategoriesSession.ClickAdd | pages/3_Manage_Categories.py:13-14 | Raises the add flag only |
| CategoriesPage.CategoriesSession.ClickUpdate | pages/3_Manage_Categories.py:16-17 | Raises the update flag only |
| CategoriesPage.CategoriesSession.ClickDelete | pages/3_Manage_Categories.py:19-20 | Raises the delete flag only |
| CategoriesPage.CategoriesSession.HandleAdd | pages/3_Manage_Categories.py:44-50 | With the flag up: lowers it first; a blank name shows the error and adds nothing; a taken name raises uncaught; otherwise the stripped name is added with the success message; known types stay known |
| CategoriesPage.CategoriesSession.HandleUpdate | pages/3_Manage_Categories.py:79-87 | With the flag up: lowers it first, attempts every edited row in order, records the rows that fail on the unique name, reports success; with no categories the undefined table raises |
| CategoriesPage.CategoriesSession.HandleDelete | pages/3_Manage_Categories.py:104-111 | With the flag up: lowers it first; a name without a (truthy) id shows the error and deletes nothing; otherwise deletes that category and its transactions |
| CategoriesPage.RenameKeepsTypesKnown | pages/3_Manage_Categories.py:71 | Renaming with one of the three types keeps every type one of the three |
| CategoriesPage.DefaultTypesKnown | pages/3_Manage_Categories.py:40 | The default categories have known types |
| CategoriesPage.FailedRenameSkipped | pages/3_Manage_Categories.py:81-85 | A row that fails on the unique name is reported, and the later rows apply as if it were absent |
| CategoriesPage.ListingNamesDistinct | pages/3_Manage_Categories.py:94 | Within one user's listing, a name belongs to one id |
| CategoriesPage.NameToIdKeys | pages/3_Manage_Categories.py:94 | The name-to-id map has exactly the listed names as keys |
| CategoriesPage.NameToIdValue | pages/3_Manage_Categories.py:94 | Without repeated names, each listed name maps to its own id |
| CategoriesPage.DeleteSelectsListed | pages/3_Manage_Categories.py:104-108 | Selecting a listed category targets exactly its id |
| CategoriesPage.DeleteUnlistedNothing | pages/3_Manage_Categories.py:106-111 | A name that is not listed targets nothing |
| DashboardPage.SortedRowTotal | pages/1_Dashboard.py:35-37 | On the summary, the sum for a type is that type's row total, and 0 when the type is missing |
| DashboardPage.NetBalanceOfSummary | pages/1_Dashboard.py:35-38 | The net balance is income minus expenses minus savings, read from the summary rows with a missing type counting 0, and equals income minus expenses minus savings, each summed over the transactions table for the transactions the query selects for that type |
| DashboardPage.SelectedOfOwnType | setup/db.py:259-262 | A transaction of a stored category counts towards that category's type exactly when it is the user's and its date lies within the bounds |
| DashboardPage.DashboardCounts | pages/1_Dashboard.py:28 | As written, the totals count a joined transaction of the user exactly when its date lies from the start to the end date or is the day after the end date |
| DashboardPage.DashboardCountsNextMonth | pages/1_Dashboard.py:28 | For the dates 2024-03-01 to 2024-03-31, an expense dated 2024-04-01 counts towards the expense total, and the summary has an expense row |
| DashboardPage.CorrectedDashboardCounts | pages/1_Dashboard.py:28 | With the start and end dates as bounds, the totals count a joined transaction of the user exactly when its date lies from the start to the end date, both included |
| DashboardPage.PairsBudgetsAppend | pages/1_Dashboard.py:69-74 | Charting one more budget appends its Budget entry and its Spent entry |
| DashboardPage.BudgetProgress | pages/1_Dashboard.py:59-74 | Each budget of the end date's month, in dict order, yields a Budget entry then a Spent entry, labelled with the category name or 'N/A' with 0 spent when there is no spend row |
| DashboardPage.Dashboard | pages/1_Dashboard.py:25-38 | The range error shows exactly when the start is after the end; otherwise the summary runs from the start to the day after the end; no data exactly when the summary is empty; otherwise the totals, the net balance and the progress chart |
| BudgetChart.DictPutGet | pages/4_Budgets.py:43 | After `d[k] = v`, `k` gives `v` and every other key gives what it gave |
| BudgetChart.DictPutKeys | pages/4_Budgets.py:43 | `d[k] = v` keeps the key order and appends a new key |
| BudgetChart.BudgetDictGet | pages/1_Dashboard.py:63 | The comprehension has a key exactly for the categories among the rows, holding the amount of the last row of that category |
| BudgetChart.SpentLookup | pages/1_Dashboard.py:70-73 | For a stored category, the spend lookup finds its row exactly when it is an expense category with spending in the month, and gives its name and total |
| BudgetChart.SpentLookupMissing | pages/1_Dashboard.py:70-73 | A category id with no category row gets 0 spent and the label 'N/A' |
| BudgetChart.SameIdSameCategory | setup/db.py:31 | Two stored categories with one id are the same category |
| BudgetsPage.ExpenseEntries | pages/4_Budgets.py:22 | Exactly the listed categories of type expense are kept |
| BudgetsPage.BudgetForm | pages/4_Budgets.py:38-48 | Each expense category's input defaults to its stored budget for the month, or 0.0; the inputs dict maps each category id to its input's value |
| BudgetsPage.SaveBudgets | pages/4_Budgets.py:51-53 | One `set_budget` per input in dict order, zeros included; the budgets are the upserts folded in order, and no other table changes |
| BudgetsPage.BudgetVsSpent | pages/4_Budgets.py:61-69 | Each expense category, in order, yields a Budget entry (0 if unset) then a Spent entry (0 if no spend row), both labelled with its name |
| BudgetsPage.BudgetsPageRun | pages/4_Budgets.py:17-69 | No categories: a warning; no expense categories: an info only and no change; otherwise the defaults, the save when submitted, and the chart from the budgets read before the save and the spending read after it |
| BudgetsPage.DictPutDistinct | pages/4_Budgets.py:43 | Assigning into a dict keeps its keys distinct |
| BudgetsPage.DictGetIndex | pages/4_Budgets.py:52 | A key the dict gives a value to is one of its items with that value |
| BudgetsPage.InputsDictDistinct | pages/4_Budgets.py:38-48 | The inputs dict has distinct keys |
| BudgetsPage.InputsDictGet | pages/4_Budgets.py:43-48 | With distinct ids, the inputs dict gives each expense category its own input's value |
| BudgetsPage.SaveAllOk | pages/4_Budgets.py:52-53 | The save loop keeps the budget constraints and advances the counter once per input |
| BudgetsPage.SaveAllStores | pages/4_Budgets.py:52-53 | After the save every saved key has a row, and each row with that key holds the saved amount and an id the save allocated |
| BudgetsPage.UpsertStores | pages/4_Budgets.py:53 | One `set_budget` leaves exactly its key's row holding its amount, with an id no smaller than the ids allocated since the save began |
| BudgetsPage.UpsertKeepsStored | pages/4_Budgets.py:53 | One `set_budget` on another key keeps what an earlier one stored |
| BudgetsPage.SaveAllKeepsOthers | pages/4_Budgets.py:52-53 | Budgets of another user, month, year or category are kept |
| BudgetsPage.SaveStoresEntered | pages/4_Budgets.py:51-53 | After saving the form, each expense category has a budget for the month, and every row with its key holds the value of its input |
| InsightsPage.SignedPairs | pages/5_Insights.py:24 | One signed pair per history row |
| InsightsPage.RunningBalances | pages/5_Insights.py:26 | One balance per daily total, with the same date and amount |
| InsightsPage.ExpenseRows | pages/5_Insights.py:20-38 | The expense rows of the history, each as often as it occurs there and no other rows, in ascending date order from the `sort_values('Date')` before the filter |
| InsightsPage.Insights | pages/5_Insights.py:14-26 | A warning only, exactly when the history is empty; otherwise the balance series is non-empty |
| InsightsPage.SignedPairsKeys | pages/5_Insights.py:24-25 | The grouped keys are exactly the dates that occur |
| InsightsPage.SignedPairsSumFor | pages/5_Insights.py:24-25 | Summing a date's signed pairs is summing the signed amounts of that date's rows |
| InsightsPage.DailyTotalsShape | pages/5_Insights.py:25 | One daily total per date that occurs, ascending, each the sum of that date's signed amounts |
| InsightsPage.BalancePrefix | pages/5_Insights.py:26 | The balance on day i is the carried amount plus the daily totals up to and including day i |
| InsightsPage.FinalBalance | pages/5_Insights.py:26 | The last balance is the sum of all signed amounts |
| InsightsPage.SignedSumByType | pages/5_Insights.py:24 | With the three known types, the signed sum is income plus savings minus expenses |

## Left out

- Connections, cursors, `commit` and `close` are not modelled. Each call is one atomic step on in-memory tables.
- `initialize_database` and the `CREATE TABLE` statements appear only as the constraints in `Schema` and as `Db.Database.constructor`. An existing database file is not modelled.
- bcrypt is not modelled. `Db.Database.CreateUser` takes the hash as a parameter. `Queries.Authenticate` takes the check as a function parameter.
- `app.py` (login and registration UI), all Streamlit rendering, plotly charts and CSV downloads are left out: they are presentation. The Dashboard's spending pie is left out for the same reason.
- Amounts are exact `real`s. Float rounding and the `%.2f` and `₹{:,.2f}` formatting are left out.
- `Dates.NextDay` is the Gregorian calendar written out, rather than Python's `datetime` library. It overflows, as Python does, only after 9999-12-31.
- SQLite's leniency towards malformed date text is not modelled. `Dates.IsDateText` accepts only `YYYY-MM-DD` with a month 01-12 and a day 01-31.
- Row order without `ORDER BY` is taken as rowid order, and `GROUP BY` output as ascending key order. SQLite does not promise either. Ties under `ORDER BY` are kept in table order.
- `Queries.UserCategories`, `Queries.History`: the order among rows with equal sort keys is fixed by the model's stable sort. SQLite leaves it unspecified.
- The `datetime.date.today()` defaults and the Budgets page's month and year widgets are inputs to the page methods, not modelled widgets. So are the edited tables and the selected names.
- `InsightsPage.DailyTotals`: dates are grouped by their stored text, and `pd.to_datetime` parsing is not modelled. The `sort_values('Date')` does not change the groups, because `groupby` sorts its keys.
- `InsightsPage.ExpenseRows`: `sort_values('Date')` is modelled as a sort on the stored text, which is date order for `YYYY-MM-DD` dates (`Dates.FormatOrder`). Rows of one date keep their history order under the model's stable sort. Pandas' default sort leaves that order unspecified.
- Each category-page handler is modelled on its own. Running the add, update and delete sections in one script run is not composed into one method.
- An `editable_df` or `category_options` that is undefined because the user has no categories raises `NameError`. This is modelled as `Notices.Uncaught`, without the exception's text.
- The `StreamlitAPIException` that a stored negative budget would raise as an input default below `min_value=0.0` is not modelled.
- `BudgetsPage.SaveStoresEntered` assumes the expense categories have distinct ids. The primary key guarantees this, but the lemma does not derive it from the listing.
- Ownership checks on update and delete, amount or type validation in the store, and cascading deletes of budgets are left out because the code does none of them.
- The error text `st.error` shows for a failed row (`Failed to update ...: {e}`) is modelled only as the list of failed ids.

## Findings

| source | as written | input that shows it | evidently intended | confidence | as-written member | corrected member |
|---|---|---|---|---|---|---|
| pages/2_Transactions.py:84 | The history's upper bound is the day after the end date, passed to the inclusive `BETWEEN` | Start 2024-03-01, end 2024-03-31: a transaction dated 2024-04-01 is listed | List only dates from the start to the end date, both included | not executed | TransactionsPage.HistoryViewMembers | TransactionsPage.CorrectedHistoryMembers |
| pages/1_Dashboard.py:28 | The summary's upper bound is `str(end_date + 1 day)`, passed to the inclusive `BETWEEN` | Start 2024-03-01, end 2024-03-31: an expense dated 2024-04-01 counts in the March totals | Sum only dates from the start to the end date, both included | not executed | DashboardPage.DashboardCountsNextMonth | DashboardPage.CorrectedDashboardCounts |
