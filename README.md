# Personal finance dashboard: aggregation and transaction list

This project is a Dafny model of the number-crunching core of a small personal
finance web app. The app keeps a list of transactions, each with a signed
amount, a currency, an optional category, an optional note and a calendar day.
A positive amount is income and a negative amount is an expense.

The model covers two pages.

The dashboard (`src/pages/Dashboard.tsx`) computes four things:
- the income, expense and balance cards;
- the per-category expense pie;
- the 30-day income/expense trend, grouped by day label;
- validation of the user's initial balance.

The transaction list page (`src/pages/Transactions.tsx`) covers:
- validation of the add-transaction form;
- the signed amount it stores;
- the income/expense filter;
- the text of the CSV export.

Modules:
- `Wrappers`: `Option` and `Result`.
- `Ledger`: the `Transaction` record, plus the list helpers both pages use: filtering (`Keep`), the sign tests and the two sums.
- `OrderedRecord`: a JavaScript object used as a dictionary. Assignment either updates an existing key in place or appends a new key. `Object.entries` lists keys in insertion order.
  - It is given in two forms: as an entry list (`Upsert`), and as an insertion order plus a map (`Entries`).
  - The lemmas show the two forms agree.
- `Dashboard`: the cards, the category breakdown and the initial-balance settings.
- `DashboardTrend`: the 30-day window, the stable sort by date, and the grouping into day buckets.
- `Text`: `join` and `split` on one character.
- `TransactionsPage`: the form, the filter and the CSV export.

Conventions:
- Amounts are exact `real`s.
- Days are integers counted from 1970-01-01 (UTC).
- The clock (`Date.now()`) is the parameter `nowMs`.
- Each formatting library call is a function parameter:
  - the `MMM dd` label is `dayLabel`;
  - `yyyy-MM-dd` is `dateText`;
  - `Number.prototype.toString` is `amountText`;
  - `Number(...)` and `parseFloat` return `None` for NaN.
- The `forEach` loops in `categoryData` and `trendData` are methods. Each is proved equal to a specification function, and the properties are proved about that function.

## Model

| member | source | states |
|---|---|---|
| Ledger.Keep | src/pages/Dashboard.tsx:62-63 | `filter` keeps exactly the elements that pass the test |
| Ledger.KeepCounts | src/pages/Dashboard.tsx:66-67 | every copy of a passing transaction is kept and every copy of a failing one dropped |
| Ledger.KeepIsSubsequence | src/pages/Transactions.tsx:92-97 | filtering keeps the list order |
| Ledger.KeepAppend | src/pages/Dashboard.tsx:78-79 | filtering a concatenation filters each part |
| Ledger.KeepCommutes | src/pages/Dashboard.tsx:76-85 | two filters can be applied in either order |
| Ledger.KeepAll | src/pages/Transactions.tsx:93 | a filter every element passes changes nothing |
| Ledger.KeepAgreeing | src/pages/Transactions.tsx:94-95 | two tests that agree on every transaction give the same filter |
| Ledger.SumAmountsAppend | src/pages/Dashboard.tsx:64 | the income `reduce` is additive over concatenation |
| Ledger.SumAbsAppend | src/pages/Dashboard.tsx:68 | the expense `reduce` is additive over concatenation |
| Ledger.SumAmountsNonNegative | src/pages/Dashboard.tsx:62-64 | a sum of non-negative amounts is non-negative |
| Ledger.Abs | src/pages/Dashboard.tsx:68 | `Math.abs` is non-negative and equals the value or its negation |
| Ledger.SumAmounts | src/pages/Dashboard.tsx:64 | over income transactions the sum is non-negative, and positive exactly when there is at least one |
| Ledger.SumAbs | src/pages/Dashboard.tsx:68 | the magnitude sum is never negative, and zero exactly when every amount is zero |
| Dashboard.Income | src/pages/Dashboard.tsx:62-64 | total income is never negative |
| Dashboard.Expenses | src/pages/Dashboard.tsx:66-68 | total expenses are never negative |
| Dashboard.TotalsStep | src/pages/Dashboard.tsx:62-68 | one more transaction adds its amount to income or its magnitude to expenses, or neither when zero |
| Dashboard.TotalsAppend | src/pages/Dashboard.tsx:62-68 | totals of a concatenation are the sums of the totals |
| Dashboard.TotalsInsert | src/pages/Dashboard.tsx:62-68 | inserting a transaction anywhere adds its part to the totals |
| Dashboard.TotalsOrderIndependent | src/pages/Dashboard.tsx:61-74 | the cards depend only on the multiset of transactions, not on the load order |
| Dashboard.ComputeStats | src/pages/Dashboard.tsx:61-74 | income and expenses are the two non-negative totals and balance = initial + income − expenses |
| Dashboard.StatsOfEmpty | src/pages/Dashboard.tsx:71 | with no transactions the balance is the initial balance |
| Dashboard.BalanceStep | src/pages/Dashboard.tsx:71 | each transaction moves the balance by exactly its signed amount |
| Dashboard.CategoryOf | src/pages/Dashboard.tsx:81 | a missing or empty category becomes "Other"; any other category is kept; the name is never empty |
| Dashboard.Tally | src/pages/Dashboard.tsx:80-84 | the keys are distinct and appear in first-seen order |
| Dashboard.CategoryBreakdown | src/pages/Dashboard.tsx:76-85 | one slice per category of the expenses, in the order each category's first expense appears, none twice (values: `CategoryBreakdownValues`; total: `CategoryBreakdownSum`) |
| Dashboard.CategoryBreakdownKeys | src/pages/Dashboard.tsx:76-85 | a slice exists for a category iff some expense falls in it, and no category repeats |
| Dashboard.CategoryBreakdownValues | src/pages/Dashboard.tsx:82 | each slice is the total expense of its category |
| Dashboard.CategoryBreakdownSum | src/pages/Dashboard.tsx:76-85 | the slices add up to the expenses card |
| Dashboard.CategoryBreakdownIgnoresNonExpenses | src/pages/Dashboard.tsx:79 | income and zero-amount transactions do not change the pie |
| Dashboard.CategoryTotalIsFilteredSum | src/pages/Dashboard.tsx:78-83 | the running category total equals the magnitudes summed over that category's transactions |
| Dashboard.CategoryTotalStep | src/pages/Dashboard.tsx:82 | one more expense adds its magnitude to its own category's total only |
| Dashboard.AddExpense | src/pages/Dashboard.tsx:80-83 | the `forEach` body updates the record as an upsert of the expense's magnitude |
| Dashboard.CategoryData | src/pages/Dashboard.tsx:76-85 | the loop over expenses produces exactly the category breakdown |
| Dashboard.CheckInitialBalance | src/pages/Dashboard.tsx:50-54 | accepted iff the input parses to a non-negative number, which is the stored value |
| Dashboard.BalanceSettings.SaveInitialBalance | src/pages/Dashboard.tsx:49-59 | on rejection nothing changes; on success the balance, the stored value and the closed prompt are set |
| Dashboard.BalanceSettings.constructor | src/pages/Dashboard.tsx:16-17 | the first render starts from balance 0 with the prompt closed, beside the storage slot's current content |
| Dashboard.BalanceSettings.LoadInitialBalance | src/pages/Dashboard.tsx:39-47 | a saved value becomes the balance in use; with nothing saved the prompt opens and the balance is unchanged; the slot is not written |
| DashboardTrend.DaysAgoIsDayDifference | src/pages/Dashboard.tsx:90 | the floored day count is today's day number minus the transaction's day |
| DashboardTrend.DaysAgo | src/pages/Dashboard.tsx:90 | `Math.floor` of the age: the age in milliseconds lies between that many whole days and one day more |
| DashboardTrend.InWindowBoundary | src/pages/Dashboard.tsx:89-92 | a transaction is in the window iff it is at most 30 days old (future days included) |
| DashboardTrend.InsertByDateCounts | src/pages/Dashboard.tsx:93 | one insertion step of the sort adds exactly the inserted transaction |
| DashboardTrend.InsertByDateSorted | src/pages/Dashboard.tsx:93 | one insertion step keeps the list sorted by date |
| DashboardTrend.InsertByDateStable | src/pages/Dashboard.tsx:93 | one insertion step keeps same-day transactions in order |
| DashboardTrend.SortByDateCorrect | src/pages/Dashboard.tsx:93 | the sort is ascending by date, a permutation, and stable for equal dates |
| DashboardTrend.SortByDate | src/pages/Dashboard.tsx:93 | the sort's result is ascending by date and a permutation of its input (stability: `SortByDateCorrect`) |
| DashboardTrend.Window | src/pages/Dashboard.tsx:88-93 | the window is sorted by date and holds exactly the list's transactions that are in the window (multiplicities and same-day order: `WindowContents`) |
| DashboardTrend.WindowContents | src/pages/Dashboard.tsx:88-93 | the window is sorted, holds exactly the in-window transactions, and keeps each day's original order |
| DashboardTrend.GroupByLabel | src/pages/Dashboard.tsx:95-104 | one bucket per label, in first-seen order |
| DashboardTrend.GroupValues | src/pages/Dashboard.tsx:98-103 | each bucket holds the income and the expense magnitude of the transactions with its label |
| DashboardTrend.GroupTotals | src/pages/Dashboard.tsx:95-104 | the buckets add up to the income and expenses of the grouped transactions |
| DashboardTrend.LabelTotalsStep | src/pages/Dashboard.tsx:99-103 | a transaction credits its own label's bucket only |
| DashboardTrend.CreditMatchesCards | src/pages/Dashboard.tsx:98-103 | crediting a bucket adds exactly what the transaction adds to the income and expense cards; a zero amount adds nothing |
| DashboardTrend.TrendOfEmpty | src/pages/Dashboard.tsx:87-111 | no transactions give an empty chart |
| DashboardTrend.Trend | src/pages/Dashboard.tsx:87-111 | one point per day label of the window, in the order each label first appears, none twice (values: `GroupValues`; totals: `TrendTotals`) |
| DashboardTrend.TrendLabels | src/pages/Dashboard.tsx:95-110 | the chart has a point for a label iff some in-window transaction carries it, and no label repeats |
| DashboardTrend.TrendTotals | src/pages/Dashboard.tsx:87-111 | the chart sums to the income and expenses of the in-window transactions |
| DashboardTrend.TrendChronological | src/pages/Dashboard.tsx:93-110 | chart points appear in order of the earliest day carrying their label |
| DashboardTrend.OldTransactionOnlyInTotals | src/pages/Dashboard.tsx:91 | a transaction older than 30 days changes the cards but not the chart |
| DashboardTrend.ZeroAmountOpensBucket | src/pages/Dashboard.tsx:98-103 | a zero-amount transaction in the window opens an empty bucket for its day |
| DashboardTrend.SameLabelMerges | src/pages/Dashboard.tsx:97-98 | two different days with the same label (as `MMM dd` gives days a year apart) share one point |
| DashboardTrend.AddToBucket | src/pages/Dashboard.tsx:96-104 | the `forEach` body is an upsert of the transaction into its label's bucket |
| DashboardTrend.TrendData | src/pages/Dashboard.tsx:87-111 | the loop over the window produces exactly the trend |
| OrderedRecord.Upsert | src/pages/Dashboard.tsx:82 | assignment keeps existing keys in place and appends a new key with its value |
| OrderedRecord.UpsertKeys | src/pages/Dashboard.tsx:84 | the keys grow by the new key at the end, or stay the same |
| OrderedRecord.UpsertAt | src/pages/Dashboard.tsx:82 | with unique keys, an assignment changes only the entry under its key, or appends that key |
| OrderedRecord.UpsertFirstOccurrences | src/pages/Dashboard.tsx:84 | the keys stay the first occurrences of the assigned keys, in order |
| OrderedRecord.UpsertUnique | src/pages/Dashboard.tsx:84 | keys stay distinct |
| OrderedRecord.EntriesUpsert | src/pages/Dashboard.tsx:82-84 | updating the insertion order and the map is the same as upserting into the entry list |
| OrderedRecord.FirstOccurrencesInOrder | src/pages/Dashboard.tsx:106 | the entries list keys by first insertion |
| OrderedRecord.SumByUpsert | src/pages/Dashboard.tsx:82 | adding to one entry adds to the sum of all entries |
| Text.SplitJoin | src/pages/Transactions.tsx:109-110 | joined parts split back into the same parts when no part holds the separator |
| Text.JoinSplit | src/pages/Transactions.tsx:109-110 | joining the fields of any text gives the text back |
| Text.JoinOccurrences | src/pages/Transactions.tsx:109 | `join` adds one separator between each pair of parts |
| Text.Join | src/pages/Transactions.tsx:109-110 | `join` adds no character but the separator: any other character occurs as often as in the parts together |
| TransactionsPage.Filtered | src/pages/Transactions.tsx:92-97 | a transaction is listed iff it is in the list and passes the chosen filter |
| TransactionsPage.FilteredSpec | src/pages/Transactions.tsx:92-97 | the filter keeps order and multiplicity, and "all" shows the whole list |
| TransactionsPage.IncomeExpensePartition | src/pages/Transactions.tsx:94-95 | the income and expense views are disjoint and, with zero-amount rows, make up the list |
| TransactionsPage.Shows | src/pages/Transactions.tsx:92-97 | "all" lists every transaction; the income and expense filters are exactly the dashboard's income and expense tests |
| TransactionsPage.FilteredTotals | src/pages/Transactions.tsx:94-95 | the income and expense views sum to the dashboard's cards |
| TransactionsPage.Validate | src/pages/Transactions.tsx:12-20 | each field's message appears iff that field fails: amount NaN or zero, empty category, empty date |
| TransactionsPage.SignedAmount | src/pages/Transactions.tsx:74 | the stored amount keeps the typed magnitude, negative for an expense, positive for income |
| TransactionsPage.Submit | src/pages/Transactions.tsx:72-82 | a valid form stores a non-zero INR amount signed by its type, with its category, note and date; an invalid one reports the schema errors |
| TransactionsPage.SubmittedShowsUnderItsType | src/pages/Transactions.tsx:74-81 | a new transaction appears under its own type's filter, not under the other, and under its own category |
| TransactionsPage.HeaderCells | src/pages/Transactions.tsx:101 | the header line is the four column names joined by commas |
| TransactionsPage.Cells | src/pages/Transactions.tsx:102-107 | four cells; the category cell is empty exactly when the category is missing or empty, and likewise the note cell |
| TransactionsPage.CategoryCellAndSlice | src/pages/Transactions.tsx:104 | a missing or empty category is an empty cell in the export but the "Other" slice on the dashboard; any other category reads the same in both |
| TransactionsPage.Row | src/pages/Transactions.tsx:109 | every line break in a row comes from one of its cells |
| TransactionsPage.Csv | src/pages/Transactions.tsx:100-110 | whatever the cells hold, the first line of the export is the header |
| TransactionsPage.CsvOfEmpty | src/pages/Transactions.tsx:100-110 | an empty list exports the header alone |
| TransactionsPage.CsvLines | src/pages/Transactions.tsx:100-110 | read line by line, the export is the header and then one row per listed transaction, when no cell has a line break |
| TransactionsPage.CsvLineCount | src/pages/Transactions.tsx:100-110 | the export reads back as one line for the header, one per listed transaction, and one more per line break inside a cell |
| TransactionsPage.RowColumns | src/pages/Transactions.tsx:102-109 | cells are not quoted: a row has four columns plus one per comma inside a cell |

## Left out

- Loading transactions from the database (`listTransactions`, `createTransaction` in `src/services/transactions.ts`), the auth context, and the login and register pages. These are network and framework code.
  - The `id` and `user_id` columns are not modelled; nothing in the aggregation reads them.
- Reading and writing `localStorage` itself. The storage slot is the `stored` field of `BalanceSettings`: `SaveInitialBalance` writes it and `LoadInitialBalance` reads it. The slot holds the number rather than its text, so a slot holding text that `parseFloat` reads as NaN is not modelled; the page only ever writes accepted numbers there.
- Toasts, the modal, React state and memoisation, and chart rendering.
- The Blob download and the file name of the export.
- How a spreadsheet reads the export. The page writes cells without quoting or escaping, and so does the model:
  - a comma inside a category or note adds a column (`RowColumns`);
  - a line break inside a note, which the multi-line note field allows, adds a line (`CsvLineCount`).
- Floating-point arithmetic. Amounts are exact reals, so rounding in the sums is not modelled, nor are infinities from `Number`/`parseFloat`.
- What `Number` and `parseFloat` accept. Both are parameters that return a number or `None`.
- `date-fns` formatting and time zones:
  - the day label, the `yyyy-MM-dd` text and the parse of the form's date field are parameters;
  - days are UTC, so a local-time label that shifts a day is not modelled.
- `Object.entries` lists integer-like keys (such as a category named "42") before the other keys, in numeric order. The model keeps plain insertion order. Keys such as `__proto__` that collide with `Object.prototype` are not modelled either.
- The trend keeps two behaviours of the code that a reader might not expect:
  - a zero-amount transaction opens an empty bucket for its day (`ZeroAmountOpensBucket`);
  - transactions dated in the future are inside the window.
- The form's `type` field is always one of the two enum values, so an out-of-range type is not modelled.
