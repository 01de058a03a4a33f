# Income tracker core, modelled in Dafny

This project models the logic of a small React income and expense tracker.
At its centre is a transaction store, kept in a React context. It holds the
list of transactions and the `loading` and `error` flags. It changes only
when a remote call completes:
- the initial load replaces the list;
- an add appends one record;
- an update replaces the records with the returned `_id`;
- a delete filters records out.

Around the store, several display surfaces fold the list:
- the analytics page gives per-category income and expense, and
  profit-and-loss rows per month in calendar order;
- the dashboard gives the net total, a "this month" figure, CSV export and
  CSV import;
- two charts give one bar per category and one point per month name;
- the chat assistant gives total, highest, lowest, average and by-category
  figures, picked by a keyword classifier;
- an older income page gives local statistics.

Small state machines and validators sit beside these:
- the table's sort toggle and edit buffer;
- the chat log;
- the income and expense forms;
- the history page's category filter;
- the login state.

Modelling conventions:
- Amounts are `real`.
- A raw numeric value is an `Option<real>`, where `None` means NaN or
  missing. `Number(x) || 0` is `Common.Coerce`.
- Dates reach the model already parsed, as `Option<YearMonth>`.
- A remote call is a `Completion`: a network error, or a response with an
  `ok` flag and an optional parsed body. `Common.Settle` turns it into
  success or failure exactly as the promise chains do.
- Number parsing and formatting of user text, and locale date formatting,
  are function parameters. These are `toNumber`, `parseFloat`, `show`,
  `money` and `localeDate`.
- A JavaScript object used as a dictionary of running totals is
  `Grouping.Acc`. It is the key order (first insertion) plus a map. Keys are
  strings or year-month pairs, never integer-like.

Modules follow the source files:
- `TransactionContext`, `Analytics`, `Dashboard`, `TransactionTable`,
  `Chatbot`, `AddIncomeForm`, `AddExpenseForm`, `History`, `IncomeChart`,
  `MonthlyTrendChart`, `IncomePage` (for `src/pages/index.jsx`) and
  `AuthContext`, one per source file;
- `ChartData`, the fold the two charts share;
- `Common`, `Text` and `Grouping`, shared definitions.

Objects whose state the source updates are classes:
- `TransactionStore`, `TableState`, `Chat`, `IncomeForm`, `ExpenseForm`,
  `Page` and `Auth`;
- their methods state the whole new state.

The loops that fill dictionaries are methods whose loop invariants tie them
to the fold functions: `Analytics.CategoryData`, `Analytics.PnlTimeData`
and `Chatbot.IncomeByCategory`.

## Model

| member | source | states |
|---|---|---|
| Common.Settle | src/context/TransactionContext.jsx:14-17 | a call succeeds exactly when the response is ok and its body parses, with that body as the value |
| Common.Coerce | src/context/TransactionContext.jsx:21 | `Number(x) \|\| 0`: NaN or missing gives 0, a number stays itself |
| Common.OrElse | src/context/TransactionContext.jsx:45 | `a \|\| b` on strings: `a` when non-empty, otherwise `b` |
| Common.DraftDescription | src/context/TransactionContext.jsx:45 | `data.description \|\| ""`: a missing description is "" |
| Common.MonthLabel | src/pages/Dashboard.jsx:15-17 | the short month name of a parsed date, "Invalid Date" otherwise; its equality test is characterised by `MonthLabelSame` |
| Common.MonthLabelSame | src/pages/Dashboard.jsx:15-18 | two dates have the same short month label exactly when both parse and have the same month index, or neither parses |
| Common.TotalAmount | src/pages/Dashboard.jsx:14 | the left-to-right sum of every amount, whatever its type (also `getTotalIncome`, src/components/Chatbot.jsx:41); its properties are `TotalAmountAppend` and `TotalIsIncomePlusExpense` |
| Common.TotalAmountAppend | src/pages/Dashboard.jsx:14 | the sum of amounts over a concatenation is the sum of the two sums |
| Common.TotalIsIncomePlusExpense | src/pages/Dashboard.jsx:14 | when every transaction is income or expense, the sum of all amounts is the income sum plus the expense sum |
| Common.EntryTotal | src/pages/index.jsx:25 | the sum of the entries' amounts, a missing one counting 0; its property is `EntryTotalAppend` |
| Common.EntryTotalAppend | src/pages/index.jsx:25 | one more entry raises the coerced total by its coerced amount |
| Text.Split | src/pages/Dashboard.jsx:51 | `split` always yields at least one piece |
| Text.SplitCount | src/pages/Dashboard.jsx:51 | `split` yields one piece more than there are separators |
| Text.Join | src/pages/Dashboard.jsx:33-34 | `join(sep)`: the parts with the separator between neighbours (also the chat lists, src/components/Chatbot.jsx:54); its properties are `SplitJoin`, `JoinFree` and `JoinStartsWithFirst` |
| Text.SplitJoin | src/pages/Dashboard.jsx:33-34 | splitting a join of separator-free parts gives the parts back |
| Text.SplitJoinMorePieces | src/pages/Dashboard.jsx:33 | a part holding the separator makes the split yield more pieces than there were parts |
| Text.JoinFree | src/pages/Dashboard.jsx:33-34 | joining parts free of a character, with a different separator, gives text free of it |
| Text.JoinStartsWithFirst | src/pages/Dashboard.jsx:31-34 | a join begins with its first part |
| Text.Contains | src/components/Chatbot.jsx:57 | `includes`: the phrase occurs at some position of the text; its property is `ContainsPrefix` |
| Text.ContainsPrefix | src/components/Chatbot.jsx:57-61 | text containing a phrase contains each prefix of that phrase |
| Text.ToLower | src/components/Chatbot.jsx:34 | `toLowerCase` keeps the length and lowers each character |
| Text.IsBlank | src/components/Chatbot.jsx:22 | `trim() === ''`: every character is whitespace; the message log relies on it in `Chatbot.Chat.HandleSendMessage` |
| Text.StripCurrency | src/components/TransactionTable.jsx:43 | `replace(/[$₹]/g, "")` leaves no sign and never lengthens the text |
| Text.StripCurrencyAppend | src/components/TransactionTable.jsx:43 | stripping distributes over concatenation |
| Text.StripCurrencyNoSigns | src/components/TransactionTable.jsx:43 | text without signs is left as it is |
| Text.StripCurrencyIdempotent | src/components/TransactionTable.jsx:43 | stripping twice is stripping once |
| Text.LexLessIrreflexive | src/components/TransactionTable.jsx:23-24 | string `<` is irreflexive |
| Text.LexLessTransitive | src/components/TransactionTable.jsx:23-24 | string `<` is transitive |
| Text.LexLessTotal | src/components/TransactionTable.jsx:23-24 | two different strings are ordered one way or the other |
| Text.LexLessAsymmetric | src/components/TransactionTable.jsx:23-24 | string `<` is asymmetric |
| Grouping.FoldAppend | src/components/IncomeChart.jsx:12-16 | the `reduce` handles one more pair by adding it to the dictionary built so far |
| Grouping.Add | src/pages/Analytics.jsx:24 | `acc[k] = (acc[k] \|\| 0) + v`: a new key is listed last with `v`, a known key grows by `v`; the dictionary facts are in `FoldFacts` |
| Grouping.Fold | src/components/IncomeChart.jsx:12-16 | the dictionary built by adding the pairs left to right; characterised by `FoldAppend`, `FoldFacts`, `FoldSum` and `FoldFirstSeen` |
| Grouping.Entries | src/components/IncomeChart.jsx:18 | `Object.entries` lists each key in insertion order with its total |
| Grouping.FoldFacts | src/components/IncomeChart.jsx:12-16 | the dictionary holds exactly the keys that occur, each listed once, each with the sum of its values |
| Grouping.FoldTotalsNonNegative | src/pages/Analytics.jsx:23-26 | non-negative values give non-negative totals |
| Grouping.FoldSum | src/components/IncomeChart.jsx:12-18 | the entries' totals add up to the sum of all values |
| Grouping.FoldOrderGrows | src/components/IncomeChart.jsx:12-16 | keys are only appended: a prefix of the input lists a prefix of the keys |
| Grouping.FoldFirstSeen | src/components/IncomeChart.jsx:12-18 | keys are listed in order of first appearance in the input |
| Grouping.FoldOrderByKeys | src/pages/Analytics.jsx:47-50 | the key order depends only on the keys, not on the values |
| Grouping.SumOverCovering | src/pages/Analytics.jsx:31-36 | summing `map[k] \|\| 0` over distinct keys is independent of order and of keys that hold nothing |
| Grouping.Unique | src/pages/Analytics.jsx:31 | `[...new Set(s)]`: the distinct elements in first-occurrence order; characterised by `UniqueFacts` |
| Grouping.UniqueFacts | src/pages/Analytics.jsx:31 | `[...new Set(s)]` holds exactly the elements of `s`, each once |
| Grouping.UniquePrefix | src/pages/Analytics.jsx:31 | the distinct elements of `a + b` begin with those of `a` |
| Grouping.UniqueOfDistinct | src/pages/Analytics.jsx:31 | a duplicate-free list is its own set |
| TransactionContext.LoadList | src/context/TransactionContext.jsx:19-22 | the loaded list has the server list's length and order, each record with its amount coerced |
| TransactionContext.Normalize | src/context/TransactionContext.jsx:45 | a returned record keeps its id, date, parsed date, source, category and type from the server, gets a numeric amount, and its description is the server's, else the requested one |
| TransactionContext.ReplaceById | src/context/TransactionContext.jsx:62-64 | exactly the entries with the returned `_id` are replaced; length and every other entry are kept |
| TransactionContext.ReplaceByIdNoMatch | src/context/TransactionContext.jsx:62-64 | an update whose id matches nothing leaves the list as it is |
| TransactionContext.RemoveById | src/context/TransactionContext.jsx:79 | the filter drops every entry with the id and never lengthens the list |
| TransactionContext.RemoveByIdAppend | src/context/TransactionContext.jsx:79 | the filter works piecewise over a concatenation, keeping relative order |
| TransactionContext.RemoveByIdSingle | src/context/TransactionContext.jsx:79 | one entry is dropped exactly when it has the id |
| TransactionContext.RemoveByIdKeeps | src/context/TransactionContext.jsx:79 | every entry with another id survives |
| TransactionContext.RemoveByIdAbsent | src/context/TransactionContext.jsx:79 | deleting an absent id changes nothing |
| TransactionContext.RemoveByIdIdempotent | src/context/TransactionContext.jsx:79 | deleting twice is deleting once |
| TransactionContext.UpdateAfterDelete | src/context/TransactionContext.jsx:62-79 | an update that completes after a delete of the same id finds nothing to replace |
| TransactionContext.TransactionStore.constructor | src/context/TransactionContext.jsx:6-8 | the store starts empty, loading and without error |
| TransactionContext.TransactionStore.Load | src/context/TransactionContext.jsx:18-30 | success replaces the list by the coerced server list and clears the error; failure sets the fixed message and keeps the list; `loading` ends false either way |
| TransactionContext.TransactionStore.Add | src/context/TransactionContext.jsx:34-47 | success appends exactly the normalised record and keeps every prior entry; failure changes nothing; the flags never change |
| TransactionContext.TransactionStore.Update | src/context/TransactionContext.jsx:51-66 | success replaces by the returned record's `_id`, not by the argument; failure changes nothing |
| TransactionContext.TransactionStore.Delete | src/context/TransactionContext.jsx:70-81 | the entries with the id go only when the response is ok and its body parses; otherwise nothing changes |
| TransactionContext.Mount | src/context/TransactionContext.jsx:6-31 | after the mount-time fetch `loading` is false; success gives the coerced server list with no error; failure gives the empty list and the fixed message |
| Analytics.CategoryOf | src/pages/Analytics.jsx:22 | a missing or empty category counts as "Other" |
| Analytics.IncomePart | src/pages/Analytics.jsx:23-24 | what a transaction adds to the income column: its amount when it is an income above 0; see `PartsPositive` |
| Analytics.ExpensePart | src/pages/Analytics.jsx:25-26 | what a transaction adds to the expense column: the magnitude of its amount when it is an expense below 0; see `PartsPositive` |
| Analytics.PartsPositive | src/pages/Analytics.jsx:23-26 | only positive incomes feed the income column and only magnitudes of negative expenses feed the expense column; never both |
| Analytics.ContributionsFacts | src/pages/Analytics.jsx:19-29 | the pairs one column accumulates carry exactly the contributing categories, with per-category and overall sums matching the reference sums |
| Analytics.ContributionsPositive | src/pages/Analytics.jsx:23-26 | every value a column accumulates is positive |
| Analytics.ContributionsPrefix | src/pages/Analytics.jsx:19-29 | a prefix of the list contributes a prefix of the pairs |
| Analytics.RowsFor | src/pages/Analytics.jsx:32-36 | one row per listed category, in order |
| Analytics.CategoryRows | src/pages/Analytics.jsx:16-37 | `categoryData` as a value: the union of the two maps' keys projected to rows; `CategoryData` computes it and `CategoryRowsNames`, `CategoryRowsValues` and `CategoryRowsIncomeFirst` state what it holds |
| Analytics.CategoryData | src/pages/Analytics.jsx:16-37 | the `forEach` that fills the two maps, followed by the union and projection, yields the category rows |
| Analytics.CategoryRowsNames | src/pages/Analytics.jsx:31-36 | each category appears once, and exactly the categories that contribute to either column appear |
| Analytics.CategoryRowsValues | src/pages/Analytics.jsx:31-36 | each row's income and expense are that category's sums, with an absent side 0, and never negative |
| Analytics.ColumnValue | src/pages/Analytics.jsx:34-35 | `map[c] \|\| 0` is the category sum and never negative |
| Analytics.IncomeNamesFirst | src/pages/Analytics.jsx:31 | the rows begin with the income map's keys in their order |
| Analytics.CategoryRowsIncomeFirst | src/pages/Analytics.jsx:31-36 | income categories come first; the rows after them are expense-only with income 0 |
| Analytics.CategoryRowsFirstSeen | src/pages/Analytics.jsx:19-31 | a category listed before an income category had an income earlier in the list |
| Analytics.IncomeSeenBefore | src/pages/Analytics.jsx:19-24 | income categories follow the order of their first income |
| Analytics.CategoryColumnsSum | src/pages/Analytics.jsx:19-36 | the income column sums to the positive incomes, the expense column to the magnitudes of the negative expenses |
| Analytics.MonthContributionsFacts | src/pages/Analytics.jsx:42-57 | the month pairs carry exactly the months some transaction is dated in; undated ones are skipped; per-month sums match the reference sums |
| Analytics.MonthKeysAgree | src/pages/Analytics.jsx:47-50 | both columns see the same months in the same order |
| Analytics.MonthContributionsNonNegative | src/pages/Analytics.jsx:51-55 | month values are never negative |
| Analytics.OrdInjective | src/pages/Analytics.jsx:65 | the date the sort compares by is the same for two months exactly when they are the same month |
| Analytics.InsertFacts | src/pages/Analytics.jsx:65 | inserting one row of a new month into chronological rows keeps them chronological and adds exactly that row |
| Analytics.SortChrono | src/pages/Analytics.jsx:65 | the month sort, as insertion by calendar date; `SortChronoFacts` states it sorts and permutes |
| Analytics.SortChronoFacts | src/pages/Analytics.jsx:59-65 | the month sort yields a chronological permutation of rows of distinct months (years from 100 on; see Left out) |
| Analytics.SortChronoMembers | src/pages/Analytics.jsx:59-65 | sorting keeps exactly the rows it is given |
| Analytics.AddToMonth | src/pages/Analytics.jsx:48-55 | the callback creates a missing bucket `{0, 0}` and adds the transaction's parts to its month |
| Analytics.MirrorsDated | src/pages/Analytics.jsx:42-57 | the callback for a dated transaction keeps `monthMap` equal to the two month folds |
| Analytics.PnlTimeData | src/pages/Analytics.jsx:40-66 | the `forEach` over the transactions followed by projection and sort yields the month rows |
| Analytics.PnlRows | src/pages/Analytics.jsx:40-66 | `pnlTimeData` as a value: the sorted month rows; `PnlTimeData` computes it and `PnlRowsFacts` states what it holds |
| Analytics.MonthColumnValue | src/pages/Analytics.jsx:62-63 | a month's column value is its month sum and never negative |
| Analytics.UnsortedFacts | src/pages/Analytics.jsx:59-64 | before sorting: one row per dated month, distinct, each holding its month sums |
| Analytics.PnlRowsFacts | src/pages/Analytics.jsx:40-66 | one row per month some transaction is dated in, even one with two zero sides; ascending by year then month (years from 100 on; see Left out); each row holds its month sums |
| Analytics.ShowsEmptyState | src/pages/Analytics.jsx:69 | the empty-state test, written as: the list is empty or some transaction lacks a date, amount (0 counts as missing), category or type |
| Dashboard.ThisMonthIncome | src/pages/Dashboard.jsx:15-19 | `thisMonthIncome` as written: the amounts whose short month name matches the current one; `ThisMonthIgnoresYear` states what it sums |
| Dashboard.ThisMonthIgnoresYear | src/pages/Dashboard.jsx:15-19 | the "this month" figure is the sum over the current month index of every year |
| Dashboard.ThisMonthCountsOtherYears | src/pages/Dashboard.jsx:15-19 | an income from the same month of another year counts towards "this month" |
| Dashboard.CalendarMonthOnlyCurrent | src/pages/Dashboard.jsx:15-19 | the corrected figure is unchanged by a transaction outside the current calendar month |
| Dashboard.CalendarMonthCountsCurrent | src/pages/Dashboard.jsx:15-19 | the corrected figure counts a transaction of the current calendar month |
| Dashboard.ThisMonthAgreesWithinYear | src/pages/Dashboard.jsx:15-19 | when all dated transactions are of the current year, the two figures agree |
| Dashboard.ExportRows | src/pages/Dashboard.jsx:33 | one line per transaction, each the five fields in fixed order joined by "," |
| Dashboard.RowText | src/pages/Dashboard.jsx:33 | one transaction's five fields joined by ","; `ExportRowPieces` and `ExportRowCommaInField` state when it splits back |
| Dashboard.ExportCsv | src/pages/Dashboard.jsx:30-34 | the header line and the rows joined by newlines; `ExportStartsWithHeader`, `ExportLines` and `ImportExport` state its shape and round trip |
| Dashboard.ExportStartsWithHeader | src/pages/Dashboard.jsx:31-34 | the export begins with `Date,Source,Amount,Category,Description` |
| Dashboard.ExportLines | src/pages/Dashboard.jsx:31-34 | without newlines in fields, the export splits into exactly the header and one line per transaction: 1 + n lines, no trailing newline |
| Dashboard.ExportRowPieces | src/pages/Dashboard.jsx:33 | a row without commas in its fields splits back into its five fields |
| Dashboard.ExportRowCommaInField | src/pages/Dashboard.jsx:33 | no quoting: a comma inside a field yields more than five pieces |
| Dashboard.ParseRow | src/pages/Dashboard.jsx:53-56 | a row is kept exactly when its first four comma-separated fields are non-empty; extra fields are dropped; no type; the amount stays text |
| Dashboard.ParseAll | src/pages/Dashboard.jsx:52-57 | at most one draft per row, each from a row that parses |
| Dashboard.ParseAllAppend | src/pages/Dashboard.jsx:52-57 | parsing works row by row and keeps the input order |
| Dashboard.ParseAllSingle | src/pages/Dashboard.jsx:52-57 | one row yields its draft when complete, nothing otherwise |
| Dashboard.ImportRows | src/pages/Dashboard.jsx:50-57 | the drafts of the lines after the first; at most lines minus one |
| Dashboard.ImportIgnoresHeader | src/pages/Dashboard.jsx:51 | the first line is discarded whatever it holds |
| Dashboard.ImportHeaderOnly | src/pages/Dashboard.jsx:51 | a one-line text imports nothing |
| Dashboard.ParseExportRows | src/pages/Dashboard.jsx:33-57 | parsing exported well-formed rows gives their five fields back |
| Dashboard.ImportExport | src/pages/Dashboard.jsx:31-57 | round trip: importing the export of transactions whose fields hold no comma or newline, with date, source, amount and category non-empty, yields their five field strings in order |
| Dashboard.Confirmed | src/pages/Dashboard.jsx:58 | the records the store appends for the submitted drafts, in order, one per confirmed request |
| Dashboard.ConfirmedAppend | src/pages/Dashboard.jsx:58 | one more submitted draft adds its normalised record exactly when its request is confirmed, and nothing otherwise |
| Dashboard.ConfirmedAll | src/pages/Dashboard.jsx:58 | when every request is confirmed, every draft gets exactly one record |
| Dashboard.ImportTransactions | src/pages/Dashboard.jsx:45-62 | each complete row is submitted once, in order; the store gains exactly the confirmed records |
| TransactionTable.KeyLessOrder | src/components/TransactionTable.jsx:23-24 | `<` on one column's values is a strict order |
| TransactionTable.KeyLessTotal | src/components/TransactionTable.jsx:23-24 | two transactions with different values in a column are ordered one way or the other |
| TransactionTable.KeyOf | src/components/TransactionTable.jsx:23-24 | `a[sortColumn]`: the text of a column, or the number in the amount column; `KeyLessOrder` and `KeyLessTotal` state its order |
| TransactionTable.Compare | src/components/TransactionTable.jsx:20-25 | the comparator gives 0 with no column; otherwise 1 exactly when `a` goes after `b` in the chosen direction, and -1 else (ties included) |
| TransactionTable.UnsortedKeepsOrder | src/components/TransactionTable.jsx:20-21 | with no sort column the copy is the list in the same order |
| TransactionTable.InsertPermutes | src/components/TransactionTable.jsx:20 | one insertion step adds exactly one transaction |
| TransactionTable.SortedTransactions | src/components/TransactionTable.jsx:20-25 | the sorted copy; `UnsortedKeepsOrder`, `SortedPermutes` and `SortedStrictly` state what it holds |
| TransactionTable.SortedPermutes | src/components/TransactionTable.jsx:20-25 | the sorted copy is a permutation of the list |
| TransactionTable.InsertSorted | src/components/TransactionTable.jsx:20-25 | inserting into a strictly sorted list with distinct values keeps it strictly sorted |
| TransactionTable.SortedStrictly | src/components/TransactionTable.jsx:20-25 | with distinct values in the column, ascending is strictly increasing and descending strictly decreasing |
| TransactionTable.SortStep | src/components/TransactionTable.jsx:11-18 | the same column flips the direction and keeps the column; another column is selected ascending |
| TransactionTable.SortStepTwice | src/components/TransactionTable.jsx:12-13 | two clicks on the sorted column restore the direction |
| TransactionTable.SortStepNewTwice | src/components/TransactionTable.jsx:12-17 | two clicks on a new column sort it descending |
| TransactionTable.FindById | src/components/TransactionTable.jsx:32 | `find`: nothing exactly when no transaction has the id, else the first with it |
| TransactionTable.TableState.constructor | src/components/TransactionTable.jsx:6-9 | no sort column, ascending, no edit, an empty buffer |
| TransactionTable.TableState.HandleSort | src/components/TransactionTable.jsx:11-18 | the sort state takes one `SortStep`; the edit state is untouched |
| TransactionTable.TableState.HandleEdit | src/components/TransactionTable.jsx:31-37 | an absent id changes nothing; otherwise the edit id is set and the buffer holds the first matching record with its amount as text |
| TransactionTable.TableState.HandleSaveEdit | src/components/TransactionTable.jsx:39-49 | with no edit nothing happens; otherwise the buffer with currency signs stripped from the amount is sent as an update of the edited id, and the edit ends with the buffer cleared (no `type`) |
| TransactionTable.TableState.HandleCancelEdit | src/components/TransactionTable.jsx:51-54 | always ends the edit and clears the buffer; sorting is untouched |
| TransactionTable.SaveDraft | src/components/TransactionTable.jsx:41-44 | the sent record keeps the buffer's fields; its amount is the number read from the amount text without currency signs |
| TransactionTable.SaveIgnoresCurrencySigns | src/components/TransactionTable.jsx:43 | a sign anywhere in the amount text does not change what is sent |
| Chatbot.Highest | src/components/Chatbot.jsx:42 | the highest amount is at least every amount and is one of them |
| Chatbot.Lowest | src/components/Chatbot.jsx:43 | the lowest amount is at most every amount and is one of them |
| Chatbot.TotalAtLeast | src/components/Chatbot.jsx:41 | a lower bound on every amount bounds the total by its multiple |
| Chatbot.TotalAtMost | src/components/Chatbot.jsx:41 | an upper bound on every amount bounds the total by its multiple |
| Chatbot.Average | src/components/Chatbot.jsx:44 | the total divided by the count; `AverageTimesCount` and `AverageBetween` state what it is |
| Chatbot.AverageTimesCount | src/components/Chatbot.jsx:44 | the average times the count is the total |
| Chatbot.AverageAtLeast | src/components/Chatbot.jsx:44 | a lower bound on every amount bounds the average |
| Chatbot.AverageAtMost | src/components/Chatbot.jsx:44 | an upper bound on every amount bounds the average |
| Chatbot.AverageBetween | src/components/Chatbot.jsx:42-44 | the average lies between the lowest and the highest amount |
| Chatbot.IncomeByCategory | src/components/Chatbot.jsx:45-54 | the `forEach` that fills `categoryMap` yields the per-category totals of the positive amounts |
| Chatbot.CategoryTotals | src/components/Chatbot.jsx:45-54 | `getIncomeByCategory` as a value: the entries of the positive-amount fold; `CategoryTotalsKeys` and `CategoryTotalsValues` state what it lists |
| Chatbot.CategoryTotalsKeys | src/components/Chatbot.jsx:47-54 | a category is listed exactly when some positive amount carries it (missing category as "Other"), each once |
| Chatbot.CategoryTotalsValues | src/components/Chatbot.jsx:47-54 | each listed total is the positive sum of its category; all totals add up to the sum of positive amounts |
| Chatbot.BotReply | src/components/Chatbot.jsx:33-78 | loading, then error, then an empty list take precedence; each figure reply carries the matching statistic; which phrase selects which reply is `BotReplyOrder` |
| Chatbot.GreetingFirst | src/components/Chatbot.jsx:57 | any ready query whose lower case holds "hello" or "hi" gets the greeting |
| Chatbot.HelpExactlyWhenUnmatched | src/components/Chatbot.jsx:57-77 | the help text is the reply exactly when the data is ready and no keyword matches |
| Chatbot.HighestContainsHi | src/components/Chatbot.jsx:57-61 | any text holding "highest income" holds "hi" |
| Chatbot.HighestUnreachable | src/components/Chatbot.jsx:57-62 | as written, no query is ever answered with the highest amount |
| Chatbot.HighestQuestionGreeted | src/components/Chatbot.jsx:57-61 | the question "highest income" gets the greeting |
| Chatbot.IntendedReply | src/components/Chatbot.jsx:33-78 | the classifier with the analysis phrases tried before the greeting: the same precedence of state replies and the same statistic in each figure reply; its order is `IntendedReplyOrder` |
| Chatbot.IntendedAnswersHighest | src/components/Chatbot.jsx:61-62 | with the intended order, a ready query holding "highest income" and no earlier phrase gets the highest amount |
| Chatbot.LowerHighestQuestion | src/components/Chatbot.jsx:34 | the question "highest income" is already in lower case |
| Chatbot.HighestQuestionNoTotal | src/components/Chatbot.jsx:59 | the question "highest income" does not hold "total income" |
| Chatbot.IntendedHighestQuestion | src/components/Chatbot.jsx:61-62 | with the intended order, the question "highest income", in any letter case, gets the highest amount |
| Chatbot.FirstTopic | src/components/Chatbot.jsx:57-77 | the first topic of an order whose phrase the query holds: a found topic is mentioned and belongs to the order |
| Chatbot.FirstTopicSkips | src/components/Chatbot.jsx:57-77 | when the query mentions none of the first k topics, the result is the k-th if mentioned, and nothing once all are passed |
| Chatbot.BotReplyOrder | src/components/Chatbot.jsx:57-77 | once ready, the reply answers the first mentioned topic in the order hello/hi, total, highest, lowest, average, by category, all transactions, thank you/thanks, and is the help text when none is mentioned |
| Chatbot.BotReplyOrderLate | src/components/Chatbot.jsx:65-77 | `BotReplyOrder` for a query that mentions none of the first four topics |
| Chatbot.IntendedReplyOrder | src/components/Chatbot.jsx:57-77 | once ready, the corrected reply answers the first mentioned topic in the order total, highest, lowest, average, by category, all transactions, hello/hi, thank you/thanks, and is the help text when none is mentioned |
| Chatbot.IntendedReplyOrderMiddle | src/components/Chatbot.jsx:63-77 | `IntendedReplyOrder` for a query that mentions none of the first three topics |
| Chatbot.IntendedReplyOrderLate | src/components/Chatbot.jsx:57-77 | `IntendedReplyOrder` for a query that mentions none of the first six topics |
| Chatbot.ReplyText | src/components/Chatbot.jsx:57-77 | the text of each reply, with the category and transaction lists joined by ", " and "; " |
| Chatbot.Chat.constructor | src/components/Chatbot.jsx:6-8 | closed, no messages, empty input |
| Chatbot.Chat.Toggle | src/components/Chatbot.jsx:128 | the open flag flips; messages and input stay |
| Chatbot.Chat.Close | src/components/Chatbot.jsx:95 | the header's close button: the window is closed; messages and input stay |
| Chatbot.Chat.SetInput | src/components/Chatbot.jsx:115 | the input takes the typed text; the rest stays |
| Chatbot.Chat.HandleSendMessage | src/components/Chatbot.jsx:21-31 | a blank input changes nothing; otherwise the user message and then the bot's reply are appended and the input cleared; the log stays a run of exchanges |
| AddIncomeForm.WithField | src/components/AddIncomeForm.jsx:19 | the named field takes the value; the others keep theirs |
| AddIncomeForm.Check | src/components/AddIncomeForm.jsx:25-33 | an empty date, source or amount is rejected first with "All fields are required."; then a non-numeric or non-positive amount with "Amount must be a positive number."; otherwise accepted with a positive numeric amount and no type |
| AddIncomeForm.OptionalFields | src/components/AddIncomeForm.jsx:25-32 | neither description nor category affects acceptance |
| AddIncomeForm.IncomeForm.constructor | src/components/AddIncomeForm.jsx:6-13 | empty fields, category "Freelancing", no error |
| AddIncomeForm.IncomeForm.HandleChange | src/components/AddIncomeForm.jsx:17-21 | only the named field changes and the error is cleared |
| AddIncomeForm.IncomeForm.HandleSubmit | src/components/AddIncomeForm.jsx:23-35 | a rejection sets its message and submits nothing; an acceptance hands the record over once and closes; the fields never change |
| AddExpenseForm.OptionValue | src/components/AddExpenseForm.jsx:84-91 | the value set by the option showing a label, or none when no option shows it |
| AddExpenseForm.BillsStoresLoan | src/components/AddExpenseForm.jsx:86 | choosing "Bills" stores the category "Loan" |
| AddExpenseForm.NegativeMagnitude | src/components/AddExpenseForm.jsx:25 | `-Math.abs(x)` is never positive and has the magnitude of `x` |
| AddExpenseForm.NewExpense | src/components/AddExpenseForm.jsx:16-29 | nothing when any of the five fields is empty; otherwise an expense stamped `now` with the other fields unchanged and a non-positive amount of the parsed magnitude |
| AddExpenseForm.SignNormalised | src/components/AddExpenseForm.jsx:25 | an amount entered positive or negative stores the same non-positive amount |
| AddExpenseForm.ExpenseForm.constructor | src/components/AddExpenseForm.jsx:8-12 | five empty fields |
| AddExpenseForm.ExpenseForm.SetDate | src/components/AddExpenseForm.jsx:8 | only the date changes |
| AddExpenseForm.ExpenseForm.SetSource | src/components/AddExpenseForm.jsx:9 | only the source changes |
| AddExpenseForm.ExpenseForm.SetAmount | src/components/AddExpenseForm.jsx:10 | only the amount text changes |
| AddExpenseForm.ExpenseForm.SelectCategory | src/components/AddExpenseForm.jsx:84-91 | the category takes the value of the chosen option |
| AddExpenseForm.ExpenseForm.SetDescription | src/components/AddExpenseForm.jsx:12 | only the description changes |
| AddExpenseForm.ExpenseForm.HandleSubmit | src/components/AddExpenseForm.jsx:14-33 | an empty field raises the alert and adds nothing; otherwise the expense is added once and the form closes |
| History.FilterByCategory | src/pages/History.jsx:10 | every kept transaction has the category, and nothing is added |
| History.Filtered | src/pages/History.jsx:9-11 | no filter gives the list unchanged; a filter keeps exactly the transactions of that category |
| History.FilterCounts | src/pages/History.jsx:10 | each transaction of the category is kept as often as it occurs, and no other |
| History.FilterSubsequence | src/pages/History.jsx:10 | the result is a subsequence of the list, in order |
| History.FilterIgnored | src/pages/History.jsx:31 | as written the table shows every transaction, whatever the filter |
| History.DisplayedAsWritten | src/pages/History.jsx:31 | what the page shows as written: the store's list, whatever the filter; `FilterIgnored` states it |
| History.FilterIgnoredExample | src/pages/History.jsx:9-31 | a "Trading" transaction is still shown under the "Salary" filter |
| History.DisplayedFollowsFilter | src/pages/History.jsx:9-31 | the corrected display shows each transaction of the chosen category as often as it occurs, and no other |
| ChartData.KeyedAmounts | src/components/IncomeChart.jsx:12-16 | one (key, coerced amount) pair per entry, in entry order |
| ChartData.KeyedTotals | src/components/IncomeChart.jsx:14 | per-key and overall sums of the pairs are the reference sums over the entries |
| ChartData.ChartKeys | src/components/IncomeChart.jsx:12-18 | one point per distinct key, exactly the keys some entry carries |
| ChartData.ChartTotals | src/components/IncomeChart.jsx:12-18 | each point's total is the coerced sum under its key; the totals add up to the coerced sum of all; no entries, no points |
| ChartData.ChartFirstSeen | src/components/IncomeChart.jsx:12-18 | points follow the first appearance of their keys |
| IncomeChart.ChartBars | src/components/IncomeChart.jsx:18 | one `{name, total}` bar per dictionary entry |
| IncomeChart.BarSumOfPoints | src/components/IncomeChart.jsx:18 | the bars' totals add up to the pairs' values |
| IncomeChart.ChartBarsFacts | src/components/IncomeChart.jsx:12-18 | one bar per distinct category value (no "Other" default); each total the coerced sum of that category; the bars add up to the coerced total, negative amounts included; no entries, no bars |
| MonthlyTrendChart.TrendPoints | src/components/MonthlyTrendchart.jsx:13 | one `{month, total}` point per dictionary entry |
| MonthlyTrendChart.PointSumOfPairs | src/components/MonthlyTrendchart.jsx:13 | the points' totals add up to the pairs' values |
| MonthlyTrendChart.TrendPointsFacts | src/components/MonthlyTrendchart.jsx:6-13 | one point per distinct month label; each total the coerced sum under it; the points add up to the coerced total; no entries, no points |
| MonthlyTrendChart.TrendPointsFirstSeen | src/components/MonthlyTrendchart.jsx:6-13 | points come in order of first appearance of their month |
| MonthlyTrendChart.YearsMerged | src/components/MonthlyTrendchart.jsx:7 | January 2024 and January 2025 make one point |
| MonthlyTrendChart.EntryOrderNotCalendar | src/components/MonthlyTrendchart.jsx:6-13 | February entered before January is listed first |
| IncomePage.PageStats | src/pages/index.jsx:25-28 | total is the coerced sum; "this month" equals the total; top source is the first entry's or ""; the average times the count is the total, 0 for no entries |
| IncomePage.AddedEntryStats | src/pages/index.jsx:20-28 | adding an entry raises the total by its coerced amount |
| IncomePage.Page.constructor | src/pages/index.jsx:9-18 | the saved list, if any, becomes the entries, and the storage item mirrors them |
| IncomePage.Page.AddIncome | src/pages/index.jsx:16-23 | exactly one entry is appended, with its id replaced by `now`; earlier entries unchanged; storage mirrors the list |
| AuthContext.Auth.constructor | src/context/AuthContext.jsx:6-13 | the initial user is the saved one if any, and storage mirrors it |
| AuthContext.Auth.Login | src/context/AuthContext.jsx:11-24 | succeeds exactly for the configured name and password, setting the user; a failure leaves the user unchanged; storage mirrors the user |
| AuthContext.Auth.Logout | src/context/AuthContext.jsx:11-28 | no user afterwards, from any state; storage mirrors it |

## Left out

- Concurrency: each remote completion is one atomic step. Overlapping mutations that complete out of order, and the `await` inside `handleSendMessage`, are not modelled.
- Network plumbing (URLs, headers, `console.error`) is not modelled. A call is given as its `Completion`.
- Floating point is not modelled. Amounts are exact reals, so `toFixed`, NaN arithmetic and -0 have no counterpart. `Number`, `parseFloat`, `String(number)` and `toFixed(2)` on text are function parameters.
- Date parsing, time zones and locale month names are not modelled. A date arrives already parsed as `Option<YearMonth>`, next to its text. The current month is a parameter.
- Lower-casing covers ASCII letters only. Other letters keep their case.
- Analytics.SortChrono: orders months by the year as written, through `Ord`. `new Date(year, monthIndex)` at src/pages/Analytics.jsx:65 reads a two-digit year 0-99 as 1900-1999. So a month labelled with year 50 sorts beside 1950 in the source, and not before year 100 as in the model. `OrdInjective`, `SortChronoFacts` and `PnlRowsFacts` match the source's order only for years from 100 on. With the mapping, `Ord` would not be injective, and two rows could compare equal.
- String order is code-point order on `char`. The UTF-16 code-unit order of JavaScript differs only outside the basic plane.
- TransactionTable.SortedTransactions: the order of rows with equal values is left to the engine in the source, because the comparator returns -1 for a tie. The model uses one insertion sort. The permutation property holds for any order, but strict sortedness is stated only for distinct values.
- Analytics.CategoryData: `parseFloat(String(t.amount || "0").replace("₹", ""))` is taken as the stored amount itself. Store amounts are already numbers, and text amounts sent by CSV import reach the list only through the server's reply.
- IncomePage.PageStats: `sum + (e.amount || 0)` would concatenate text when an amount is a string. The model treats amounts as numbers, with a missing one counting 0.
- IncomeChart.ChartBars: an entry without a category is grouped under the empty string. JavaScript would group it under the text "undefined".
- A missing text field (description, category, date text) is the empty string in the model. In the source an absent field is `undefined`: the chat list prints the word "undefined" for it (src/components/Chatbot.jsx:71), and the table's comparator finds both `<` and `>` false against `undefined`, so it returns -1 for such a pair in either direction (src/components/TransactionTable.jsx:23-24).
- Category names that are also names on `Object.prototype` are not modelled. In the source, `constructor` reads an inherited function, so `(map[c] || 0) + amount` concatenates text, and `__proto__` never becomes an own key (src/pages/Analytics.jsx:23-25, src/components/IncomeChart.jsx:13-14, src/components/Chatbot.jsx:51). The model treats every name as an ordinary key of an empty dictionary.
- JavaScript object key order for integer-like keys is not modelled. All dictionary keys here are category names or month labels.
- The dashboard's mock stats cards (src/pages/Dashboard.jsx:21-27) are constant display data and are not modelled.
- Browser I/O is not modelled: the CSV download, `FileReader`, `alert` and the toast. `localStorage` appears only as the mirrored value a class keeps.
- The `onChange` wiring of the table's edit inputs (src/components/TransactionTable.jsx:121-163) is not modelled. It only sets buffer fields.
- The `_id` and other extra fields copied into the edit buffer and the update body are not modelled. The buffer holds the six edited fields.
- Theme, routing, rendering, the login page and the remaining components are not modelled.
- Chatbot.Chat.HandleSendMessage uses the classifier as written, with the greeting first. The corrected `IntendedReply` is proved on its own and is not wired into the log.

## Findings

| source | as written | input that shows it | evidently intended | confidence | as-written member | corrected member |
|---|---|---|---|---|---|---|
| src/pages/Dashboard.jsx:15-19 | "this month" compares only the short month name, so every year's same month is summed | an income dated October 2025 while the current month is October 2026 counts towards "this month" | sum only the transactions of the current calendar month (month and year) | not executed | Dashboard.ThisMonthCountsOtherYears | Dashboard.CalendarMonthOnlyCurrent |
| src/components/Chatbot.jsx:57,61 | the greeting test `includes('hi')` comes before the "highest income" test, and "highest" contains "hi" | the query "highest income" gets the greeting | answer with the highest amount | not executed | Chatbot.HighestUnreachable | Chatbot.IntendedHighestQuestion |
| src/pages/History.jsx:9-11,31 | the filtered list is passed as a prop the table ignores, because the table reads the store directly (src/components/TransactionTable.jsx:4-5) | a "Trading" transaction is shown while the filter is "Salary" | display only the transactions of the chosen category | not executed | History.FilterIgnoredExample | History.DisplayedFollowsFilter |
