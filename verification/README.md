# Personal Expense Tracker: the expense ledger, in Dafny

The tracker is a single-page Streamlit app (`app.py`). It keeps a table of
expenses. Each row has a date, a category, an amount and a description. The
app loads the table from a CSV file and merges the legacy labels `Travel` and
`Transport` into `Travel & Transport`. It adds rows from a sidebar form and
deletes rows by their position, rewriting the whole file after each change.
The summary page shows a filtered view (chosen categories, inclusive date
range) with four figures: the total spent, the top category, the monthly sums
and the category sums.

This project models that ledger logic. The pure parts are functions with
lemmas. The table, which the script rebinds step by step, is a class.

- `text.dfy` (module `Text`): Python's string order (code point by code
  point, a prefix before its extensions), which pandas uses to sort group
  keys. Also zero-padded decimal digits, and the proof that they sort like
  the numbers they stand for.
- `expenses.dfy` (module `Expenses`): dates, the expense row, the seven form
  categories, the legacy-label rewrite, and the `"YYYY-MM"` month label with
  its calendar order.
- `ledger.dfy` (module `Ledger`): class `ExpenseLedger`. It holds the
  in-memory table `records` and the CSV file `file`, and has `Load`, `Add`
  and `Delete`. The module also defines positional removal and the options of
  the delete selector.
- `views.dfy` (module `Views`): the filter mask and the widgets' defaults
  (the `unique()` category list, earliest date, latest date).
- `summary.dfy` (module `Summary`): the total, one group-by-and-sum with
  sorted keys used for both categories and months, `idxmax`, and the page's
  report.
- `scenarios.dfy` (module `Scenarios`): concrete examples, and a client
  session on the class.

Representation choices:
- Amounts are whole paise (`int`). The amount widget's minimum and step are
  0.01 rupees, so every entered amount is a positive whole number of paise.
  Sums are then exact.
- Dates are `(year, month, day)` and compare chronologically.
- Row identity is position. The table index is always `0..n-1`, because
  `concat` uses `ignore_index=True`, `drop` is followed by
  `reset_index(drop=True)`, and `read_csv` numbers rows from 0. So the model
  uses sequence positions.
- Persistence: `file` is `None` until the first write. Every add or delete
  sets it to `Some(records)`. Loading reads it and leaves it unchanged. Each
  write is followed by a cache clear and a rerun, which loads the file again.
  `Add` and `Delete` state that rewriting the stored table changes nothing,
  so loading the model's file gives back the same table. The real CSV round
  trip can change descriptions (see "Left out").
- Top-category ties: `groupby` sorts its keys in Python's string order, and
  `idxmax` returns the first maximum. So on a tie, the top category is the
  smallest such category in that order. `TopCategoryCorrect` states this.
- Month labels: `to_period("M").astype(str)` gives `"YYYY-MM"` strings, and
  `groupby("Month")` sorts those strings. The model builds the same label from
  the date and groups by it. `MonthKeyOrder` proves that these labels sort in
  calendar order and are equal exactly for the same month. Years are written
  with four digits. pandas timestamps only cover years 1677 to 2262, so every
  year has four digits anyway.

What the app itself enforces (the model follows the code):
- Only the form restricts categories. The form offers seven categories,
  none of them a legacy label, so the per-row rewrite after an add changes no
  new row. Rows loaded from the file may carry any category string, though
  not a missing one (see "Left out").
- Only the form restricts amounts. `Add` requires at least one paisa, but
  loaded rows may hold any integer amount.
- A delete label the table does not have makes `df.drop` raise. The model
  returns `NoSuchRow` and changes nothing. The selector only offers current
  positions, so this path is not reachable from the UI
  (`OptionsAreCurrentPositions`).

## Model

| member | source | states |
|---|---|---|
| Expenses.Normalize | app.py:34 | The rewrite keeps the number of rows. Its row-by-row contract is carried by NormalizeAt, and its absorption of legacy labels by NormalizeRemovesLegacy and NormalizeIdempotent. |
| Expenses.NormalizeAt | app.py:34 | The rewrite keeps every row's date, amount and description. It turns `Travel`/`Transport` into `Travel & Transport` and keeps any other category. The length is unchanged. |
| Expenses.NormalizeRemovesLegacy | app.py:34 | After the rewrite no row has category `Travel` or `Transport`. |
| Expenses.NormalizeKeepsNormalized | app.py:54 | A table with no legacy labels is left exactly as it is. |
| Expenses.NormalizeIdempotent | app.py:34 | Applying the rewrite twice equals applying it once. |
| Expenses.NormalizeAppend | app.py:52-54 | Rewriting an appended table equals rewriting each part. |
| Expenses.MonthKey | app.py:122 | The month label of a date is seven characters, `YYYY-MM`, with the dash at position 4. Its order and equality are carried by MonthKeyOrder. |
| Expenses.MonthKeyOrder | app.py:122 | Month labels sort exactly in calendar (year, month) order. Two dates get the same label exactly when they share year and month. |
| Ledger.RemoveAt | app.py:76 | Dropping row i and renumbering: length drops by one, rows before i keep their position, rows after i move down by one. |
| Ledger.RemoveAtMultiset | app.py:76 | Deleting removes exactly one copy of the chosen row and nothing else. |
| Ledger.RemoveAtTwice | app.py:72-76 | Indices are positions: deleting i twice removes the rows that were at i and at i+1. |
| Ledger.DeleteOptions | app.py:72-73 | The selector has n + 1 options, and the first is the empty choice `""`. OptionsAreCurrentPositions states that the rest are exactly the current positions. |
| Ledger.OptionsAreCurrentPositions | app.py:72-73 | The selector offers `""` and Row(i) exactly for 0 <= i < n. |
| Ledger.ExpenseLedger.Load | app.py:21-34 | Loads the file's rows, or an empty table when there is no file. Merges the legacy labels. Leaves the file unchanged. Establishes the invariant (no legacy labels, valid dates). |
| Ledger.ExpenseLedger.Add | app.py:50-55 | The table becomes the old table plus the new row, rewritten. Because the old table is normalised and form categories are not legacy labels, this is exactly old + [row]. The invariant is kept. The file holds the new table, on which the load-time rewrite is a no-op. |
| Ledger.ExpenseLedger.Delete | app.py:74-82 | No selection: only a warning, table and file unchanged. Valid index i: the table becomes RemoveAt(old, i), the removed row is reported, and the file is rewritten. Any other label: nothing changes. |
| Views.Filter | app.py:99-103 | The view is never longer than the ledger. Its exact characterisation is carried by FilterIsSubsequence, FilterSound, FilterCount and FilterComplete. |
| Views.FilterIsSubsequence | app.py:99-103 | The view is an order-preserving subsequence of the ledger. |
| Views.FilterSound | app.py:99-103 | Every kept row has its category in the chosen set and start <= date <= end. |
| Views.FilterCount | app.py:99-103 | Each row appears in the view as often as in the ledger if it passes the mask, and never otherwise. |
| Views.FilterComplete | app.py:99-103 | Every ledger row passing both conditions is in the view. |
| Views.FilterNoCategories | app.py:100 | An empty category selection gives an empty view. |
| Views.FilterEmptyRange | app.py:101-102 | A start date after the end date gives an empty view. |
| Views.UniqueCategories | app.py:92-93 | `unique()` lists no category twice, and its entries are exactly the categories present in the table. |
| Views.UniqueCategoriesOrder | app.py:92-93 | `unique()` lists categories in the order of their first row: an earlier entry first appears at an earlier row. |
| Views.MinDate | app.py:96 | The default start is a date of the table and no later than any date in it. |
| Views.MaxDate | app.py:97 | The default end is a date of the table and no earlier than any date in it. |
| Views.DefaultFilterKeepsAll | app.py:90-103 | With the widgets at their defaults (the `unique()` categories, earliest and latest date), the view is the whole table. |
| Summary.GroupBy | app.py:123 | The result of `groupby().sum()` has strictly ascending keys, and its key set equals the rows' key set. |
| Summary.GroupBySum | app.py:123 | Grouping keeps the grand total. |
| Summary.GroupByKeyTotal | app.py:123 | Grouping keeps every key's total. |
| Summary.CategorySummary | app.py:132 | The category table's keys are strictly ascending and are exactly the view's categories. The sums are carried by CategorySummaryCorrect. |
| Summary.MonthlySummary | app.py:122-123 | The month table's labels are strictly ascending and are exactly the month labels of the view's rows. The sums are carried by MonthlySummaryCorrect, the calendar order by MonthlyChronological. |
| Summary.CategorySummaryCorrect | app.py:132 | The category table has sorted, distinct keys, exactly the view's categories. Each entry holds that category's total, which is defined independently. |
| Summary.MonthlySummaryCorrect | app.py:122-123 | Each month entry holds the total of the view's rows in that calendar month. |
| Summary.MonthlyChronological | app.py:122-123 | Earlier entries of the month table are earlier calendar months. |
| Summary.Total | app.py:109 | When every amount is positive, the total is positive exactly when the view has a row. TotalsAgree ties it to both grouped tables. |
| Summary.TotalsAgree | app.py:109 | The total equals the sum of the category sums and the sum of the month sums. |
| Summary.ArgMax | app.py:110 | `idxmax` is a position whose sum is at least every other, and it is strictly greater than every earlier position's sum. |
| Summary.TopCategory | app.py:110 | Defined only on a non-empty view. The top category is a category of the view. Maximality and the tie rule are carried by TopCategoryCorrect. |
| Summary.TopCategoryCorrect | app.py:110 | On a non-empty view the top category is present in the view, and no present category has a larger total. Among categories with an equal total it is the first in sorted order. |
| Summary.Summarize | app.py:86-110 | The page shows "no data" exactly for an empty ledger, and the figures exactly when the filtered view is non-empty. |
| Summary.SummarizeCorrect | app.py:86-110 | "No data" exactly for an empty ledger. "No matches" exactly for a non-empty ledger with an empty view. Otherwise the total agrees with both tables, and the top category is a key of the category table. |
| Scenarios.LegacyTaxiRow | app.py:34 | A stored `Travel` row of 120.00 is merged. The whole view then totals 12000 paise, and its top category is `Travel & Transport`. |
| Scenarios.TwoMonthsOfFood | app.py:122-123 | Food rows of 50 in January and 70 in February 2024 give the month table [("2024-01", 5000), ("2024-02", 7000)]. |

## Left out

- Streamlit UI: page config, forms, the sidebar tables, metrics, the warning
  and success messages, `st.rerun`. These are presentation only. The rerun is
  captured as "a reload reads the written file".
- Description round trip through the CSV: the model's file stores the table
  unchanged. In the app, `to_csv` writes an empty description (the text box's
  default, app.py:47) as an empty field. `read_csv` (app.py:25) then reads it
  back as NaN, and so too "NA", "null", "None", "nan" and its other default
  missing-value markers. After the rerun such a row's description is NaN, not
  the text that was entered. No figure depends on the description.
- Plotly bar and pie charts and their styling (app.py:124-137): an external
  library with no logic.
- CSV input/output, `os.path.exists` and date parsing (`parse_dates`,
  `to_datetime(format='mixed')`, app.py:24-27, 55, 77, 95). The file is the
  `file` field. `Load` requires that the parsed rows carry real calendar
  dates; a parse failure is not modelled.
- `st.cache_data` caching and its clearing: framework plumbing.
- Display-only sorting and truncation (top five by date at app.py:64, the
  sorted table at app.py:144) and the currency format strings.
- Floating-point amounts: amounts are whole paise, so the sums are exact
  where the app's float sums can round.
- The delete panel lists the five latest rows with `hide_index=True`
  (app.py:63-66), so it shows no index at all. Nothing on screen ties a
  selector index to a row. This is display only.
- Rows with a missing category are not modelled. `read_csv` reads an empty
  Category field as NaN, not as a string, and `groupby("Category")` drops NaN
  keys (app.py:110, 132). For such a file the category sums would total less
  than `Amount.sum()`. TotalsAgree assumes every stored row has a category.
