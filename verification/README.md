# Writer analytics dashboard: filter and aggregation model

This project models the computational core of the Streamlit "Writer Backend
Analytics" page (`app.py`). The page keeps a data frame of daily
per-author rows with the columns Views, Add_to_Shelf, Comments and
Revenue_Coins. For each sidebar choice it:

1. selects the displayed rows (`display_df`). The choice is either the
   sentinel `"ทั้งหมด"` ("all"), which keeps every row, or a pen name, which
   keeps that author's rows in their original order;
2. computes the key-metric cards. These are `total_views`, `total_shelf` and
   `total_rev` (column sums) and `avg_comment` (mean of Comments);
3. groups the displayed rows by author and sums the four columns per group.
   It then adds two derived columns computed from those sums:
   `Shelf_Rate (%) = Add_to_Shelf / Views * 100` and
   `Avg_Revenue_Per_View = Revenue_Coins / Views`.

Modules:

- `Records` (records.dfy): `Counts` holds the four metric columns and adds
  them column-wise. `Record` is one daily row: an author and its counts.
  `Ratio` is exact division that is undefined when dividing by zero, and
  `Option` carries that undefined value: `None` stands for the NaN or ±inf
  result that pandas produces by dividing by zero, and for the NaN of a mean
  over an empty column. The
  metric fields are unbounded `int`s. The source draws them from unclamped
  normal distributions, so no proof assumes they are non-negative.
- `Selection` (selection.dfy): the author filter `Filter` and the sidebar
  selection `SelectRows`, with the sentinel `AllAuthors`.
- `Summary` (summary.dfy): the column totals `Total` and the metric cards
  `Summarize`, a `Metrics` value. The mean of Comments is `Ratio(total, count)`, so it is
  undefined (`None`) over no rows.
- `Aggregate` (aggregate.dfy): the group-by. It is a left fold (`Accumulate`)
  that adds each row into its author's entry, creating the entry on the
  author's first row. It is proved equal to the reference "sum of that
  author's filtered rows" (`GroupByAuthorLookup`) and proved to conserve the
  overall totals (`GroupByAuthorConservation`).
- `Ratios` (ratios.dfy): the exact-rational ratio columns. Each is `None`
  when the group's Views sum is 0. `Analyze` builds the analysis table.
- `Dashboard` (dashboard.dfy): one recomputation, `Render`, plus properties
  of the whole page and a three-row example.

Inputs that the source obtains from outside are parameters. The data set
comes from a random generator cached by Streamlit, and the author choice
comes from a UI widget. Both are arguments of `Render`.

Notes on the source that shape the model:

- The mock generator never clamps its normal draws (app.py:21-25, 33-37),
  so metric values may be negative. They are `int`s here.
- pandas' `groupby` sorts the author keys; see "Left out".
- In pandas, `x / 0` is `inf` or `-inf` by the sign of x, and `NaN` for
  `0 / 0`. All three are modelled as the single value `None`.

## Model

| member | source | states |
|---|---|---|
| `Selection.Filter` | app.py:51-52 | the filtered rows are never more than the input rows, and every kept row has exactly the chosen author |
| `Selection.FilterMembers` | app.py:52 | a row is in the filtered data if and only if it is a row of the input whose Author equals the choice |
| `Selection.MatchIndices` | app.py:52 | the positions of the chosen author's rows are in range, strictly increasing, hold only that author's rows and include every such row |
| `Selection.FilterIsOrderedSubsequence` | app.py:52 | the filtered data is exactly the input subsequence at those positions: nothing else kept, no matching row dropped, input order preserved |
| `Selection.SelectRows` | app.py:50-54 | with the sentinel "ทั้งหมด" the displayed data is the input unchanged (same rows, same order); otherwise it holds a row if and only if the input does and the row's author is the choice |
| `Selection.FilterAppend` | app.py:52 | filtering a concatenation (the data frame is a `concat` of per-author frames) is the concatenation of the filtered parts |
| `Selection.FilterKeepsOwnRows` | app.py:52 | a data set whose rows all belong to the chosen author passes the filter unchanged |
| `Selection.FilterIdempotent` | app.py:51-52 | filtering twice by the same author equals filtering once |
| `Selection.SelectRowsIdempotent` | app.py:50-54 | applying the same sidebar choice twice equals applying it once, for the sentinel and for any author |
| `Selection.FilterAbsentAuthor` | app.py:52 | an author with no rows selects the empty data set, without error |
| `Summary.Total` | app.py:57-59 | the column sum `.sum()` of all four metric columns at once; it is the definition that TotalAppend, TotalOrderIndependent, GroupByAuthorLookup, GroupByAuthorConservation and TableReconcilesWithSummary are stated against |
| `Summary.Summarize` | app.py:57-60 | avg_comment is undefined if and only if no row is displayed, and otherwise times the row count equals the Comments total; over no rows the three totals are 0 |
| `Summary.TotalAppend` | app.py:57-59 | the column totals of two concatenated data sets are the sums of their totals |
| `Summary.TotalOrderIndependent` | app.py:57-59 | any permutation of the rows (same multiset) has the same column totals |
| `Summary.SummarizeOrderIndependent` | app.py:57-60 | the four metric cards do not depend on row order |
| `Aggregate.Accumulate` | app.py:88-93 | the step of the group-by: one row added into its author's entry, or a new entry when the author has none; AccumulateAuthors, AccumulateLookupOwn, AccumulateLookupOther and AccumulateGrandTotal state what it does |
| `Aggregate.Lookup` | app.py:88-93 | the sums the grouped table holds for an author; it is the definition that LookupMeaning, AccumulateLookupOwn, AccumulateLookupOther and GroupByAuthorLookup are stated against |
| `Aggregate.LookupMeaning` | app.py:88-93 | Lookup reads zero for an author without an entry, and in a table with distinct authors exactly the sums of that author's entry |
| `Aggregate.AccumulateAuthors` | app.py:88-93 | adding a row into the grouped table adds its author to the table's authors, keeps authors distinct, and creates an entry exactly when the author had none |
| `Aggregate.AccumulateLookupOwn` | app.py:88-93 | adding a row raises its own author's four sums by that row's values |
| `Aggregate.AccumulateLookupOther` | app.py:88-93 | adding a row leaves every other author's sums unchanged |
| `Aggregate.GroupByAuthor` | app.py:88-93 | the grouped table has pairwise distinct authors, and its set of authors is exactly the set of authors in the data |
| `Aggregate.GroupByAuthorLookup` | app.py:88-93 | for every author, the table's sums equal the column totals over that author's filtered rows; an absent author reads as zero |
| `Aggregate.GroupByAuthorEntries` | app.py:88-93 | each table row's Views, Add_to_Shelf, Comments and Revenue_Coins are the sums over its author's rows only |
| `Aggregate.OneEntryPerAuthor` | app.py:88-93 | the table has exactly one row per distinct author of the data |
| `Aggregate.SelectedAuthorTable` | app.py:52-93 | after filtering for one author the table has at most one row, and exactly one if and only if that author has rows |
| `Aggregate.AccumulateGrandTotal` | app.py:88-93 | adding a row into the table raises the sum over all table rows by exactly that row |
| `Aggregate.GroupByAuthorConservation` | app.py:57-93 | summing each grouped column over all table rows gives the overall column total of the data |
| `Records.Ratio` | app.py:95-96 | a quotient is undefined exactly when the denominator is 0; otherwise it times the denominator gives the numerator (the same division gives avg_comment, the mean of app.py:60, through Summarize) |
| `Ratios.ShelfRatePct` | app.py:95 | Shelf_Rate (%) is undefined exactly when Views is 0; otherwise it times Views equals 100 times Add_to_Shelf |
| `Ratios.RevenuePerView` | app.py:96 | Avg_Revenue_Per_View is undefined exactly when Views is 0; otherwise it times Views equals Revenue_Coins |
| `Ratios.Derive` | app.py:95-96 | adding the ratio columns keeps the group's sums; each ratio is undefined exactly when the group's Views sum is 0 and otherwise times that sum gives 100 times Add_to_Shelf, respectively Revenue_Coins |
| `Ratios.Analyze` | app.py:88-96 | the analysis table sits on the grouped table, has one row per distinct author, and each row's sums are the totals over that author's rows |
| `Ratios.AnalyzeSumThenDivide` | app.py:95-96 | each table row's ratios are the ratios of its author's column totals (sum first, then divide), undefined exactly when those Views add up to 0 |
| `Ratios.ShelfRateIsNotMeanOfRowRates` | app.py:95 | for rows (100 views, 10 shelf-adds) and (300, 15) of one author the shelf rate is 6.25, while the model's own per-row rates are 10 and 5, whose mean differs from the grouped rate |
| `Dashboard.Render` | app.py:50-96 | one recomputation of the page for a sidebar choice: metric cards and analysis table over the selected rows; it is the definition that SelectedAuthorView, TableReconcilesWithSummary, AbsentAuthorView and the example lemmas are about |
| `Dashboard.SelectedAuthorView` | app.py:51-96 | with an author chosen the analysis table has at most one row, and that row belongs to the chosen author |
| `Dashboard.TableReconcilesWithSummary` | app.py:57-93 | the table's Views, Add_to_Shelf and Revenue_Coins columns add up to total_views, total_shelf and total_rev |
| `Dashboard.AbsentAuthorView` | app.py:51-96 | choosing an author with no rows gives zero totals, an undefined avg_comment and an empty table |
| `Dashboard.ExampleGroups` | app.py:88-93 | in the three-row example, A's two rows sum to (400, 25, 20, 200) and B gets its own all-zero entry |
| `Dashboard.ExampleSummary` | app.py:57-60 | the example's cards are 400 views, 25 shelf-adds, 200 coins and 20/3 average comments |
| `Dashboard.ExampleTable` | app.py:88-96 | the example's table gives A a shelf rate of 6.25 and 0.5 revenue per view; B has 0 views, so both of its ratios are undefined |

## Left out

- Mock data generation (app.py:11-44). It uses random normal draws, the
  current time and Streamlit's process cache. The model takes any sequence
  of records instead, including ones with negative values.
- The Streamlit page: page configuration, title, the select box widget,
  metric cards with their number formatting, divider and table rendering.
  This is presentation only. The widget offers three fixed options; the
  model accepts any choice string.
- The Plotly line and area charts (app.py:70-83). These are foreign
  rendering calls.
- The Platform, Fave and Date columns. No filter or aggregate reads them.
- `.round(2)` on both ratio columns (app.py:95-96). The ratios are exact
  rationals.
- The float difference between `±inf` (non-zero / 0) and `NaN` (0 / 0). All three
  are the one undefined value `None`.
- Floating-point evaluation of `mean()` and of the ratios. Both are exact
  rationals here.
- Summary.Total: pandas sums `int64` columns and would wrap around on
  overflow. The model's sums are unbounded integers, because the source's
  values are far from that range.
- Aggregate.GroupByAuthor: table rows come in order of each author's first
  appearance. pandas' `groupby` sorts the author keys instead. The order is
  deterministic in both, and no property proved here depends on it.
