# PharmaLytics analytics core, in Dafny

PharmaLytics is a Streamlit dashboard over a pharmacy's point-of-sale export.
It reads the report, cleans it (`load_and_clean_data`), and shows three
analyses of the cleaned table: a market-basket matrix fed to an association
rule miner (cross-selling), sales density per weekday and shift and per hour
(shift analysis), and a revenue ranking cut into A/B/C tiers (ABC analysis).

This project models the deterministic data transformations of `app.py` as
pure Dafny functions over sequences of rows, and proves what they promise:

- `Transactions`: the row (timestamp or NaT, product or empty, quantity,
  amount, transaction type), the table, and the date order of
  `sort_values(by='Date')` (ascending, NaT last).
- `Sequences`: boolean-mask selection (`Filter`) and a stable insertion sort
  (`SortBy`), each with its permutation/subsequence contract.
- `Cleaning`: the sort and the three filters of `load_and_clean_data` and
  their composition `Clean`.
- `Basket`: `groupby(['Date','Product_Name'])['Quantity'].sum()`, the
  unstacked and zero-filled matrix, `encode_units` and `basket_sets`.
- `Density`: `get_time_slot`, the (weekday, shift) heatmap counts and the
  hourly counts.
- `Abc`: revenue per product, `rank(method='first', ascending=False)`,
  `qcut(..., 3)` with its linearly interpolated quantile edges, and the tiers.
- `Rules`: ordering the mined rules by lift, keeping the first 20, and the
  count the tab reports.
- `Dashboard`: the cleaning guarantees carried over to the analyses.

Behaviour the model takes from the code as written:

- The closed period is `Date < 2024-09-13 00:00` or `Date > 2024-10-31
  00:00`. Rows on 2024-10-31 after midnight are therefore kept, and only the
  instant 2024-10-31 00:00:00 of that day is dropped (`IsOpenPeriod`).
  Rows with an unparseable date (NaT) fail both comparisons and are dropped.
- The sale filter is a case-insensitive substring search, so any type that
  contains "satış" or "satis" in any casing is kept (also "İADE SATIŞ" and
  the like). Without a Transaction_Type column no row is dropped by it.
- The basket matrix keeps every timestamp that has a product row, even when
  all its quantities are below 1 (returns, zero quantities): such a row
  encodes to all zeros and is not removed.
- Rules are ordered by lift alone; nothing breaks ties.
- With fewer than two products `qcut` cannot form distinct edges and raises;
  the model returns `Err(NonUniqueBinEdges)`.

## Model

| member | source | states |
|---|---|---|
| `Sequences.Filter` | app.py:49-79 | a mask selection keeps exactly the rows satisfying the predicate, each as often as in the input, in their original order |
| `Sequences.SortBy` | app.py:43 | sorting returns a permutation of its input that is ordered by the given total preorder |
| `Sequences.SubsequenceKeepsOrder` | app.py:43-79 | filtering a date-sorted table leaves it date-sorted |
| `Sequences.HasKeySplit` | app.py:152 | a list has a row in group k exactly when its first row is in k or the rest has one |
| `Transactions.DateOrderIsTotal` | app.py:43 | the `sort_values(by='Date')` order with NaT last is a total preorder on rows |
| `Cleaning.ContainsIgnoringCase` | app.py:49 | the result is true exactly when the pattern occurs at some position of the string, letter by letter up to case |
| `Cleaning.IsSale` | app.py:48-49 | the sale mask holds exactly when "Satış" or "Satis" occurs ignoring case; the third alternative "SATIS" adds nothing |
| `Cleaning.SameFoldSameMatches` | app.py:49 | two patterns equal up to case occur in exactly the same strings |
| `Cleaning.IsOpenPeriod` | app.py:52-53 | a date fails the period mask exactly when it is NaT or lies in [2024-09-13 00:00, 2024-10-31 00:00] |
| `Cleaning.IsExcluded` | app.py:56-79 | a row is excluded exactly when its product equals one of the listed names; an empty product is never excluded |
| `Cleaning.SortByDate` | app.py:43 | the sorted table is a permutation of the report, ascending by date with NaT last |
| `Cleaning.KeepSales` | app.py:47-49 | keeps exactly the rows whose transaction type contains Satış/Satis/SATIS ignoring case, in order |
| `Cleaning.KeepOpenPeriod` | app.py:51-53 | keeps exactly the dated rows before 2024-09-13 or after 2024-10-31 00:00, in order |
| `Cleaning.DropExcluded` | app.py:55-79 | keeps exactly the rows whose product is not on the exclusion list (empty products stay), in order |
| `Cleaning.Kept` | app.py:47-79 | a row survives cleaning exactly when it is dated outside the closed window, names no excluded product, and is a sale when the table records transaction types |
| `Cleaning.Clean` | app.py:43-81 | the cleaned table holds exactly the kept rows, each as often as in the report, and is sorted by date |
| `Cleaning.CleanKeepsExactlyKept` | app.py:43-79 | sort, sale filter, period filter and exclusion filter compose to one keep-predicate |
| `Cleaning.CleanedRowsPassFilters` | app.py:43-79 | every cleaned row is dated outside the closed period, has no excluded product and, when the column exists, is a sale |
| `Basket.GroupedQuantity` | app.py:104 | the group-by has an entry exactly for each occupied (date, product) cell, holding the total quantity of that cell |
| `Basket.QuantityIn` | app.py:104 | the total quantity of a (date, product) pair no row falls into is 0, and is never negative when no quantity is |
| `Basket.BasketMatrix` | app.py:104-106 | the matrix has a cell for every (sale date, product) pair and no other, each equal to the total quantity of that pair |
| `Basket.MissingPairReadsZero` | app.py:104-106 | a (date, product) pair with no sale reads 0 in the matrix, not a missing value |
| `Basket.EncodeUnits` | app.py:108 | the encoding is 0 or 1, and 1 exactly when the quantity is at least 1 |
| `Basket.EncodeGrid` | app.py:109 | encoding keeps the matrix's rows, columns and cells and encodes each cell |
| `Basket.EncodeGridIdempotent` | app.py:108-109 | encoding an encoded matrix changes nothing |
| `Basket.BasketSets` | app.py:104-109 | `basket_sets` is a full 0/1 matrix over sale dates and products whose cell is 1 exactly when at least one unit of the product sold at that date |
| `Density.TimeSlot` | app.py:136-146 | an hour gets the night shift exactly when it lies outside 08:00-20:00 |
| `Density.TimeSlotHasFiveLabels` | app.py:136-156 | over the hours 0..23 `get_time_slot` returns exactly the five distinct labels of `shift_order` |
| `Density.ShiftOrderListsLabels` | app.py:156 | `shift_order` lists the five shift labels in order, each once |
| `Density.TimeSlotAgreesWithLabels` | app.py:136-146 | the shift of an hour is the one whose label prints a window containing it; night duty takes every hour no window contains |
| `Density.Heatmap` | app.py:149-152 | the heatmap has a cell exactly for each (weekday, shift) some dated row falls into, holding the count of that cell's rows with a product |
| `Density.HourlyTrend` | app.py:132-168 | the trend has a point exactly for each hour some dated row falls into, holding the count of that hour's rows with a product |
| `Density.GroupCount` | app.py:152 | the count has an entry for each group some row belongs to, holding the number of that group's rows with a product |
| `Density.SumCountInTotal` | app.py:152 | when each possible group is listed once, the per-group counts add up to the grouped rows that have a product |
| `Density.SumCountsOfGroupCount` | app.py:168 | summing the chart values (0 for absent groups) equals summing the reference per-group counts |
| `Density.OccursOnceWithoutRepeats` | app.py:155-156 | in a list without repeats each listed key occurs exactly once |
| `Density.OccurrencesCross` | app.py:152 | every (weekday, shift) pair appears once in the 7 x 5 heatmap grid when its shift is listed once |
| `Density.HeatmapCountsAllProducts` | app.py:149-152 | on dated rows the 35 heatmap cells add up to the rows with a product |
| `Density.HourlyTrendCountsAllProducts` | app.py:132-168 | on dated rows the 24 hourly counts add up to the rows with a product |
| `Dashboard.CleanedCountsAddUp` | app.py:152-168 | on the cleaned table the heatmap and the hourly trend each add up to the cleaned rows with a product |
| `Dashboard.BasketsAvoidClosedPeriodAndExclusions` | app.py:104-109 | no basket date lies in the closed period and no excluded product is a basket column |
| `Abc.StrOrderIsTotal` | app.py:175 | the order of product names in `groupby` is a total preorder |
| `Abc.ProductNames` | app.py:175 | the product groups are the products sold, each once |
| `Sequences.PermutationKeepsNoDuplicates` | app.py:175 | reordering a list of distinct products keeps them distinct |
| `Abc.Revenue` | app.py:175 | the revenue of a product no row sold is 0, and is never negative when no amount is |
| `Abc.ProductSales` | app.py:175 | one row per product sold, distinct, in name order, each with its total revenue |
| `Abc.RankedSales` | app.py:175 | the revenue table reordered with non-increasing revenue |
| `Abc.Rank` | app.py:176 | every rank lies in 1..n |
| `Abc.RankOrder` | app.py:176 | a higher revenue, or an equal revenue seen earlier, gets a strictly smaller rank |
| `Abc.RanksDistinct` | app.py:176 | distinct rows get distinct ranks, so ranks are a bijection onto 1..n |
| `Abc.RankOfSortedIsPosition` | app.py:176 | on the table sorted by decreasing revenue the rank of a row is its position plus one |
| `Abc.Quantile` | app.py:176 | the 0-quantile is the first (least) value and the 1-quantile the last (greatest) |
| `Abc.QuantileWithinRange` | app.py:176 | over ascending values every quantile lies between the least and the greatest |
| `Abc.Position` | app.py:176 | the linear-interpolation position q(n-1) of a quantile lies within the n values, at the first for q = 0 and at the last for q = 1 |
| `Abc.ValueAt` | app.py:176 | the value read at a fractional position is the first value at position 0 and the last at position n-1 |
| `Abc.Lerp` | app.py:176 | linear interpolation between ascending neighbours stays between them, starts at the lower one, and moves by the fraction over a unit step |
| `Abc.QuantileOfRanks` | app.py:176 | the linearly interpolated q-quantile of the ranks 1..n is 1 + q(n - 1) |
| `Abc.RankValueAt` | app.py:176 | over the ranks 1..n the interpolated value at position p is 1 + p |
| `Abc.Edges` | app.py:176 | the `qcut` edges over the ranks are 1, 1 + (n-1)/3, 1 + 2(n-1)/3, n |
| `Abc.EdgesUniqueIffSeveral` | app.py:176 | the edges are distinct exactly when there are at least two products |
| `Abc.Bin` | app.py:176 | over ascending edges a value above the lowest edge lands in the bin the count of edges below it selects, and the lowest edge itself lands in A |
| `Abc.BinIsTierOfRank` | app.py:176 | rank r is in A iff 3(r-1) <= n-1, in B iff not A and 3(r-1) <= 2(n-1), otherwise in C |
| `Abc.TierOfRankMonotone` | app.py:176 | a smaller rank never gets a later tier |
| `Abc.SortedBinsAreTiersOfRank` | app.py:176 | over revenues in decreasing order, binning row i's rank by the `qcut` edges gives the integer-rule tier of rank i + 1 |
| `Abc.TierTable` | app.py:176 | the tier table keeps every ranked row's product and revenue, and over decreasing revenue gives the row at position i the integer-rule tier of rank i + 1 |
| `Abc.RanksOfRankedSales` | app.py:175-176 | on the revenue-ranked table the rank column is 1, 2, ..., n, the values whose quantiles are the edges |
| `Abc.AbcAnalysis` | app.py:175-176 | fails exactly when fewer than two products were sold; otherwise lists the revenue-ranked products in order |
| `Abc.RankedSalesListProductsOnce` | app.py:175 | the ranked table lists every product sold exactly once, each with its total revenue |
| `Abc.AbcListsEachProductOnce` | app.py:175-176 | the ABC table covers every product sold once, with its revenue, by non-increasing revenue |
| `Abc.SameRowsListProductsOnce` | app.py:175-176 | attaching tiers to the ranked rows keeps their products, their distinctness, their revenues and their order |
| `Abc.AbcTiersByRank` | app.py:175-176 | the row at rank i gets the integer-rule tier of rank i, so the first row is A and the last is C |
| `Abc.AbcTiersOrdered` | app.py:175-176 | along the ranking tiers never go back and revenue never rises, so every A product outranks every C product |
| `Rules.ByLift` | app.py:116 | the rules reordered with non-increasing lift |
| `Rules.Displayed` | app.py:116-118 | at most 20 rules, min(20, n) of them, a prefix of the lift-sorted list, non-increasing in lift |
| `Rules.PrefixHasTopLifts` | app.py:116-118 | the first k of a lift-descending list are drawn from it and out-lift every element left out |
| `Rules.DisplayedAreTopByLift` | app.py:116-118 | the shown rules come from the mined ones and every rule left out has a lift no higher than any shown |
| `Rules.CrossSell` | app.py:114-125 | no frequent itemsets gives "no patterns"; otherwise the reported count is the number of all rules, not of the rows shown |

## Left out

- Reading the Excel file, stripping and renaming columns, building the
  timestamp from Tarih/Saat or TarihSaat with `dayfirst` parsing, and the
  error shown when no date column exists (app.py:20-41): timestamps arrive
  parsed, NaT as `None`.
- A report without a Product_Name column (the check at app.py:78 and the
  errors the later group-bys raise): the model always has the column.
- The summary line (first and last date, total revenue, app.py:89-93) and
  all Streamlit output. On an empty cleaned table `Date.min()` is NaT and
  formatting it raises at app.py:89, so the dashboard shows none of the three
  analyses; the model's results on an empty table are not what it displays.
  The rest of the Streamlit output is also left out: page setup, sidebar, tabs, messages, spinner,
  `st.stop`, and the `@st.cache_data` memoisation.
- The frequent-itemset mining and rule derivation of `apriori` and
  `association_rules` (app.py:112, 115), including the support slider and the
  lift threshold 0.1 they receive: their rules are an input of `CrossSell`.
- `list(x)[0]` on the antecedent and consequent sets (app.py:119-120): which
  element a frozenset yields first is not determined.
- `day_name()` (app.py:133): the weekday of a timestamp is a parameter of the
  heatmap.
- The Plotly charts (app.py:159-170, 178-180) and `head(20)` of the ABC chart.
- The top-level `except Exception` (app.py:182-183): the one exception of the
  modelled steps, `qcut` with repeated edges, is the `Err` of `AbcAnalysis`.
- Floating point: quantities, amounts, ranks and quantile edges are exact
  reals, so rounding at an exact tier boundary is not modelled; NaN
  quantities or amounts (which pandas sums skip) are not represented.
- SortByDate, RankedSales, ByLift: the order among rows with equal keys is
  the stable one; pandas' default sort is not stable, so in the source that
  order is unspecified, and the contracts state only what holds for any
  order (a permutation, ordered by the key).
- AbcAnalysis with no product at all is modelled as the same error as one
  product; what `qcut` does with an empty series depends on how numpy
  treats repeated NaN edges.
- Cleaning.Fold covers the case equivalences of the letters in the sale
  pattern only (ASCII letters, I/ı/İ, Ş/ş, ſ), which is all that matching
  that pattern needs; no other Unicode case folding is modelled.
