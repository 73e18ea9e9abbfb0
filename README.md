# Olist e-commerce dashboard: the analysis core

This project models the data logic in the Streamlit dashboard
`dashboard/dashboard.py`, which analyses the Brazilian Olist e-commerce
orders. The charts, widgets and CSV loading are not modelled. The model
covers:

- **Orders** (`orders.dfy`): the merged order table and the two sidebar
  filters. The date-range filter applies only when two dates are chosen.
  The state filter applies unless the choice is "All". `FilterOrders`
  reassigns the filtered table step by step, as the script does.
- **Delivery** (`delivery.dfy`): `categorize_delay`, which puts each delay
  into one of four buckets, and the `delay_category` column it fills.
- **Grouping** (`grouping.dfy`): what `groupby(...).agg(...)` does. It
  yields the distinct keys in sorted order (Python's code-point order on
  `str`), distinct order counts (`nunique`) and summed payments.
- **Quantiles** (`quantiles.dfy`): `pd.qcut(x, q=5, labels=...)` and
  `rank(method='first')`.
  - Quantile edges are linear interpolations between closest ranks.
  - Edges are kept multiplied by 5, so they stay exact integers.
  - Bins are right-closed, and the lowest edge belongs to bin 1.
  - Repeated edges, or an empty column, make `qcut` fail.
- **Rfm** (`rfm.dfy`): RFM segmentation.
  - One record per customer: recency, frequency and monetary value.
  - The three quintile scores, with recency labelled 5 down to 1.
  - Their mean, `rfm_score`.
  - The eight-rule `rfm_segment` classifier.
  - A failed `qcut` becomes an explicit `Err`. The script's catch-all
    handler would show it as an error message.
- **Geo** (`geo.dfy`): the per-state table of distinct customers, distinct
  orders and revenue. States are ranked by revenue, largest first. The
  market-concentration pie holds the top ten states plus an "Others"
  slice.

Units:
- Timestamps are whole seconds since the epoch, and a calendar day
  (`.dt.date`) is `t / 86400`.
- Money is integer cents.
- Delays are whole days, or missing (`Delay.Missing`, pandas' `NaN`).

Recency is `(latest + 1 day - customer's last purchase) / 1 day`, rounded
down. This is `Timedelta.days`.

Scoring an empty table fails like repeated edges: `pd.qcut` raises a
`ValueError` that the catch-all at `dashboard/dashboard.py:488-490`
handles, so `QCut` returns `Err(BinEdgesNotUnique)` for empty input.

`qcut` fails only when two quantile edges coincide. Two distinct values
can already give six distinct edges (`Quantiles.QCutTwoValues`).

A missing delivery delay (`NaN`) fails every comparison in
`categorize_delay`, so it lands in the last bucket, ">14 days late".

## Model

| member | source | states |
|---|---|---|
| Orders.DateOf | dashboard/dashboard.py:81-82 | the purchase date is the day whose 86400-second span contains the timestamp |
| Orders.Selected | dashboard/dashboard.py:79-92 | a selected row's purchase date lies in the inclusive range when two dates are given; with "All" states, a row in the range (or any row, when the range is not two dates) is selected |
| Orders.Keep | dashboard/dashboard.py:80-83 | a boolean mask keeps at most the input's rows, and a row is in the result exactly when it is in the input and satisfies the mask |
| Orders.KeepCounts | dashboard/dashboard.py:80-83 | a masked table holds every accepted row as many times as the input does, and no rejected row |
| Orders.KeepAppend | dashboard/dashboard.py:80-83 | masking keeps input order: masking a concatenation concatenates the masked parts |
| Orders.KeepEverything | dashboard/dashboard.py:84-85 | a mask every row satisfies leaves the table unchanged |
| Orders.KeepTwice | dashboard/dashboard.py:79-92 | applying the date mask and then the state mask equals one mask by their conjunction |
| Orders.FilterOrders | dashboard/dashboard.py:79-92 | the filtered table is exactly the rows with the purchase date in the inclusive range (when two dates are given) and the chosen state (unless "All"), in input order and with their multiplicities; with neither filter it is the input |
| Delivery.CategorizeDelay | dashboard/dashboard.py:214-222 | days <= 0 is On Time/Early, 0 < days <= 7 is 1-7 days late, 7 < days <= 14 is 8-14 days late, otherwise >14 days late (each an if-and-only-if); the bucket's position counts the thresholds 0, 7, 14 that the delay exceeds |
| Delivery.CategorizeDelayMonotone | dashboard/dashboard.py:214-222 | a longer delay never lands in an earlier bucket |
| Delivery.CategorizeCell | dashboard/dashboard.py:214-224 | a missing delay is >14 days late (every comparison with `NaN` is false); a present delay gets the bucket that counts the thresholds it exceeds |
| Delivery.DelayColumn | dashboard/dashboard.py:224 | the `delay_category` column has one bucket per row, each the bucket of that row's delay, and the last bucket for a missing delay |
| Grouping.InsertKey | dashboard/dashboard.py:266 | adding a key to a strictly sorted key list keeps it strictly sorted and adds exactly that key |
| Grouping.GroupKeys | dashboard/dashboard.py:266 | the group keys are strictly sorted and are exactly the values in the column |
| Grouping.StrictlySortedCount | dashboard/dashboard.py:266 | a strictly sorted key list has one entry per distinct key |
| Grouping.KeyColumn | dashboard/dashboard.py:266 | plumbing: the grouping column holds each row's key, aligned with the rows (the sorted keys are stated on Grouping.KeysOf) |
| Grouping.KeysOf | dashboard/dashboard.py:266 | the keys of a grouped table are strictly sorted, are exactly the keys present in the rows, and number as many as the distinct keys |
| Grouping.GroupRows | dashboard/dashboard.py:266 | a group holds exactly the rows whose key is the group's key, and no more rows than the table |
| Grouping.OrdersOf | dashboard/dashboard.py:268 | `nunique` of `order_id` counts the set holding every order id of the group's rows and nothing else |
| Grouping.OrdersAtMostRows | dashboard/dashboard.py:268 | a group has no more distinct orders than rows |
| Grouping.OrdersOfPresent | dashboard/dashboard.py:268 | a group that has a row has at least one distinct order |
| Grouping.PaymentsOfGroup | dashboard/dashboard.py:269 | a group's `'sum'` (Grouping.PaymentsOf) is the total payment of exactly the group's rows |
| Grouping.PaymentsOfNonNegative | dashboard/dashboard.py:269 | with non-negative payments a group's sum is non-negative |
| Grouping.PaymentsOverKeysStep | dashboard/dashboard.py:269 | removing one row from the table removes its payment from exactly the group holding its key |
| Grouping.PaymentsPartition | dashboard/dashboard.py:269 | the group sums over distinct keys that cover every row add up to the table's total payment |
| Grouping.StrictlySortedDistinct | dashboard/dashboard.py:266 | sorted group keys never repeat |
| Grouping.LexLessTotal | dashboard/dashboard.py:266 | two different keys are always ordered one way or the other |
| Grouping.LexLessTransitive | dashboard/dashboard.py:266 | key order is transitive |
| Quantiles.Insert | dashboard/dashboard.py:275 | inserting into a sorted column keeps it sorted and adds exactly that value |
| Quantiles.SortAscending | dashboard/dashboard.py:275 | the sorted population is sorted, the same length and a permutation of the input |
| Quantiles.ScaledQuantile | dashboard/dashboard.py:275 | five times a quantile lies between five times the minimum and maximum, and equals them at k = 0 and k = 5 |
| Quantiles.EdgesOfSorted | dashboard/dashboard.py:275 | plumbing over the sorted column: there are six edges, the k-th being the k/5 quantile (what they bound is stated on Quantiles.EdgesSpan) |
| Quantiles.Edges | dashboard/dashboard.py:275-277 | a column's quantile edges are six values (their meaning is stated on Quantiles.EdgesSpan) |
| Quantiles.EdgesSpan | dashboard/dashboard.py:275-277 | the lowest edge is the column's minimum and the highest its maximum: every value lies between them, and each is a value of the column |
| Quantiles.AllDistinctPairwise | dashboard/dashboard.py:275 | "edges unique" holds exactly when no two edges are equal |
| Quantiles.BinFrom | dashboard/dashboard.py:275 | the search returns the first bin from k on whose right edge is at or above the value, or the last bin |
| Quantiles.Bin | dashboard/dashboard.py:275 | the bin is in 1..5, the value is at or below its right edge, and above every earlier edge |
| Quantiles.QCut | dashboard/dashboard.py:275-277 | `qcut` succeeds exactly when the column is non-empty and its edges are distinct; it then labels each value with its bin's label |
| Quantiles.BinMonotone | dashboard/dashboard.py:275-277 | a larger value never lands in a lower bin |
| Quantiles.BinBetweenEdges | dashboard/dashboard.py:275-277 | each value lies at or below its own bin's right edge (including the maximum, in bin 5) and above all edges left of it |
| Quantiles.AtMostLast | dashboard/dashboard.py:275 | no value exceeds the maximum of its column |
| Quantiles.QCutTwoValues | dashboard/dashboard.py:275-277 | two distinct values already give six distinct edges: `qcut` of [0, 10] succeeds, with bins 1 and 5 |
| Quantiles.QCutSingleValue | dashboard/dashboard.py:275-277 | one value yields equal edges, so `qcut` fails |
| Quantiles.RankFirst | dashboard/dashboard.py:276 | each rank is one more than the number of smaller values plus the number of equal values earlier in the column |
| Quantiles.RankOf | dashboard/dashboard.py:276 | a `rank(method='first')` is in 1..n |
| Quantiles.RankOrder | dashboard/dashboard.py:276 | a smaller value, or an equal value earlier in the column, gets a smaller rank |
| Quantiles.RanksInjective | dashboard/dashboard.py:276 | no two entries share a rank |
| Quantiles.RankFirstPermutation | dashboard/dashboard.py:276 | the ranks, sorted, are exactly 1..n |
| Quantiles.QuantileOfIota | dashboard/dashboard.py:276 | the k/5 quantile of 1..n is 1 + (n-1)k/5 |
| Quantiles.EdgesOfIota | dashboard/dashboard.py:276 | the edges of 1..n are 1 + (n-1)k/5 |
| Quantiles.RankBinFirst | dashboard/dashboard.py:276 | max(1, ceil(5(x-1)/(n-1))) is in 1..5 and is the first k with 5(x-1) <= (n-1)k |
| Quantiles.RankEdgesDistinct | dashboard/dashboard.py:276 | the rank edges are distinct exactly when there are at least two customers |
| Quantiles.BinUnderRankEdges | dashboard/dashboard.py:276 | against the rank edges, the bin is max(1, ceil(5(x-1)/(n-1))) |
| Quantiles.BinOfRank | dashboard/dashboard.py:276 | binning the ranks puts rank x in bin max(1, ceil(5(x-1)/(n-1))) |
| Rfm.RfmSegment | dashboard/dashboard.py:286-304 | over 1..5 on each axis, each of the eight labels holds exactly on its region (Champions iff r,f,m >= 4; Loyal Customers iff f >= 4 and (r = 3 or r >= 4 with m <= 3); ...; Need Attention iff r = 3 and f <= 3), so every triple gets exactly one label |
| Rfm.SegmentRuleOrder | dashboard/dashboard.py:289-304 | the first matching rule wins: (4,4,4) is Champions but (4,4,1) Loyal Customers; (2,2,4) is Can't Lose Them, not Hibernating; (3,3,5) falls through to Need Attention |
| Rfm.LatestPurchase | dashboard/dashboard.py:264 | the latest purchase of the table is at or after every purchase and is one of them |
| Rfm.LastPurchaseOf | dashboard/dashboard.py:267 | a customer's last purchase is at or after each of their purchases, is one of them, and is no later than the table's latest |
| Rfm.Recency | dashboard/dashboard.py:264-267 | `(reference_date - x.max()).days` is at least 1 and is the number of whole days in the span from the customer's last purchase to one day after the table's latest |
| Rfm.AggregateCustomer | dashboard/dashboard.py:264-270 | a customer's record has frequency >= 1 and recency >= 1, and recency is 1 exactly when the last purchase is within a day of the table's latest |
| Rfm.AggregateAll | dashboard/dashboard.py:266-270 | plumbing: one record per listed customer, in list order (the grouped table is stated on Rfm.Aggregate) |
| Rfm.Aggregate | dashboard/dashboard.py:266-272 | one record per distinct customer; a customer has a record exactly when they have a row, and each record is that customer's aggregate |
| Rfm.AggregateSorted | dashboard/dashboard.py:266 | the records come in ascending customer order |
| Rfm.MonetarySumOverKeys | dashboard/dashboard.py:269 | the monetary column over listed customers sums their group payments |
| Rfm.MonetaryTotal | dashboard/dashboard.py:269 | the monetary column adds up to the table's total payment |
| Rfm.MonetaryNonNegative | dashboard/dashboard.py:269 | with non-negative payments every monetary value is non-negative |
| Rfm.RecencyOrder | dashboard/dashboard.py:264-267 | a customer whose last purchase is later never has a larger recency |
| Rfm.Score | dashboard/dashboard.py:279-283 | a scored record keeps its aggregate, its scores are in 1..5, `rfm_score` is their mean and lies in [1, 5], and the segment is `rfm_segment` of the scores |
| Rfm.Assemble | dashboard/dashboard.py:275-306 | the scored table is aligned with the grouped table, and each row carries the three given scores |
| Rfm.RecencyScores | dashboard/dashboard.py:275 | `r_score` succeeds exactly when the recency edges are distinct, and is 6 minus each customer's bin |
| Rfm.FrequencyScores | dashboard/dashboard.py:276 | `f_score` succeeds exactly when there are at least two customers, and is the bin of each customer's first-occurrence rank |
| Rfm.MonetaryScores | dashboard/dashboard.py:277 | `m_score` succeeds exactly when the monetary edges are distinct, and is each customer's bin |
| Rfm.ScoreTable | dashboard/dashboard.py:275-306 | scoring succeeds exactly when all three `qcut`s succeed; each scored row keeps its aggregate and carries the three axis scores, their mean and segment |
| Rfm.ScoreTableFails | dashboard/dashboard.py:275-277 | scoring succeeds exactly when there are two or more customers and the recency and monetary edges are distinct |
| Rfm.RfmTable | dashboard/dashboard.py:264-306 | a scored table has one row per distinct customer |
| Rfm.OneCustomerFails | dashboard/dashboard.py:275-277 | a table with at most one customer cannot be scored |
| Rfm.ScoresAreBins | dashboard/dashboard.py:275-277 | each score is the customer's bin on that axis, the recency bin counted from 5 down |
| Rfm.RScoreOrder | dashboard/dashboard.py:275 | a larger recency never scores higher on r |
| Rfm.MScoreOrder | dashboard/dashboard.py:277 | a larger monetary value never scores lower on m |
| Rfm.FScoreOfRank | dashboard/dashboard.py:276 | `f_score` is max(1, ceil(5(x-1)/(n-1))) of the customer's rank x among n |
| Rfm.FScoreOrder | dashboard/dashboard.py:276 | a higher frequency, or an equal frequency earlier in the table, never scores lower on f |
| Geo.CustomersOf | dashboard/dashboard.py:388 | `nunique` of `customer_unique_id` counts the set holding every customer with a row in the state and nobody else |
| Geo.CustomersAtMostRows | dashboard/dashboard.py:388 | a state has no more distinct customers than rows |
| Geo.SummarizeState | dashboard/dashboard.py:387-391 | a state's row carries that state and the sum of its payments |
| Geo.StatePresentCounts | dashboard/dashboard.py:387-391 | a state that occurs has at least one customer and one order |
| Geo.SummarizeAll | dashboard/dashboard.py:387-391 | plumbing: one row per listed state, in list order (the state table is stated on Geo.SummarizeStates) |
| Geo.SummarizeStates | dashboard/dashboard.py:387-393 | one row per distinct state; a state has a row exactly when it occurs, and each row is that state's aggregate |
| Geo.SummarizeStatesSorted | dashboard/dashboard.py:387 | before ranking the states come in ascending order |
| Geo.RevenueOverKeys | dashboard/dashboard.py:390 | a revenue column over listed states sums their group payments |
| Geo.StatesRevenueTotal | dashboard/dashboard.py:387-393 | the revenue column adds up to the table's total payment |
| Geo.InsertByRevenue | dashboard/dashboard.py:395 | inserting a state into a ranked table keeps it ranked and adds exactly that state |
| Geo.InsertRevenue | dashboard/dashboard.py:395 | inserting a state adds its revenue to the column total |
| Geo.RankByRevenue | dashboard/dashboard.py:395 | the ranked table is in descending revenue order and is a permutation of the input with the same total |
| Geo.TopStateLeads | dashboard/dashboard.py:395-401 | the top state is one of the states and has the largest revenue |
| Geo.TopCount | dashboard/dashboard.py:452 | `head(10)` keeps ten states, or all of them when there are fewer |
| Geo.PieData | dashboard/dashboard.py:452-455 | the pie has one slice per top state with its revenue, then one slice holding the revenue of every remaining state (their total is stated on Geo.PieTotal) |
| Geo.PieLabels | dashboard/dashboard.py:456 | plumbing: the labels match the slices, the top states' names, then "Others" |
| Geo.SumOfRevenues | dashboard/dashboard.py:455 | slices equal to the states' revenues add up to those states' revenue |
| Geo.PieTotal | dashboard/dashboard.py:452-455 | the slices add up to the revenue of all the ranked states |
| Geo.OthersEmpty | dashboard/dashboard.py:453 | with ten states or fewer, the "Others" slice is 0 |
| Geo.PieTopDominates | dashboard/dashboard.py:452-453 | in a ranked table no named slice is smaller than a state folded into "Others" |
| Geo.PageOf | dashboard/dashboard.py:395-456 | from a state table: `NoStates` exactly when the table is empty (`iloc[0]` fails; the chart failures are under Left out); otherwise the top state is in the table and leads every state, the slices add up to the table's revenue, and there are min(10, states) + 1 slices and labels, the last "Others" |
| Geo.GeoPage | dashboard/dashboard.py:387-456 | from the filtered table: `NoStates` exactly when the table is empty (`iloc[0]` fails; the chart failures are under Left out); otherwise the top state leads every state, the pie adds up to the table's total payment, and has min(10, states) + 1 slices and labels, the last "Others" |
| Geo.NoStatesIffEmpty | dashboard/dashboard.py:387-401 | the state table is empty exactly when the filtered table is |

## Left out

- Page layout, CSS, sidebar widgets, metrics and tables
  (`st.*` calls), and all matplotlib/seaborn plotting. These are
  rendering, not logic.
- `load_data`: reading the CSV, `pd.to_datetime` and caching. Rows are
  modelled as already-typed records.
- Floating-point quantities: average review, on-time rate, average
  delivery, `revenue_per_customer`, market share, `top5_share`,
  percentages, and the `/1000000` scaling. String formatting of money and
  percentages is also left out.
- Quantiles.QCut: edges are exact rationals (kept times 5). pandas
  computes them in floating point, so a value lying exactly on an edge
  could fall on the other side after rounding.
- Timestamps below one-second resolution, and fractional delays. Delays
  are whole days or missing.
- Geo.RankByRevenue: pandas' default sort is not stable. The model
  promises only descending revenue and a permutation. It does not promise
  any particular order among equal revenues.
- Geo.PageOf / Geo.GeoPage: the bar charts at `dashboard/dashboard.py:423-425`
  and `438-440` draw ten bars and ten tick positions whatever the table
  holds, so with fewer than ten states they raise before the pie is
  built (with one state this depends on the matplotlib version). The
  model leaves the charts out: `NoStates` models only the `iloc[0]`
  failure on an empty table, and a `StatePage` is built for any
  non-empty table.
- Rfm.RfmTable: its contract states only the row count. The success
  condition and the per-row contents are stated on `Rfm.ScoreTable` and
  `Rfm.ScoreTableFails` over the grouped table.
- The `try`/`except` around the page (`dashboard/dashboard.py:488-490`).
  It appears only as the `Err` result of scoring and the `NoStates` page
  of the state analysis.
- The hard-coded insight text and the per-segment counts and sums shown
  on the RFM page.
