# RFM customer segmentation: a verified model of the scoring pipeline

`app.py` is a Streamlit report that segments customers by Recency, Frequency and
Monetary value (RFM). Inside the page code sits a deterministic pipeline, and this
project models that pipeline in Dafny and proves what it guarantees:

1. **Column check** (`Schema`). The run goes on only when InvoiceNo, Quantity,
   UnitPrice, InvoiceDate and CustomerID are all present. Otherwise it stops and names
   exactly the missing ones.
2. **Preprocessing** (`Transactions`). Rows without a CustomerID are dropped. Every other
   row is kept, in order, with `TotalPrice = Quantity * UnitPrice`. Negative totals
   (returns) are kept too.
3. **Aggregation** (`Aggregation`). Per-customer metrics come from a single reference
   date: the latest invoice date plus one day.
   - Recency is the number of whole days from the customer's last invoice to that date.
   - Frequency is the number of distinct invoice numbers.
   - Monetary is the sum of TotalPrice.

   The `groupby` is an imperative method that runs one pass over the rows with a map of
   running totals. It is proved against a recursive specification of each metric, and
   produces one row per customer in ascending CustomerID order.
4. **Scoring** (`Quantiles`, `Scoring`). `pd.qcut(x, 5, labels)` is modelled on integers
   in exact arithmetic, where numpy works in floating point (see "## Left out"):
   - The six quantile edges use numpy's linear interpolation, kept multiplied by 5 so
     they are integers.
   - `searchsorted` puts a value in its bin, and the lowest edge belongs to bin 1.
   - qcut raises when two edges coincide in exact arithmetic.

   R_Score bins Recency with labels 5..1. F_Score bins `rank(method='first')` of
   Frequency. M_Score bins Monetary. RFM_Score is the three digits as text.
5. **Segments and actions** (`Segments`). `segment_customer` is modelled as an ordered
   decision list, and the Suggested Action map as a lookup that may miss.
6. **Derived views** (`Summary`). These are the per-segment customer counts sorted by
   count, and the customers with positive Monetary.
7. **The run** (`Pipeline.Run`). It chains the steps and stops with the column error or
   with the first qcut error.

Modelling choices:
- Invoice dates are parsed timestamps in whole seconds. Recency divides by 86400 and
  rounds down, as `Timedelta.days` does for a non-negative span.
- Money is in integer cents.
- Customer ids are integers.

What `app.py` does at the points where one might expect otherwise:
- **When qcut fails.** `pd.qcut` raises only when the column is empty or two of its six
  quantile edges coincide. With the edges computed in exact arithmetic, that is
  `Quantiles.QcutFailsIffEdgesRepeat`. So qcut can succeed with fewer than five distinct
  values, and it always fails with fewer than two (`Quantiles.QcutNeedsTwoValues`).
  numpy's rounding can separate two edges that are equal in exact arithmetic, and then
  pandas bins a column that the model rejects (see "## Left out").
- **Which metrics are ranked.** Only Frequency is ranked before binning. Recency and
  Monetary are binned on their raw values.
- **Equal-sized bins.** Only F_Score has near-equal bin sizes, each value occurring
  within one of n/5 times (`Scoring.FScoreBinsNearEqual`). With raw values, ties can put
  many customers in one bin.

## Model

| member | source | states |
|---|---|---|
| Schema.CheckColumns | app.py:43-46 | the run may go on iff every required column is present; otherwise the reported set is non-empty and holds exactly the required columns that are absent |
| Schema.CheckDependsOnlyOnRequired | app.py:43-44 | two headers that agree on the five required columns get the same verdict, so optional and extra columns never matter |
| Transactions.Enrich | app.py:51-53 | defines a kept row: its CustomerID as the key and TotalPrice = Quantity * UnitPrice; `Transactions.Clean` and `Transactions.CleanKeepsExactlyIdentified` state its use |
| Transactions.Clean | app.py:50-53 | cleaning never adds rows, and every kept row's TotalPrice is Quantity * UnitPrice |
| Transactions.CleanConcat | app.py:50 | dropna works row by row: cleaning a concatenation is the concatenation of the cleaned parts, so order is kept |
| Transactions.CleanKeepsExactlyIdentified | app.py:50-53 | a transaction is in the cleaned table iff it comes from an input row that has a CustomerID |
| Transactions.CleanSize | app.py:50 | the cleaned table has exactly as many rows as the input has rows with a CustomerID |
| Aggregation.MaxDate | app.py:56 | defines `df['InvoiceDate'].max()`; `Aggregation.MaxDateIsLatest` states that it bounds and attains every date |
| Aggregation.ReferenceDate | app.py:56 | defines the reference date as the maximum date plus one day; `Aggregation.RecencyAtLeastOneDay` states what follows |
| Aggregation.LastDate | app.py:58 | defines a customer's `x.max()`; `Aggregation.LastDateIsLatest` states that it bounds and attains the customer's dates |
| Aggregation.Recency | app.py:58 | defines `(rfm_ref_date - x.max()).days` as whole days, rounded down; `Aggregation.RecencyAtLeastOneDay` and `Aggregation.RecencyOrder` state its bounds and order |
| Aggregation.Invoices | app.py:59 | defines the set of a customer's invoice numbers, whose size is `nunique`; `Aggregation.InvoicesExactly` states its members |
| Aggregation.Spend | app.py:60 | defines the sum of a customer's TotalPrice; `Aggregation.SpendConcat` and `Aggregation.SpendOrderFree` state that it adds up row by row, in any order |
| Aggregation.Latest | app.py:56 | the loop returns an invoice date that no row exceeds, and it equals the specified maximum date |
| Aggregation.Accumulate | app.py:57-61 | the one-pass loop yields running totals for exactly the customers present, each equal to that customer's specified totals, and their keys in strictly ascending order |
| Aggregation.Customers | app.py:57 | defines the set of groupby keys of the cleaned rows; `Aggregation.CustomersExactly` states its members |
| Aggregation.RowFor | app.py:57-62 | defines the row groupby produces for one customer: its Recency, nunique Frequency and summed Monetary; `Aggregation.Aggregate` and `Aggregation.RfmTableUnique` state that the table holds exactly these rows |
| Aggregation.Aggregate | app.py:57-62 | the produced table is the RFM table of the rows: ascending unique ids, every customer present, each row carrying that customer's Recency, Frequency and Monetary |
| Aggregation.CustomersExactly | app.py:57 | a customer is grouped iff some cleaned row carries its id |
| Aggregation.InvoicesExactly | app.py:59 | an invoice number counts toward a customer's Frequency iff some row of that customer carries it |
| Aggregation.FrequencyPositive | app.py:59 | every customer has Frequency at least 1 |
| Aggregation.LastDateIsLatest | app.py:58 | a customer's last date bounds all of its invoice dates and is one of them |
| Aggregation.MaxDateIsLatest | app.py:56 | the maximum date bounds every invoice date and is one of them |
| Aggregation.RecencyAtLeastOneDay | app.py:56-58 | with the reference date one day after the latest invoice, every Recency is at least 1 |
| Aggregation.RecencyOrder | app.py:56-58 | a later last invoice never gives a larger Recency, and a last invoice at least a day later gives a strictly smaller one |
| Aggregation.SpendConcat | app.py:60 | Monetary of a concatenation of rows is the sum of the parts' Monetary |
| Aggregation.SpendOrderFree | app.py:60 | Monetary does not depend on which of two blocks of rows comes first |
| Aggregation.OneRowPerCustomer | app.py:57-62 | an RFM table has exactly one row per distinct customer |
| Aggregation.RfmTableUnique | app.py:57-62 | the RFM table of a set of rows is unique, so the aggregation result does not depend on how it is computed |
| Sequences.Sort | app.py:65-67 | the values qcut takes quantiles of are sorted and a permutation of the column |
| Sequences.SortedEnds | app.py:65-67 | the first and last of the sorted values bound every value of the column |
| Quantiles.ScaledQuantile | app.py:65-67 | defines numpy's linear-interpolation quantile at position p/5 of the sorted values, times 5; `Quantiles.IotaQuantile` states its value on 1..n |
| Quantiles.Edges | app.py:65-67 | there are six edges, and the outer ones are the first and the last of the sorted values (times 5) |
| Quantiles.SearchSorted | app.py:65-67 | searchsorted returns an index in range whose edge, when there is one, is at least the value |
| Quantiles.BinOf | app.py:65-67 | defines the bin of a value: searchsorted with side='left', and the lowest edge in bin 1 (include_lowest); `Quantiles.BinInRange` and `Quantiles.BinMonotone` state its range and order |
| Quantiles.BinInRange | app.py:65-67 | a value between the outer edges falls in one of bins 1..5 |
| Quantiles.SearchSortedMonotone | app.py:65-67 | searchsorted never returns a smaller index for a larger value |
| Quantiles.BinMonotone | app.py:65-67 | a larger value never falls in a lower bin |
| Quantiles.Qcut | app.py:65-67 | on success qcut gives one label per value, each one of the given labels, and it always fails on fewer than two values |
| Quantiles.QcutFailsIffEdgesRepeat | app.py:65-67 | qcut of an empty column raises EmptyColumn; otherwise it succeeds iff the quantile edges of the sorted values are distinct, and raises with those edges when they are not |
| Quantiles.BinOnSorted | app.py:65-67 | once sorted, binning succeeds iff the edges are distinct; on success each value gets the label of its bin 1..5, and on failure the error carries the edges |
| Quantiles.QcutIsBinOnSorted | app.py:65-67 | qcut of a non-empty column is the binning over its sorted copy, whose ends bound every value |
| Quantiles.BinOnSortedOrder | app.py:65-67 | binning over sorted values is monotone: with ascending labels a larger value gets a label at least as large, and with descending labels at most as large |
| Quantiles.QcutOrder | app.py:65-67 | qcut is monotone in the value for ascending labels and antitone for descending labels |
| Quantiles.QcutWithin | app.py:65-67 | labels within lo..hi give scores within lo..hi |
| Quantiles.QcutNeedsTwoValues | app.py:65-67 | a qcut that succeeds saw two different values |
| Quantiles.RankFirst | app.py:66 | rank(method='first') gives one rank per value |
| Quantiles.RankFirstOrder | app.py:66 | one value ranks below another iff it is smaller, or equal and earlier in the table |
| Quantiles.RanksArePositions | app.py:66 | ranks lie in 1..n and are distinct, so each position is used once |
| Quantiles.SortedRanks | app.py:66 | the sorted ranks are exactly 1, 2, ..., n |
| Quantiles.RankedQcutOrder | app.py:66 | with ascending labels, binning the ranks never gives a smaller label to a larger value, or to an equal value later in the table |
| Quantiles.IotaQuantile | app.py:66 | the interpolated quantile of 1..n at position p (times 5) is 5 + p |
| Quantiles.IotaEdges | app.py:66 | the edges of the ranks 1..n are the position edges 5 + k(n-1) |
| Quantiles.PositionEdgesUnique | app.py:66 | for n >= 2 the position edges are strictly increasing, so qcut of ranks never raises |
| Quantiles.BinOnPositions | app.py:66 | binning values in 1..n over 1..n succeeds and gives each value the label of its position bin |
| Quantiles.RankedQcut | app.py:66 | qcut of the ranks of at least two values succeeds, and the label of rank r is the label of bin PositionBin(r, n) |
| Quantiles.RankedBins | app.py:66 | with labels 1..5, the F score of a value is exactly its position bin |
| Quantiles.PositionBinAtMost | app.py:66 | rank r is in a bin at most k iff 5(r-1) <= k(n-1) |
| Quantiles.PositionBinInRange | app.py:66 | every rank 1..n falls in bin 1..5 |
| Quantiles.CumulativeBinCount | app.py:66 | among ranks 1..m, the number in bins at most k is min(m, 1 + floor(k(n-1)/5)) |
| Quantiles.CumulativeAll | app.py:66 | among ranks 1..n, exactly 1 + floor(k(n-1)/5) fall in bins at most k |
| Quantiles.BinSizeByCumulative | app.py:66 | the size of bin k is the difference of two cumulative counts |
| Quantiles.BinSizesNearEqual | app.py:66 | every bin of n ranks holds within one of n/5 values: n - 5 <= 5 * size <= n + 4 |
| Scoring.Scored | app.py:65-100 | defines one customer's full row: its metrics, three scores, RFM_Score, Segment and Suggested Action; `Scoring.ScoredIsWellScored` states its properties |
| Scoring.ScoredIsWellScored | app.py:68-100 | scores in 1..5 give a row whose RFM_Score reads back as those scores, whose Segment is the classification of the scores, and whose action is present |
| Scoring.Assemble | app.py:65-100 | each customer's row keeps its metrics and carries the given scores and what follows from them |
| Scoring.ScoreTable | app.py:65-100 | scoring succeeds iff the R, F and M qcuts all succeed, with one well-scored row per customer; otherwise it fails with the first qcut that raised, in the order Recency, Frequency, Monetary, naming its column; a table of at most one customer always fails |
| Scoring.RScores | app.py:65 | R scores lie in 1..5, one per customer, and a table of at most one customer fails |
| Scoring.FScoresOf | app.py:66 | F scores lie in 1..5, one per customer |
| Scoring.MScores | app.py:67 | M scores lie in 1..5, one per customer |
| Scoring.ScoreColumns | app.py:65-68 | a successful scoring takes each row's R, F and M from the three qcut columns |
| Scoring.RScoreOrder | app.py:65 | a larger Recency never gets a larger R_Score |
| Scoring.MScoreOrder | app.py:67 | a larger Monetary never gets a smaller M_Score |
| Scoring.FScoreOrder | app.py:66 | a larger Frequency, or an equal one later in the table, never gets a smaller F_Score |
| Scoring.ScoresFollowMetrics | app.py:65-67 | in a scored table all three scores follow their metrics in that way |
| Scoring.FScoresArePositionBins | app.py:66 | with at least two customers F scoring never fails, and each F_Score is the position bin of the customer's rank |
| Scoring.FScoreCountIsBinSize | app.py:66 | the number of customers with F_Score k is the size of position bin k |
| Scoring.FColumnNearEqual | app.py:66 | every F_Score value occurs within one of n/5 times |
| Scoring.FScoreBinsNearEqual | app.py:66 | in a scored table, every F_Score value occurs within one of n/5 times |
| Segments.Name | app.py:75-87 | defines the seven segment strings that segment_customer returns, which the action map and the groupby key on; `Segments.NamesDistinct` and `Segments.ActionsCoverSegments` state that they are distinct and all have actions |
| Segments.Classify | app.py:72-87 | rule by rule, the exact score triples that end in each of the seven segments once the earlier rules are taken into account, e.g. Champions iff r, f, m >= 4 |
| Segments.EverySegmentReachable | app.py:72-87 | each of the seven segments is produced by some score triple in 1..5, Others by (3, 3, 2) among them |
| Segments.NamesDistinct | app.py:74-87 | the seven segment names are pairwise different |
| Segments.SuggestedAction | app.py:92-100 | defines `Series.map` with the action table, missing (NaN) for a name not in it; `Segments.ActionsCoverSegments` states that no segment misses |
| Segments.ActionsCoverSegments | app.py:92-100 | the action map has an entry for every segment name and names no other segment |
| Segments.RfmScore | app.py:68 | defines `astype(str)` of the three scores, concatenated; `Segments.RfmScoreRoundTrip` states that it is three digits that parse back |
| Segments.RfmScoreRoundTrip | app.py:68 | for scores in 1..5, RFM_Score is three digits in R, F, M order and parses back to the scores |
| Summary.CountOf | app.py:141-145 | a segment's count never exceeds the number of customers |
| Summary.GroupOrderIsByName | app.py:141 | groupby lists segment groups in ascending order of their names |
| Summary.GroupOrderComplete | app.py:141 | the group order lists every segment exactly once |
| Summary.Groups | app.py:141-145 | defines groupby("Segment") with its counts, in group order; `Summary.GroupsExactly`, `Summary.GroupsDistinct` and `Summary.GroupsTotal` state its entries |
| Summary.SortByCount | app.py:146 | defines `sort_values(by="Count", ascending=False)` as an insertion sort; `Summary.SortByCountProperties` states its result |
| Summary.SegmentSummary | app.py:141-146 | defines the Count column of the segment summary; `Summary.SummaryEntries`, `Summary.SummaryShape` and `Summary.SummaryTotal` state its entries, order and total |
| Summary.InsertByCountMembers | app.py:146 | inserting an entry adds it and keeps the others, the length and the total |
| Summary.InsertByCountSorted | app.py:146 | inserting into counts that descend keeps them descending |
| Summary.InsertByCountDistinct | app.py:146 | inserting a new segment keeps the segments distinct |
| Summary.SortByCountProperties | app.py:146 | sorting by count gives descending counts, the same entries, the same length and total, and keeps segments distinct |
| Summary.GroupsExactly | app.py:141-145 | an entry is a group iff its segment is listed, occurs among the customers, and has that many customers |
| Summary.GroupsDistinct | app.py:141 | each segment forms at most one group |
| Summary.GroupsTotal | app.py:145 | the group counts add up to the customers whose segment is listed |
| Summary.CountInAll | app.py:141-145 | every customer belongs to one listed segment |
| Summary.SummaryEntries | app.py:141-146 | the summary has an entry for a segment exactly when some customer has it, holding that segment's customer count |
| Summary.SummaryShape | app.py:141-146 | the summary's counts descend and no segment appears twice |
| Summary.SummaryTotal | app.py:141-146 | the summary's counts add up to the number of customers |
| Summary.PositiveMonetary | app.py:171 | the filter keeps exactly the customers with Monetary > 0 and never adds rows |
| Summary.PositiveMonetaryIdempotent | app.py:171 | filtering twice is filtering once |
| Summary.PositiveMonetaryConcat | app.py:171 | the filter works row by row and keeps the table's order |
| Pipeline.ScoringKeepsCustomers | app.py:57-68 | rows scored from the RFM table are one per customer, in ascending id order, with that customer's metrics and scores in 1..5 |
| Pipeline.Run | app.py:43-100 | missing columns stop the run and name exactly those; otherwise the result is the scoring of the rows' one RFM table; a successful run gives one row per customer with its metrics and scores; one customer or none always ends in a scoring error |

## Left out

- The Streamlit page, file upload, CSV reading and the cached default loader (app.py:9-40) are I/O and UI. `Pipeline.Run` takes the header and the parsed rows as parameters.
- `pd.to_datetime` (app.py:52) is a library parser. Rows arrive with integer timestamps in seconds, and the model has no date-parse error.
- `astype(int)` of CustomerID (app.py:51) is not modelled: ids arrive as integers, and the float-to-int truncation is left out.
- Missing values are modelled only for CustomerID. InvoiceNo, InvoiceDate, Quantity and UnitPrice are never missing in the model. In app.py:
  - `nunique` skips an empty InvoiceNo, so a customer whose InvoiceNo cells are all empty gets Frequency 0 (app.py:59). `Aggregation.FrequencyPositive` does not cover that case.
  - An empty Quantity or UnitPrice makes TotalPrice NaN, and `sum` skips it (app.py:53, 60).
  - `to_datetime` turns an empty date into NaT, and `max()` skips it (app.py:52, 56, 58). A customer whose dates are all NaT gets a NaN Recency, and `.astype(int)` of the R_Score column then fails (app.py:65).
- Floating-point arithmetic is left out. Money is in integer cents, so TotalPrice is exact. The segment summary's mean Recency, Frequency and Monetary, and its two-decimal formatting (app.py:142-147), are not modelled; only the counts are.
- Quantiles.Qcut: the edges are exact, whereas numpy computes the interpolated quantiles in double precision. That changes results in two ways:
  - The model raises `DuplicateEdges` on some columns that pandas bins without error. In double precision `np.linspace(0, 1, 6)[3]` is 0.6000000000000001, so when n - 1 is a multiple of 5 the 60% edge can pick up a tiny fraction of the next gap. That can split two edges that are equal in exact arithmetic.
  - For example, take six customers with six different Recency values and with Monetary 1, 5, 10, 10, 1000 and 2000. pandas gets the edges 1, 5, 10, 10.00000000000044, 1000 and 2000, which are distinct, and bins the column. The model, on the same values in cents, works on the column [100, 500, 1000, 1000, 100000, 200000]. Its third and fourth scaled edges are both 5 × 1000 = 5000, taken from positions 2 and 3 of the sorted column. So `Quantiles.Qcut` returns `DuplicateEdges`, and `Scoring.ScoreTable` and `Pipeline.Run` fail with "Monetary".
  - For huge values, a value may also compare differently with a rounded edge.
- Summary.SegmentSummary: for equal counts, the model puts an entry before those it ties with. pandas' default quicksort leaves that order unspecified, so only the descending counts and the entries are stated.
- Quantiles.Qcut: for an empty column the model raises EmptyColumn. That happens only when no row has a CustomerID, and what pandas does there is not modelled.
- The Country merge (app.py:103-104) is left out: with several countries per customer it can duplicate rows, and which country is kept is unspecified.
- All plotting is left out (app.py:116-137, 154-179).
- Scoring.RScores: no near-equal bin sizes are stated. Recency is binned on raw values, and ties can put many customers in one bin.
- Scoring.MScores: no near-equal bin sizes are stated, for the same reason.
- Aggregation.RecencyOrder: a later last invoice gives a strictly smaller Recency only when it is at least a day later, because Recency counts whole days.
- Summary.PositiveMonetary: that the full table is unchanged is not stated as a contract. Tables are values, so the filter cannot change its argument.
