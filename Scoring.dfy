/** The score, segment and action columns added to the aggregated table (app.py, lines 65-100). */
module Scoring {
  import opened Wrappers
  import opened Sequences
  import opened Quantiles
  import opened Segments
  import opened Aggregation

  /** qcut labels: Recency reversed, so the most recent customers score 5. */
  const RecencyLabels: seq<int> := [5, 4, 3, 2, 1]
  const ScoreLabels: seq<int> := [1, 2, 3, 4, 5]

  /** A row of the final RFM table (the Country column is not modelled). */
  datatype CustomerRow = CustomerRow(
    customerId: int,
    recency: int,
    frequency: int,
    monetary: int,
    rScore: int,
    fScore: int,
    mScore: int,
    rfmScore: string,
    segment: Segment,
    action: Option<string>)

  /** The qcut of the named column raised. */
  datatype ScoreError = ScoreError(column: string, cause: QcutError)

  function Recencies(table: seq<CustomerRfm>): (v: seq<int>)
    ensures |v| == |table| && forall i :: 0 <= i < |table| ==> v[i] == table[i].recency
  {
    seq(|table|, i requires 0 <= i < |table| => table[i].recency)
  }

  function Frequencies(table: seq<CustomerRfm>): (v: seq<int>)
    ensures |v| == |table| && forall i :: 0 <= i < |table| ==> v[i] == table[i].frequency
  {
    seq(|table|, i requires 0 <= i < |table| => table[i].frequency)
  }

  function Monetaries(table: seq<CustomerRfm>): (v: seq<int>)
    ensures |v| == |table| && forall i :: 0 <= i < |table| ==> v[i] == table[i].monetary
  {
    seq(|table|, i requires 0 <= i < |table| => table[i].monetary)
  }

  /** The full row of one customer once the three scores are known. */
  function Scored(c: CustomerRfm, r: int, f: int, m: int): CustomerRow
  {
    var segment := Classify(r, f, m);
    CustomerRow(c.customerId, c.recency, c.frequency, c.monetary, r, f, m,
                RfmScore(r, f, m), segment, SuggestedAction(Name(segment)))
  }

  /** The customer's row carries its aggregate, three scores in 1..5 and what follows from them. */
  predicate WellScored(c: CustomerRfm, row: CustomerRow)
  {
    row.customerId == c.customerId && row.recency == c.recency
    && row.frequency == c.frequency && row.monetary == c.monetary
    && 1 <= row.rScore <= 5 && 1 <= row.fScore <= 5 && 1 <= row.mScore <= 5
    && |row.rfmScore| == 3 && ParseRfmScore(row.rfmScore) == Some((row.rScore, row.fScore, row.mScore))
    && row.segment == Classify(row.rScore, row.fScore, row.mScore)
    && row.action.Some?
  }

  lemma ScoredIsWellScored(c: CustomerRfm, r: int, f: int, m: int)
    requires 1 <= r <= 5 && 1 <= f <= 5 && 1 <= m <= 5
    ensures WellScored(c, Scored(c, r, f, m))
  {
    RfmScoreRoundTrip(r, f, m);
    ActionsCoverSegments(Classify(r, f, m), "");
  }

  /** Puts each customer's three scores next to its aggregate. */
  function Assemble(table: seq<CustomerRfm>, rs: seq<int>, fs: seq<int>, ms: seq<int>): (rows: seq<CustomerRow>)
    requires |rs| == |fs| == |ms| == |table|
    requires forall i :: 0 <= i < |table| ==> 1 <= rs[i] <= 5 && 1 <= fs[i] <= 5 && 1 <= ms[i] <= 5
    ensures |rows| == |table|
    ensures forall i :: 0 <= i < |table| ==>
      WellScored(table[i], rows[i]) && rows[i].rScore == rs[i] && rows[i].fScore == fs[i] && rows[i].mScore == ms[i]
  {
    var rows := seq(|table|, i requires 0 <= i < |table| => Scored(table[i], rs[i], fs[i], ms[i]));
    assert forall i :: 0 <= i < |table| ==> WellScored(table[i], rows[i]) by {
      forall i | 0 <= i < |table| ensures WellScored(table[i], rows[i]) {
        ScoredIsWellScored(table[i], rs[i], fs[i], ms[i]);
      }
    }
    rows
  }

  /**
   * Scores the aggregated table: R_Score, F_Score (on the first-occurrence ranks of
   * Frequency) and M_Score by qcut, in that order, then RFM_Score, Segment and
   * Suggested Action. Fails with the first qcut that raises.
   */
  function ScoreTable(table: seq<CustomerRfm>): (r: Result<seq<CustomerRow>, ScoreError>)
    ensures r.Ok? ==> |r.value| == |table|
    ensures r.Ok? ==> forall i :: 0 <= i < |table| ==> WellScored(table[i], r.value[i])
    ensures |table| <= 1 ==> r.Err?
    ensures r.Err? ==> r.error.column in {"Recency", "Frequency", "Monetary"}
    ensures r.Ok? <==> RScores(table).Ok? && FScoresOf(table).Ok? && MScores(table).Ok?
    ensures RScores(table).Err? ==> r == Err(ScoreError("Recency", RScores(table).error))
    ensures RScores(table).Ok? && FScoresOf(table).Err? ==>
      r == Err(ScoreError("Frequency", FScoresOf(table).error))
    ensures RScores(table).Ok? && FScoresOf(table).Ok? && MScores(table).Err? ==>
      r == Err(ScoreError("Monetary", MScores(table).error))
  {
    var rq := RScores(table);
    if rq.Err? then Err(ScoreError("Recency", rq.error))
    else
      var fq := FScoresOf(table);
      if fq.Err? then Err(ScoreError("Frequency", fq.error))
      else
        var mq := MScores(table);
        if mq.Err? then Err(ScoreError("Monetary", mq.error))
        else Ok(Assemble(table, rq.value, fq.value, mq.value))
  }

  /** R_Score: qcut of Recency with labels 5..1. */
  function RScores(table: seq<CustomerRfm>): (r: Result<seq<int>, QcutError>)
    ensures r.Ok? ==> |r.value| == |table| && forall i :: 0 <= i < |table| ==> 1 <= r.value[i] <= 5
    ensures |table| <= 1 ==> r.Err?
  {
    QcutWithin(Recencies(table), RecencyLabels, 1, 5);
    Qcut(Recencies(table), RecencyLabels)
  }

  /** F_Score: qcut of the first-occurrence ranks of Frequency with labels 1..5. */
  function FScoresOf(table: seq<CustomerRfm>): (r: Result<seq<int>, QcutError>)
    ensures r.Ok? ==> |r.value| == |table| && forall i :: 0 <= i < |table| ==> 1 <= r.value[i] <= 5
  {
    QcutWithin(RankFirst(Frequencies(table)), ScoreLabels, 1, 5);
    Qcut(RankFirst(Frequencies(table)), ScoreLabels)
  }

  /** M_Score: qcut of Monetary with labels 1..5. */
  function MScores(table: seq<CustomerRfm>): (r: Result<seq<int>, QcutError>)
    ensures r.Ok? ==> |r.value| == |table| && forall i :: 0 <= i < |table| ==> 1 <= r.value[i] <= 5
  {
    QcutWithin(Monetaries(table), ScoreLabels, 1, 5);
    Qcut(Monetaries(table), ScoreLabels)
  }

  /** A scored table holds exactly the three qcut columns. */
  lemma ScoreColumns(table: seq<CustomerRfm>)
    requires ScoreTable(table).Ok?
    ensures RScores(table).Ok? && FScoresOf(table).Ok? && MScores(table).Ok?
    ensures forall i :: 0 <= i < |table| ==>
      ScoreTable(table).value[i].rScore == RScores(table).value[i]
      && ScoreTable(table).value[i].fScore == FScoresOf(table).value[i]
      && ScoreTable(table).value[i].mScore == MScores(table).value[i]
  {
  }

  /** A smaller Recency never scores lower. */
  lemma RScoreOrder(table: seq<CustomerRfm>, i: nat, j: nat)
    requires RScores(table).Ok? && i < |table| && j < |table|
    requires table[i].recency <= table[j].recency
    ensures RScores(table).value[j] <= RScores(table).value[i]
  {
    assert Descending(RecencyLabels);
    QcutOrder(Recencies(table), RecencyLabels, i, j);
  }

  /** A larger Monetary never scores lower. */
  lemma MScoreOrder(table: seq<CustomerRfm>, i: nat, j: nat)
    requires MScores(table).Ok? && i < |table| && j < |table|
    requires table[i].monetary <= table[j].monetary
    ensures MScores(table).value[i] <= MScores(table).value[j]
  {
    assert Ascending(ScoreLabels);
    QcutOrder(Monetaries(table), ScoreLabels, i, j);
  }

  /**
   * F_Score never decreases along Frequency; between equal frequencies the earlier
   * customer (the smaller id) ranks first and never scores higher.
   */
  lemma FScoreOrder(table: seq<CustomerRfm>, i: nat, j: nat)
    requires FScoresOf(table).Ok? && i < |table| && j < |table|
    requires table[i].frequency < table[j].frequency || (table[i].frequency == table[j].frequency && i <= j)
    ensures FScoresOf(table).value[i] <= FScoresOf(table).value[j]
  {
    assert Ascending(ScoreLabels);
    RankedQcutOrder(Frequencies(table), ScoreLabels, i, j);
  }

  /**
   * The scores follow the metrics: a smaller Recency never scores lower, a larger Monetary
   * never scores lower, and a larger Frequency never scores lower (equal frequencies go
   * by first occurrence).
   */
  lemma ScoresFollowMetrics(table: seq<CustomerRfm>, i: nat, j: nat)
    requires ScoreTable(table).Ok? && i < |table| && j < |table|
    ensures var rows := ScoreTable(table).value;
      (table[i].recency <= table[j].recency ==> rows[j].rScore <= rows[i].rScore)
      && (table[i].monetary <= table[j].monetary ==> rows[i].mScore <= rows[j].mScore)
      && (table[i].frequency < table[j].frequency ==> rows[i].fScore <= rows[j].fScore)
      && (table[i].frequency == table[j].frequency && i <= j ==> rows[i].fScore <= rows[j].fScore)
  {
    ScoreColumns(table);
    if table[i].recency <= table[j].recency {
      RScoreOrder(table, i, j);
    }
    if table[i].monetary <= table[j].monetary {
      MScoreOrder(table, i, j);
    }
    if table[i].frequency < table[j].frequency || (table[i].frequency == table[j].frequency && i <= j) {
      FScoreOrder(table, i, j);
    }
  }

  /** The F_Score column. */
  function FScoreColumn(rows: seq<CustomerRow>): (v: seq<int>)
    ensures |v| == |rows| && forall i :: 0 <= i < |rows| ==> v[i] == rows[i].fScore
  {
    seq(|rows|, i requires 0 <= i < |rows| => rows[i].fScore)
  }

  /** Each F_Score is the bin of the customer's first-occurrence rank among the positions 1..n. */
  lemma FScoresArePositionBins(table: seq<CustomerRfm>)
    requires |table| >= 2
    ensures FScoresOf(table).Ok?
    ensures forall i :: 0 <= i < |table| ==>
      FScoresOf(table).value[i] == PositionBin(RankFirst(Frequencies(table))[i], |table|)
  {
    RankedBins(Frequencies(table), ScoreLabels);
  }

  /** The customers with F_Score k are as many as the positions 1..n in bin k. */
  lemma FScoreCountIsBinSize(table: seq<CustomerRfm>, k: int)
    requires |table| >= 2
    ensures FScoresOf(table).Ok?
    ensures CountIf(FScoresOf(table).value, x => x == k) == BinSize(|table|, k)
  {
    var n := |table|;
    var ranks := RankFirst(Frequencies(table));
    FScoresArePositionBins(table);
    var inBin := (x: int) => PositionBin(x, n) == k;
    CountIfCorrespondence(FScoresOf(table).value, ranks, x => x == k, inBin);
    SortedRanks(Frequencies(table));
    CountIfPermutation(ranks, Iota(n), inBin);
  }

  /** The F_Score qcut puts every score 1..5 on within one of n / 5 of the n customers. */
  lemma FColumnNearEqual(table: seq<CustomerRfm>, k: int)
    requires |table| >= 2 && 1 <= k <= 5
    ensures FScoresOf(table).Ok?
    ensures var n := |table|;
      n - 5 <= 5 * CountIf(FScoresOf(table).value, x => x == k) <= n + 4
  {
    FScoreCountIsBinSize(table, k);
    BinSizesNearEqual(|table|, k);
  }

  /**
   * Because Frequency is ranked before binning, F_Score is equal-frequency: every score
   * 1..5 goes to within one of n / 5 of the n customers.
   */
  lemma FScoreBinsNearEqual(table: seq<CustomerRfm>, k: int)
    requires ScoreTable(table).Ok? && 1 <= k <= 5
    ensures var n, fs := |table|, FScoreColumn(ScoreTable(table).value);
      n - 5 <= 5 * CountIf(fs, x => x == k) <= n + 4
  {
    ScoreColumns(table);
    FScoresColumn(ScoreTable(table).value, FScoresOf(table).value);
    FColumnNearEqual(table, k);
  }

  /** The F_Score column of rows whose F scores are fs, in order, is fs. */
  lemma FScoresColumn(rows: seq<CustomerRow>, fs: seq<int>)
    requires |rows| == |fs| && forall i :: 0 <= i < |rows| ==> rows[i].fScore == fs[i]
    ensures FScoreColumn(rows) == fs
  {
  }
}
