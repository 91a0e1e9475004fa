/**
 * One run of the RFM script over an uploaded table (app.py, lines 43-100): check the
 * columns, clean the rows, aggregate per customer, then score, segment and recommend.
 */
module Pipeline {
  import opened Wrappers
  import opened Schema
  import opened Transactions
  import opened Aggregation
  import opened Scoring

  /** Why a run stops: the header lacks required columns, or a qcut raises. */
  datatype RunError = ColumnsMissing(missing: set<string>) | ScoringFailed(cause: ScoreError)

  /** The rows of a customer table are ordered by customer and carry its metrics and scores. */
  predicate ScoredRowsOf(txns: seq<Txn>, rows: seq<CustomerRow>)
  {
    |rows| == |Customers(txns)|
    && (forall i, j :: 0 <= i < j < |rows| ==> rows[i].customerId < rows[j].customerId)
    && forall i :: 0 <= i < |rows| ==>
      rows[i].customerId in Customers(txns)
      && rows[i].recency == Recency(txns, rows[i].customerId)
      && rows[i].frequency == |Invoices(txns, rows[i].customerId)|
      && rows[i].monetary == Spend(txns, rows[i].customerId)
      && 1 <= rows[i].rScore <= 5 && 1 <= rows[i].fScore <= 5 && 1 <= rows[i].mScore <= 5
  }

  /** Rows scored from the aggregated table, one per row, keep one row per customer with its metrics. */
  lemma ScoringKeepsCustomers(txns: seq<Txn>, table: seq<CustomerRfm>, rows: seq<CustomerRow>)
    requires IsRfmTableOf(txns, table)
    requires |rows| == |table| && forall i :: 0 <= i < |table| ==> WellScored(table[i], rows[i])
    ensures ScoredRowsOf(txns, rows)
  {
    OneRowPerCustomer(txns, table);
    forall i, j | 0 <= i < j < |rows| ensures rows[i].customerId < rows[j].customerId {
      assert Ids(table)[i] < Ids(table)[j];
    }
  }

  /**
   * Runs the pipeline. A run with missing columns stops naming exactly those columns; a
   * run with all columns scores the one aggregated table of the cleaned rows, and on
   * success yields one row per customer, in ascending customer order, carrying that
   * customer's Recency, Frequency and Monetary and scores in 1..5.
   */
  method Run(columns: seq<string>, raw: seq<RawRow>) returns (result: Result<seq<CustomerRow>, RunError>)
    ensures CheckColumns(columns).MissingColumns? ==>
      result == Err(ColumnsMissing(CheckColumns(columns).missing))
    ensures CheckColumns(columns).Complete? ==>
      exists table :: IsRfmTableOf(Clean(raw), table)
        && (result.Ok? <==> ScoreTable(table).Ok?)
        && (result.Ok? ==> result.value == ScoreTable(table).value)
        && (result.Err? ==> result.error == ScoringFailed(ScoreTable(table).error))
    ensures result.Ok? ==> ScoredRowsOf(Clean(raw), result.value)
    ensures CheckColumns(columns).Complete? && |Customers(Clean(raw))| <= 1 ==>
      result.Err? && result.error.ScoringFailed?
  {
    var check := CheckColumns(columns);
    if check.MissingColumns? {
      return Err(ColumnsMissing(check.missing));
    }
    var txns := Clean(raw);
    var table := Aggregate(txns);
    OneRowPerCustomer(txns, table);
    var scored := ScoreTable(table);
    if scored.Err? {
      return Err(ScoringFailed(scored.error));
    }
    ScoringKeepsCustomers(txns, table, scored.value);
    result := Ok(scored.value);
  }
}
