/** Transaction rows and the preprocessing step (app.py, lines 50-53). */
module Transactions {
  import opened Wrappers

  /**
   * A row of the uploaded table once its date is parsed: the invoice date is a
   * timestamp in seconds, the unit price is in cents, and the customer may be absent.
   */
  datatype RawRow = RawRow(
    invoiceNo: string,
    quantity: int,
    unitPrice: int,
    invoiceDate: int,
    customerId: Option<int>)

  /** A row kept by preprocessing: it has a customer and its line revenue. */
  datatype Txn = Txn(
    invoiceNo: string,
    quantity: int,
    unitPrice: int,
    invoiceDate: int,
    customerId: int,
    totalPrice: int)

  /** The row with its customer key and TotalPrice column. */
  function Enrich(row: RawRow): Txn
    requires row.customerId.Some?
  {
    Txn(row.invoiceNo, row.quantity, row.unitPrice, row.invoiceDate,
        row.customerId.value, row.quantity * row.unitPrice)
  }

  /**
   * Drops the rows without a customer and adds TotalPrice = Quantity * UnitPrice to the
   * others, keeping their order. Negative totals (returns) are kept.
   */
  function Clean(raw: seq<RawRow>): (txns: seq<Txn>)
    ensures |txns| <= |raw|
    ensures forall t :: t in txns ==> t.totalPrice == t.quantity * t.unitPrice
  {
    if raw == [] then []
    else
      var last := raw[|raw| - 1];
      Clean(raw[..|raw| - 1]) + (if last.customerId.Some? then [Enrich(last)] else [])
  }

  /** Number of rows that carry a customer. */
  function CountIdentified(raw: seq<RawRow>): nat
  {
    if raw == [] then 0
    else CountIdentified(raw[..|raw| - 1]) + (if raw[|raw| - 1].customerId.Some? then 1 else 0)
  }

  /** Cleaning a concatenation cleans each part: rows are judged one at a time, in order. */
  lemma {:induction false} CleanConcat(a: seq<RawRow>, b: seq<RawRow>)
    ensures Clean(a + b) == Clean(a) + Clean(b)
    decreases |b|
  {
    if b == [] {
      assert a + b == a;
    } else {
      var b' := b[..|b| - 1];
      assert (a + b)[..|a + b| - 1] == a + b';
      CleanConcat(a, b');
    }
  }

  /** Exactly the rows with a customer survive, each enriched with its TotalPrice. */
  lemma {:induction false} CleanKeepsExactlyIdentified(raw: seq<RawRow>, t: Txn)
    ensures t in Clean(raw) <==>
      exists i :: 0 <= i < |raw| && raw[i].customerId.Some? && t == Enrich(raw[i])
  {
    if raw != [] {
      var init := raw[..|raw| - 1];
      CleanKeepsExactlyIdentified(init, t);
      if t in Clean(raw) {
        if t in Clean(init) {
          var i :| 0 <= i < |init| && init[i].customerId.Some? && t == Enrich(init[i]);
          assert raw[i] == init[i];
        }
      }
      if exists i :: 0 <= i < |raw| && raw[i].customerId.Some? && t == Enrich(raw[i]) {
        var i :| 0 <= i < |raw| && raw[i].customerId.Some? && t == Enrich(raw[i]);
        if i < |init| {
          assert init[i] == raw[i];
        }
      }
    }
  }

  /** Preprocessing keeps as many rows as there are rows with a customer. */
  lemma {:induction false} CleanSize(raw: seq<RawRow>)
    ensures |Clean(raw)| == CountIdentified(raw)
  {
    if raw != [] {
      CleanSize(raw[..|raw| - 1]);
    }
  }
}
