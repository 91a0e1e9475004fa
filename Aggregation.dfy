/** The per-customer aggregation of the cleaned rows (app.py, lines 56-62). */
module Aggregation {
  import opened Sequences
  import opened Transactions

  /** Length of a day in the timestamps' unit (seconds). */
  const SecondsPerDay := 86400

  // ----- Specification: what groupby computes for each customer -----

  /** The customers that occur in the rows. */
  function Customers(txns: seq<Txn>): set<int>
  {
    if txns == [] then {}
    else Customers(txns[..|txns| - 1]) + {txns[|txns| - 1].customerId}
  }

  /** The distinct invoice numbers of customer c. */
  function Invoices(txns: seq<Txn>, c: int): set<string>
  {
    if txns == [] then {}
    else
      var t := txns[|txns| - 1];
      Invoices(txns[..|txns| - 1], c) + (if t.customerId == c then {t.invoiceNo} else {})
  }

  /** The sum of customer c's TotalPrice. */
  function Spend(txns: seq<Txn>, c: int): int
  {
    if txns == [] then 0
    else
      var t := txns[|txns| - 1];
      Spend(txns[..|txns| - 1], c) + (if t.customerId == c then t.totalPrice else 0)
  }

  /** The latest invoice date of customer c. */
  function LastDate(txns: seq<Txn>, c: int): int
    requires c in Customers(txns)
  {
    var init, t := txns[..|txns| - 1], txns[|txns| - 1];
    if t.customerId != c then LastDate(init, c)
    else if c in Customers(init) && t.invoiceDate < LastDate(init, c) then LastDate(init, c)
    else t.invoiceDate
  }

  /** The latest invoice date over all rows. */
  function MaxDate(txns: seq<Txn>): int
    requires txns != []
  {
    var init, t := txns[..|txns| - 1], txns[|txns| - 1];
    if init != [] && t.invoiceDate < MaxDate(init) then MaxDate(init) else t.invoiceDate
  }

  /** The reference date shared by every customer: one day after the latest invoice. */
  function ReferenceDate(txns: seq<Txn>): int
    requires txns != []
  {
    MaxDate(txns) + SecondsPerDay
  }

  /** Whole days from customer c's latest invoice to the reference date (Timedelta.days). */
  function Recency(txns: seq<Txn>, c: int): int
    requires c in Customers(txns)
  {
    (ReferenceDate(txns) - LastDate(txns, c)) / SecondsPerDay
  }

  /** One row of the aggregated table. */
  datatype CustomerRfm = CustomerRfm(customerId: int, recency: int, frequency: int, monetary: int)

  /** The row the aggregation must produce for customer c. */
  function RowFor(txns: seq<Txn>, c: int): CustomerRfm
    requires c in Customers(txns)
  {
    CustomerRfm(c, Recency(txns, c), |Invoices(txns, c)|, Spend(txns, c))
  }

  /** The customer column of a table. */
  function Ids(table: seq<CustomerRfm>): (ids: seq<int>)
    ensures |ids| == |table|
    ensures forall i :: 0 <= i < |table| ==> ids[i] == table[i].customerId
  {
    seq(|table|, i requires 0 <= i < |table| => table[i].customerId)
  }

  /**
   * table is the result of the groupby over txns: one row per customer, in ascending
   * customer order (groupby sorts its keys), each holding that customer's metrics.
   */
  predicate IsRfmTableOf(txns: seq<Txn>, table: seq<CustomerRfm>)
  {
    StrictlyIncreasing(Ids(table))
    && (forall c :: c in Customers(txns) ==> c in Ids(table))
    && forall i :: 0 <= i < |table| ==>
         table[i].customerId in Customers(txns) && table[i] == RowFor(txns, table[i].customerId)
  }

  // ----- The aggregation -----

  /** Running per-customer totals. */
  datatype Acc = Acc(last: int, invoices: set<string>, spend: int)

  /** Inserts a new key into a strictly increasing sequence of keys. */
  function InsertKey(ids: seq<int>, c: int): (r: seq<int>)
    requires StrictlyIncreasing(ids) && c !in ids
    ensures StrictlyIncreasing(r)
    ensures forall x :: x in r <==> x in ids || x == c
  {
    if ids == [] || c < ids[0] then [c] + ids
    else
      var rest := InsertKey(ids[1..], c);
      assert forall k :: 0 <= k < |rest| ==> ids[0] < rest[k] by {
        forall k | 0 <= k < |rest| ensures ids[0] < rest[k] {
          assert rest[k] in rest;
          if rest[k] != c {
            assert rest[k] in ids[1..];
            var m :| 0 <= m < |ids[1..]| && ids[1..][m] == rest[k];
            assert ids[m + 1] == rest[k];
          }
        }
      }
      [ids[0]] + rest
  }

  /** What the aggregation keeps for customer c while it scans the rows. */
  function Totals(txns: seq<Txn>, c: int): Acc
    requires c in Customers(txns)
  {
    Acc(LastDate(txns, c), Invoices(txns, c), Spend(txns, c))
  }

  /** A customer who does not occur has no invoices and no spend. */
  lemma {:induction false} AbsentCustomer(txns: seq<Txn>, c: int)
    requires c !in Customers(txns)
    ensures Invoices(txns, c) == {} && Spend(txns, c) == 0
  {
    if txns != [] {
      AbsentCustomer(txns[..|txns| - 1], c);
    }
  }

  /** How one more row changes a customer's totals. */
  lemma TotalsStep(txns: seq<Txn>, i: nat, c: int)
    requires i < |txns| && c in Customers(txns[..i + 1])
    ensures Customers(txns[..i + 1]) == Customers(txns[..i]) + {txns[i].customerId}
    ensures var t, before := txns[i], txns[..i];
      Totals(txns[..i + 1], c) ==
        if c != t.customerId then Totals(before, c)
        else if c in Customers(before) then
          var a := Totals(before, c);
          Acc(if a.last < t.invoiceDate then t.invoiceDate else a.last,
              a.invoices + {t.invoiceNo}, a.spend + t.totalPrice)
        else Acc(t.invoiceDate, {t.invoiceNo}, t.totalPrice)
  {
    var p, before, t := txns[..i + 1], txns[..i], txns[i];
    assert p[..|p| - 1] == before && p[|p| - 1] == t;
    assert Invoices(p, c) == Invoices(before, c) + (if t.customerId == c then {t.invoiceNo} else {});
    assert Spend(p, c) == Spend(before, c) + (if t.customerId == c then t.totalPrice else 0);
    assert Customers(p) == Customers(before) + {t.customerId};
    if c != t.customerId {
      assert LastDate(p, c) == LastDate(before, c);
    } else if c in Customers(before) {
      assert LastDate(p, c) == if t.invoiceDate < LastDate(before, c) then LastDate(before, c) else t.invoiceDate;
    } else {
      AbsentCustomer(before, c);
    }
  }

  /** The latest invoice date of the rows (df['InvoiceDate'].max()). */
  method Latest(txns: seq<Txn>) returns (latest: int)
    requires txns != []
    ensures forall t :: t in txns ==> t.invoiceDate <= latest
    ensures latest == MaxDate(txns)
  {
    latest := txns[0].invoiceDate;
    var i := 1;
    assert txns[..1] == [txns[0]];
    while i < |txns|
      invariant 1 <= i <= |txns|
      invariant latest == MaxDate(txns[..i])
      invariant forall k :: 0 <= k < i ==> txns[k].invoiceDate <= latest
    {
      assert txns[..i + 1][..i] == txns[..i];
      if latest < txns[i].invoiceDate {
        latest := txns[i].invoiceDate;
      }
      i := i + 1;
    }
    assert txns[..|txns|] == txns;
  }

  /** Groups the rows by customer: latest date, distinct invoices and spend of each. */
  method Accumulate(txns: seq<Txn>) returns (acc: map<int, Acc>, ids: seq<int>)
    ensures acc.Keys == Customers(txns)
    ensures StrictlyIncreasing(ids) && forall c :: c in ids <==> c in acc
    ensures forall c :: c in acc ==> acc[c] == Totals(txns, c)
  {
    acc, ids := map[], [];
    var i := 0;
    while i < |txns|
      invariant 0 <= i <= |txns|
      invariant acc.Keys == Customers(txns[..i])
      invariant StrictlyIncreasing(ids) && forall c :: c in ids <==> c in acc
      invariant forall c :: c in acc ==> acc[c] == Totals(txns[..i], c)
    {
      var t := txns[i];
      assert txns[..i + 1][..i] == txns[..i];
      if t.customerId in acc {
        var a := acc[t.customerId];
        var last := if a.last < t.invoiceDate then t.invoiceDate else a.last;
        acc := acc[t.customerId := Acc(last, a.invoices + {t.invoiceNo}, a.spend + t.totalPrice)];
      } else {
        ids := InsertKey(ids, t.customerId);
        acc := acc[t.customerId := Acc(t.invoiceDate, {t.invoiceNo}, t.totalPrice)];
      }
      forall c | c in acc ensures acc[c] == Totals(txns[..i + 1], c) {
        TotalsStep(txns, i, c);
      }
      i := i + 1;
    }
    assert txns[..|txns|] == txns;
  }

  /**
   * The groupby of app.py: computes the reference date, groups the rows by customer, and
   * returns the aggregated table in ascending customer order.
   */
  method Aggregate(txns: seq<Txn>) returns (table: seq<CustomerRfm>)
    ensures IsRfmTableOf(txns, table)
  {
    if txns == [] {
      return [];
    }
    var latest := Latest(txns);
    var refDate := latest + SecondsPerDay;
    var acc, ids := Accumulate(txns);
    table := [];
    var j := 0;
    while j < |ids|
      invariant 0 <= j <= |ids|
      invariant |table| == j
      invariant forall k :: 0 <= k < j ==>
        table[k].customerId == ids[k] && ids[k] in Customers(txns) && table[k] == RowFor(txns, ids[k])
    {
      var a := acc[ids[j]];
      table := table + [CustomerRfm(ids[j], (refDate - a.last) / SecondsPerDay, |a.invoices|, a.spend)];
      j := j + 1;
    }
    assert Ids(table) == ids;
  }

  // ----- Properties of the aggregation -----

  /** The customers are exactly the ids that occur in some row. */
  lemma {:induction false} CustomersExactly(txns: seq<Txn>, c: int)
    ensures c in Customers(txns) <==> exists i :: 0 <= i < |txns| && txns[i].customerId == c
  {
    if txns != [] {
      var init := txns[..|txns| - 1];
      CustomersExactly(init, c);
      if exists i :: 0 <= i < |init| && init[i].customerId == c {
        var i :| 0 <= i < |init| && init[i].customerId == c;
        assert txns[i] == init[i];
      }
      if exists i :: 0 <= i < |txns| && txns[i].customerId == c {
        var i :| 0 <= i < |txns| && txns[i].customerId == c;
        if i < |init| {
          assert init[i] == txns[i];
        }
      }
    }
  }

  /** Frequency counts exactly the invoice numbers that occur in the customer's rows. */
  lemma {:induction false} InvoicesExactly(txns: seq<Txn>, c: int, no: string)
    ensures no in Invoices(txns, c) <==>
      exists i :: 0 <= i < |txns| && txns[i].customerId == c && txns[i].invoiceNo == no
  {
    if txns != [] {
      var init := txns[..|txns| - 1];
      InvoicesExactly(init, c, no);
      if exists i :: 0 <= i < |init| && init[i].customerId == c && init[i].invoiceNo == no {
        var i :| 0 <= i < |init| && init[i].customerId == c && init[i].invoiceNo == no;
        assert txns[i] == init[i];
      }
      if exists i :: 0 <= i < |txns| && txns[i].customerId == c && txns[i].invoiceNo == no {
        var i :| 0 <= i < |txns| && txns[i].customerId == c && txns[i].invoiceNo == no;
        if i < |init| {
          assert init[i] == txns[i];
        }
      }
    }
  }

  /** Every customer in the table has at least one invoice. */
  lemma {:induction false} FrequencyPositive(txns: seq<Txn>, c: int)
    requires c in Customers(txns)
    ensures |Invoices(txns, c)| >= 1
  {
    var init, t := txns[..|txns| - 1], txns[|txns| - 1];
    if t.customerId == c {
      assert t.invoiceNo in Invoices(txns, c);
    } else {
      FrequencyPositive(init, c);
      assert Invoices(init, c) <= Invoices(txns, c);
    }
  }

  /** LastDate is the latest of the customer's invoice dates. */
  lemma {:induction false} LastDateIsLatest(txns: seq<Txn>, c: int)
    requires c in Customers(txns)
    ensures forall i :: 0 <= i < |txns| && txns[i].customerId == c ==>
      txns[i].invoiceDate <= LastDate(txns, c)
    ensures exists i ::
      0 <= i < |txns| && txns[i].customerId == c && txns[i].invoiceDate == LastDate(txns, c)
  {
    var init, t := txns[..|txns| - 1], txns[|txns| - 1];
    if c in Customers(init) {
      LastDateIsLatest(init, c);
      var w :| 0 <= w < |init| && init[w].customerId == c && init[w].invoiceDate == LastDate(init, c);
      assert txns[w] == init[w];
    }
    forall i | 0 <= i < |txns| && txns[i].customerId == c
      ensures txns[i].invoiceDate <= LastDate(txns, c)
    {
      if i < |init| {
        assert init[i] == txns[i];
        CustomersExactly(init, c);
      }
    }
    if t.customerId == c && (c !in Customers(init) || LastDate(init, c) <= t.invoiceDate) {
      assert txns[|txns| - 1].invoiceDate == LastDate(txns, c);
    }
  }

  /** MaxDate is the latest invoice date of all rows. */
  lemma {:induction false} MaxDateIsLatest(txns: seq<Txn>)
    requires txns != []
    ensures forall i :: 0 <= i < |txns| ==> txns[i].invoiceDate <= MaxDate(txns)
    ensures exists i :: 0 <= i < |txns| && txns[i].invoiceDate == MaxDate(txns)
  {
    var init := txns[..|txns| - 1];
    if init != [] {
      MaxDateIsLatest(init);
      var w :| 0 <= w < |init| && init[w].invoiceDate == MaxDate(init);
      assert txns[w] == init[w];
      forall i | 0 <= i < |init| ensures txns[i].invoiceDate <= MaxDate(txns) {
        assert init[i] == txns[i];
      }
    }
  }

  /** The reference date lies at least one day after every customer's latest invoice. */
  lemma RecencyAtLeastOneDay(txns: seq<Txn>, c: int)
    requires c in Customers(txns)
    ensures Recency(txns, c) >= 1
  {
    LastDateIsLatest(txns, c);
    MaxDateIsLatest(txns);
  }

  /**
   * A later last invoice never gives a larger Recency, and a last invoice at least one
   * day later gives a strictly smaller one.
   */
  lemma RecencyOrder(txns: seq<Txn>, a: int, b: int)
    requires a in Customers(txns) && b in Customers(txns)
    ensures LastDate(txns, a) <= LastDate(txns, b) ==> Recency(txns, b) <= Recency(txns, a)
    ensures LastDate(txns, a) + SecondsPerDay <= LastDate(txns, b) ==>
      Recency(txns, b) < Recency(txns, a)
  {
  }

  /** Spend of a concatenation is the sum of the spends. */
  lemma {:induction false} SpendConcat(a: seq<Txn>, b: seq<Txn>, c: int)
    ensures Spend(a + b, c) == Spend(a, c) + Spend(b, c)
    decreases |b|
  {
    if b == [] {
      assert a + b == a;
    } else {
      assert (a + b)[..|a + b| - 1] == a + b[..|b| - 1];
      SpendConcat(a, b[..|b| - 1], c);
    }
  }

  /** The order of two blocks of rows does not change a customer's spend. */
  lemma SpendOrderFree(a: seq<Txn>, b: seq<Txn>, c: int)
    ensures Spend(a + b, c) == Spend(b + a, c)
  {
    SpendConcat(a, b, c);
    SpendConcat(b, a, c);
  }

  /** The aggregated table has exactly one row per customer of the cleaned rows. */
  lemma OneRowPerCustomer(txns: seq<Txn>, table: seq<CustomerRfm>)
    requires IsRfmTableOf(txns, table)
    ensures |table| == |Customers(txns)|
  {
    var ids := Ids(table);
    DistinctCount(ids);
    var keys := set x | x in ids;
    forall x ensures x in keys <==> x in Customers(txns) {
      if x in ids {
        var i :| 0 <= i < |ids| && ids[i] == x;
        assert table[i].customerId in Customers(txns);
      }
    }
    assert keys == Customers(txns);
  }

  /** The rows determine the aggregated table completely. */
  lemma RfmTableUnique(txns: seq<Txn>, t1: seq<CustomerRfm>, t2: seq<CustomerRfm>)
    requires IsRfmTableOf(txns, t1) && IsRfmTableOf(txns, t2)
    ensures t1 == t2
  {
    SameElementsSameOrder(Ids(t1), Ids(t2));
    assert |t1| == |t2|;
    forall i | 0 <= i < |t1| ensures t1[i] == t2[i] {
      assert Ids(t1)[i] == Ids(t2)[i];
    }
  }
}
