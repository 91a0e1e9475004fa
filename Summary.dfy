/**
 * The derived views of the scored table (app.py, lines 141-146 and 171): the segment
 * summary, one entry per segment present, sorted by count with the largest first, and the
 * customers whose Monetary is positive.
 */
module Summary {
  import opened Segments
  import opened Scoring

  // ----- Segment summary -----

  /** One row of the segment summary: the segment and its number of customers. */
  datatype SummaryEntry = SummaryEntry(segment: Segment, count: nat)

  /** Number of customers in segment s. */
  function CountOf(rows: seq<CustomerRow>, s: Segment): (n: nat)
    ensures n <= |rows|
  {
    if rows == [] then 0
    else CountOf(rows[..|rows| - 1], s) + (if rows[|rows| - 1].segment == s then 1 else 0)
  }

  /** Lexicographic order on strings, as pandas sorts the group keys. */
  predicate StringLess(a: string, b: string)
  {
    |b| > 0 && (|a| == 0 || a[0] < b[0] || (a[0] == b[0] && StringLess(a[1..], b[1..])))
  }

  /** groupby("Segment") visits the segments in the order of their names. */
  const GroupOrder: seq<Segment> :=
    [AtRisk, Champions, Lost, LoyalCustomers, Others, PotentialLoyalist, RecentCustomers]

  lemma GroupOrderIsByName()
    ensures forall i :: 0 <= i < |GroupOrder| - 1 ==> StringLess(Name(GroupOrder[i]), Name(GroupOrder[i + 1]))
  {
    forall i | 0 <= i < |GroupOrder| - 1
      ensures StringLess(Name(GroupOrder[i]), Name(GroupOrder[i + 1]))
    {
      if i == 2 {
        assert StringLess("ost", "oyal Customers");
      }
    }
  }

  /** Every segment has its place in the order, and only one. */
  lemma GroupOrderComplete()
    ensures forall s: Segment :: s in GroupOrder
    ensures DistinctOrder(GroupOrder)
  {
    forall s: Segment ensures s in GroupOrder {
      match s
      case AtRisk => assert GroupOrder[0] == s;
      case Champions => assert GroupOrder[1] == s;
      case Lost => assert GroupOrder[2] == s;
      case LoyalCustomers => assert GroupOrder[3] == s;
      case Others => assert GroupOrder[4] == s;
      case PotentialLoyalist => assert GroupOrder[5] == s;
      case RecentCustomers => assert GroupOrder[6] == s;
    }
  }

  /** The groups of the segments in order that have at least one customer, with their counts. */
  function Groups(rows: seq<CustomerRow>, order: seq<Segment>): seq<SummaryEntry>
  {
    if order == [] then []
    else
      var n := CountOf(rows, order[0]);
      (if n > 0 then [SummaryEntry(order[0], n)] else []) + Groups(rows, order[1..])
  }

  /** Inserts e into a list sorted by descending count, ahead of the entries it does not exceed. */
  function InsertByCount(e: SummaryEntry, s: seq<SummaryEntry>): seq<SummaryEntry>
  {
    if s == [] || s[0].count <= e.count then [e] + s
    else [s[0]] + InsertByCount(e, s[1..])
  }

  /** sort_values(by="Count", ascending=False). */
  function SortByCount(s: seq<SummaryEntry>): seq<SummaryEntry>
  {
    if s == [] then [] else InsertByCount(s[0], SortByCount(s[1..]))
  }

  /** The Count column of the segment summary table, row by row. */
  function SegmentSummary(rows: seq<CustomerRow>): seq<SummaryEntry>
  {
    SortByCount(Groups(rows, GroupOrder))
  }

  predicate DescendingCounts(s: seq<SummaryEntry>)
  {
    forall i, j :: 0 <= i < j < |s| ==> s[i].count >= s[j].count
  }

  predicate DistinctSegments(s: seq<SummaryEntry>)
  {
    forall i, j :: 0 <= i < j < |s| ==> s[i].segment != s[j].segment
  }

  function Total(s: seq<SummaryEntry>): nat
  {
    if s == [] then 0 else s[0].count + Total(s[1..])
  }

  /** Inserting adds e to the entries, and its count to the total. */
  lemma {:induction false} InsertByCountMembers(e: SummaryEntry, s: seq<SummaryEntry>)
    ensures forall x :: x in InsertByCount(e, s) <==> x == e || x in s
    ensures |InsertByCount(e, s)| == |s| + 1
    ensures Total(InsertByCount(e, s)) == e.count + Total(s)
  {
    var r := InsertByCount(e, s);
    if s == [] || s[0].count <= e.count {
      assert r[0] == e && r[1..] == s;
    } else {
      InsertByCountMembers(e, s[1..]);
      assert r[0] == s[0] && r[1..] == InsertByCount(e, s[1..]);
      assert forall x :: x in s <==> x == s[0] || x in s[1..] by {
        assert s == [s[0]] + s[1..];
      }
    }
  }

  /** Inserting into a list sorted by descending count keeps it sorted. */
  lemma {:induction false} InsertByCountSorted(e: SummaryEntry, s: seq<SummaryEntry>)
    requires DescendingCounts(s)
    ensures DescendingCounts(InsertByCount(e, s))
  {
    var r := InsertByCount(e, s);
    if s != [] && s[0].count > e.count {
      var t := InsertByCount(e, s[1..]);
      InsertByCountSorted(e, s[1..]);
      InsertByCountMembers(e, s[1..]);
      assert r == [s[0]] + t;
      forall j | 1 <= j < |r| ensures r[0].count >= r[j].count {
        assert r[j] in t;
        if r[j] != e {
          var k :| 0 <= k < |s[1..]| && s[1..][k] == r[j];
          assert s[k + 1] == r[j];
        }
      }
      forall i, j | 1 <= i < j < |r| ensures r[i].count >= r[j].count {
        assert r[i] == t[i - 1] && r[j] == t[j - 1];
      }
    }
  }

  /** In a list of distinct segments, the head's segment does not recur in the tail. */
  lemma HeadSegmentUnique(s: seq<SummaryEntry>)
    requires s != [] && DistinctSegments(s)
    ensures forall x :: x in s[1..] ==> x.segment != s[0].segment
    ensures DistinctSegments(s[1..])
  {
    forall x | x in s[1..] ensures x.segment != s[0].segment {
      var k :| 0 <= k < |s[1..]| && s[1..][k] == x;
      assert s[k + 1] == x;
    }
  }

  /** Putting an entry with a new segment in front keeps the segments distinct. */
  lemma ConsDistinct(e: SummaryEntry, s: seq<SummaryEntry>)
    requires DistinctSegments(s) && forall x :: x in s ==> x.segment != e.segment
    ensures DistinctSegments([e] + s)
  {
    var r := [e] + s;
    forall i, j | 0 <= i < j < |r| ensures r[i].segment != r[j].segment {
      assert r[j] == s[j - 1];
      if i > 0 {
        assert r[i] == s[i - 1];
      }
    }
  }

  /** Inserting an entry whose segment is new keeps the segments distinct. */
  lemma {:induction false} InsertByCountDistinct(e: SummaryEntry, s: seq<SummaryEntry>)
    requires DistinctSegments(s) && forall x :: x in s ==> x.segment != e.segment
    ensures DistinctSegments(InsertByCount(e, s))
  {
    if s == [] || s[0].count <= e.count {
      ConsDistinct(e, s);
    } else {
      var t := InsertByCount(e, s[1..]);
      HeadSegmentUnique(s);
      assert forall x :: x in s[1..] ==> x in s;
      InsertByCountDistinct(e, s[1..]);
      InsertByCountMembers(e, s[1..]);
      assert s[0] in s;
      ConsDistinct(s[0], t);
    }
  }

  /**
   * Sorting by count keeps exactly the entries it is given and their total, and puts the
   * larger counts first.
   */
  lemma {:induction false} SortByCountProperties(s: seq<SummaryEntry>)
    ensures DescendingCounts(SortByCount(s))
    ensures forall x :: x in SortByCount(s) <==> x in s
    ensures |SortByCount(s)| == |s|
    ensures Total(SortByCount(s)) == Total(s)
    ensures DistinctSegments(s) ==> DistinctSegments(SortByCount(s))
  {
    if s != [] {
      SortByCountProperties(s[1..]);
      InsertByCountMembers(s[0], SortByCount(s[1..]));
      InsertByCountSorted(s[0], SortByCount(s[1..]));
      assert forall x :: x in s <==> x == s[0] || x in s[1..] by {
        assert s == [s[0]] + s[1..];
      }
      if DistinctSegments(s) {
        HeadSegmentUnique(s);
        InsertByCountDistinct(s[0], SortByCount(s[1..]));
      }
    }
  }

  /** A group is listed for exactly the segments of the order that have customers, with their counts. */
  lemma {:induction false} GroupsExactly(rows: seq<CustomerRow>, order: seq<Segment>, e: SummaryEntry)
    ensures e in Groups(rows, order) <==> e.segment in order && e.count > 0 && e.count == CountOf(rows, e.segment)
  {
    if order != [] {
      GroupsExactly(rows, order[1..], e);
      assert e.segment in order <==> e.segment == order[0] || e.segment in order[1..] by {
        assert order == [order[0]] + order[1..];
      }
    }
  }

  predicate DistinctOrder(order: seq<Segment>)
  {
    forall i, j :: 0 <= i < j < |order| ==> order[i] != order[j]
  }

  lemma {:induction false} GroupsDistinct(rows: seq<CustomerRow>, order: seq<Segment>)
    requires DistinctOrder(order)
    ensures DistinctSegments(Groups(rows, order))
  {
    if order != [] {
      GroupsDistinct(rows, order[1..]);
      var g := Groups(rows, order);
      var rest := Groups(rows, order[1..]);
      if CountOf(rows, order[0]) > 0 {
        assert g == [SummaryEntry(order[0], CountOf(rows, order[0]))] + rest;
        forall j | 1 <= j < |g| ensures g[0].segment != g[j].segment {
          assert g[j] in rest;
          GroupsExactly(rows, order[1..], g[j]);
          var k :| 0 <= k < |order[1..]| && order[1..][k] == g[j].segment;
          assert order[k + 1] == g[j].segment;
        }
        forall i, j | 0 <= i < j < |g| ensures g[i].segment != g[j].segment {
          if i > 0 {
            assert g[i] == rest[i - 1] && g[j] == rest[j - 1];
          }
        }
      } else {
        assert g == rest;
      }
    }
  }

  /** Number of customers whose segment is in the order. */
  function CountIn(rows: seq<CustomerRow>, order: seq<Segment>): nat
  {
    if order == [] then 0 else CountOf(rows, order[0]) + CountIn(rows, order[1..])
  }

  lemma {:induction false} GroupsTotal(rows: seq<CustomerRow>, order: seq<Segment>)
    ensures Total(Groups(rows, order)) == CountIn(rows, order)
  {
    if order != [] {
      GroupsTotal(rows, order[1..]);
      var n := CountOf(rows, order[0]);
      var head := if n > 0 then [SummaryEntry(order[0], n)] else [];
      assert Total(head) == n by {
        if n > 0 {
          assert head[1..] == [];
        }
      }
      TotalConcat(head, Groups(rows, order[1..]));
    }
  }

  lemma {:induction false} TotalConcat(a: seq<SummaryEntry>, b: seq<SummaryEntry>)
    ensures Total(a + b) == Total(a) + Total(b)
  {
    if a != [] {
      assert (a + b)[0] == a[0] && (a + b)[1..] == a[1..] + b;
      TotalConcat(a[1..], b);
    } else {
      assert a + b == b;
    }
  }

  /** Adding one customer adds one to the count of its segment when that segment is in the order. */
  lemma {:induction false} CountInStep(rows: seq<CustomerRow>, row: CustomerRow, order: seq<Segment>)
    requires DistinctOrder(order)
    ensures CountIn(rows + [row], order) == CountIn(rows, order) + (if row.segment in order then 1 else 0)
  {
    if order != [] {
      assert (rows + [row])[..|rows + [row]| - 1] == rows;
      assert CountOf(rows + [row], order[0]) == CountOf(rows, order[0]) + (if row.segment == order[0] then 1 else 0);
      CountInStep(rows, row, order[1..]);
      assert row.segment in order <==> row.segment == order[0] || row.segment in order[1..] by {
        assert order == [order[0]] + order[1..];
      }
      assert DistinctOrder(order[1..]);
      if row.segment == order[0] {
        forall k | 0 <= k < |order[1..]| ensures order[1..][k] != row.segment {
          assert order[1..][k] == order[k + 1];
        }
      }
    }
  }

  lemma {:induction false} CountInEmpty(order: seq<Segment>)
    ensures CountIn([], order) == 0
  {
    if order != [] {
      CountInEmpty(order[1..]);
    }
  }

  lemma {:induction false} CountInAll(rows: seq<CustomerRow>)
    ensures CountIn(rows, GroupOrder) == |rows|
  {
    if rows == [] {
      CountInEmpty(GroupOrder);
    } else {
      var last := rows[|rows| - 1];
      CountInAll(rows[..|rows| - 1]);
      assert rows == rows[..|rows| - 1] + [last];
      GroupOrderComplete();
      CountInStep(rows[..|rows| - 1], last, GroupOrder);
      assert last.segment in GroupOrder;
    }
  }

  /** The summary lists the segments with customers, each with its number of customers. */
  lemma SummaryEntries(rows: seq<CustomerRow>)
    ensures forall e :: e in SegmentSummary(rows) <==> e.count > 0 && e.count == CountOf(rows, e.segment)
  {
    var g := Groups(rows, GroupOrder);
    SortByCountProperties(g);
    GroupOrderComplete();
    forall e ensures e in g <==> e.count > 0 && e.count == CountOf(rows, e.segment) {
      GroupsExactly(rows, GroupOrder, e);
    }
  }

  /** The summary has one entry per segment and its counts are in descending order. */
  lemma SummaryShape(rows: seq<CustomerRow>)
    ensures DescendingCounts(SegmentSummary(rows))
    ensures DistinctSegments(SegmentSummary(rows))
  {
    var g := Groups(rows, GroupOrder);
    SortByCountProperties(g);
    GroupOrderComplete();
    GroupsDistinct(rows, GroupOrder);
  }

  /** The counts of the summary add up to the number of customers. */
  lemma SummaryTotal(rows: seq<CustomerRow>)
    ensures Total(SegmentSummary(rows)) == |rows|
  {
    var g := Groups(rows, GroupOrder);
    SortByCountProperties(g);
    GroupsTotal(rows, GroupOrder);
    CountInAll(rows);
  }

  // ----- Positive Monetary -----

  /** rfm[rfm['Monetary'] > 0]: the customers with positive Monetary, in table order. */
  function PositiveMonetary(rows: seq<CustomerRow>): (p: seq<CustomerRow>)
    ensures |p| <= |rows|
    ensures forall r :: r in p <==> r in rows && r.monetary > 0
  {
    if rows == [] then []
    else
      var last := rows[|rows| - 1];
      var init := PositiveMonetary(rows[..|rows| - 1]);
      assert forall r :: r in rows <==> r in rows[..|rows| - 1] || r == last by {
        assert rows == rows[..|rows| - 1] + [last];
      }
      if last.monetary > 0 then init + [last] else init
  }

  /** Filtering twice is filtering once. */
  lemma {:induction false} PositiveMonetaryIdempotent(rows: seq<CustomerRow>)
    ensures PositiveMonetary(PositiveMonetary(rows)) == PositiveMonetary(rows)
  {
    if rows != [] {
      var init := rows[..|rows| - 1];
      var last := rows[|rows| - 1];
      PositiveMonetaryIdempotent(init);
      var p := PositiveMonetary(init);
      if last.monetary > 0 {
        assert (p + [last])[..|p|] == p;
      }
    }
  }

  /** Filtering keeps the table order: it distributes over a split of the table. */
  lemma {:induction false} PositiveMonetaryConcat(a: seq<CustomerRow>, b: seq<CustomerRow>)
    ensures PositiveMonetary(a + b) == PositiveMonetary(a) + PositiveMonetary(b)
  {
    if b == [] {
      assert a + b == a;
    } else {
      var init := b[..|b| - 1];
      assert (a + b)[..|a + b| - 1] == a + init;
      PositiveMonetaryConcat(a, init);
    }
  }
}
