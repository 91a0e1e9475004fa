/**
 * Equal-frequency binning as pd.qcut(x, 5, labels) does it, and the ranking
 * rank(method='first') that app.py applies to Frequency before binning (app.py, lines 65-67).
 * Values are integers, so every quantile edge is kept multiplied by 5, which makes it an
 * integer too.
 */
module Quantiles {
  import opened Wrappers
  import opened Sequences

  /** Why pd.qcut raises instead of binning. */
  datatype QcutError = EmptyColumn | DuplicateEdges(scaledEdges: seq<int>)

  // ----- Quantile edges -----

  /**
   * Five times the quantile of the sorted values at index pos / 5, interpolated linearly
   * between the two neighbouring values (numpy's default 'linear' method puts the
   * q-quantile at index q * (n - 1)).
   */
  function ScaledQuantile(sorted: seq<int>, pos: int): int
    requires |sorted| >= 1 && 0 <= pos <= 5 * (|sorted| - 1)
  {
    var lo, frac := pos / 5, pos % 5;
    if frac == 0 then 5 * sorted[lo]
    else 5 * sorted[lo] + frac * (sorted[lo + 1] - sorted[lo])
  }

  /**
   * The six bin edges of qcut(x, 5) over the sorted values, at quantiles 0, 0.2, ..., 1,
   * each multiplied by 5; the outer edges are the first and the last element.
   */
  function Edges(sorted: seq<int>): (e: seq<int>)
    requires |sorted| >= 1
    ensures |e| == 6
    ensures e[0] == 5 * sorted[0] && e[5] == 5 * sorted[|sorted| - 1]
  {
    var m := |sorted| - 1;
    seq(6, k requires 0 <= k < 6 => ScaledQuantile(sorted, k * m))
  }

  /**
   * numpy's searchsorted(e, x, side='left') over the edges from index k on: the first
   * index whose edge is at least x, or |e| when there is none.
   */
  function SearchSorted(e: seq<int>, x: int, k: nat): (i: nat)
    requires k <= |e|
    ensures k <= i <= |e|
    ensures i < |e| ==> x <= e[i]
    decreases |e| - k
  {
    if k == |e| || x <= e[k] then k else SearchSorted(e, x, k + 1)
  }

  /** Every edge that searchsorted passes over is below x. */
  lemma {:induction false} SearchSortedBelow(e: seq<int>, x: int, k: nat, j: nat)
    requires k <= |e| && k <= j < SearchSorted(e, x, k)
    ensures e[j] < x
    decreases |e| - k
  {
    if j > k {
      SearchSortedBelow(e, x, k + 1, j);
    }
  }

  /**
   * The 1-based bin of value v among the edges: bin i is (edge i-1, edge i], and the
   * lowest edge belongs to bin 1 (include_lowest).
   */
  function BinOf(e: seq<int>, v: int): int
    requires |e| == 6
  {
    if 5 * v == e[0] then 1 else SearchSorted(e, 5 * v, 0)
  }

  /** A value between the outer edges falls in one of the five bins. */
  lemma BinInRange(e: seq<int>, v: int)
    requires |e| == 6 && e[0] <= 5 * v <= e[5]
    ensures 1 <= BinOf(e, v) <= 5
  {
    if 5 * v != e[0] && SearchSorted(e, 5 * v, 0) == 6 {
      SearchSortedBelow(e, 5 * v, 0, 5);
    }
  }

  /** A larger value never falls in a lower bin, whatever the edges. */
  lemma {:induction false} SearchSortedMonotone(e: seq<int>, x: int, y: int, k: nat)
    requires k <= |e| && x <= y
    ensures SearchSorted(e, x, k) <= SearchSorted(e, y, k)
    decreases |e| - k
  {
    if k < |e| && e[k] < x {
      SearchSortedMonotone(e, x, y, k + 1);
    }
  }

  lemma BinMonotone(e: seq<int>, v: int, w: int)
    requires |e| == 6 && e[0] <= 5 * v <= e[5] && e[0] <= 5 * w <= e[5]
    requires v <= w
    ensures BinOf(e, v) <= BinOf(e, w)
  {
    SearchSortedMonotone(e, 5 * v, 5 * w, 0);
  }

  // ----- qcut -----

  predicate Ascending(labels: seq<int>)
  {
    forall i, j :: 0 <= i < j < |labels| ==> labels[i] <= labels[j]
  }

  predicate Descending(labels: seq<int>)
  {
    forall i, j :: 0 <= i < j < |labels| ==> labels[i] >= labels[j]
  }

  /**
   * pd.qcut(values, 5, labels): each value gets the label of its bin, or the call raises
   * because the column is empty or two quantile edges coincide.
   */
  function Qcut(values: seq<int>, labels: seq<int>): (r: Result<seq<int>, QcutError>)
    requires |labels| == 5
    ensures r.Ok? ==> |r.value| == |values|
    ensures r.Ok? ==> forall i :: 0 <= i < |values| ==> r.value[i] in labels
    ensures |values| <= 1 ==> r.Err?
  {
    if values == [] then Err(EmptyColumn)
    else
      SortedEnds(values, Sort(values));
      BinOnSorted(values, labels, Sort(values))
  }

  /**
   * qcut raises exactly in two cases: the column is empty, or two of the quantile edges
   * of its sorted values coincide.
   */
  lemma QcutFailsIffEdgesRepeat(values: seq<int>, labels: seq<int>)
    requires |labels| == 5
    ensures values == [] ==> Qcut(values, labels) == Err(EmptyColumn)
    ensures values != [] ==> (Qcut(values, labels).Ok? <==> Distinct(Edges(Sort(values))))
    ensures values != [] && Qcut(values, labels).Err? ==>
      Qcut(values, labels).error == DuplicateEdges(Edges(Sort(values)))
  {
    if values != [] {
      QcutIsBinOnSorted(values, labels);
    }
  }

  /** The binning step of qcut once the values are sorted: edges, the duplicate check, the labels. */
  function BinOnSorted(values: seq<int>, labels: seq<int>, sorted: seq<int>): (r: Result<seq<int>, QcutError>)
    requires |labels| == 5 && |sorted| >= 1
    requires forall i :: 0 <= i < |values| ==> sorted[0] <= values[i] <= sorted[|sorted| - 1]
    ensures r.Ok? <==> Distinct(Edges(sorted))
    ensures r.Ok? ==> |r.value| == |values|
    ensures r.Ok? ==> forall i :: 0 <= i < |values| ==>
      1 <= BinOf(Edges(sorted), values[i]) <= 5 && r.value[i] == labels[BinOf(Edges(sorted), values[i]) - 1]
    ensures r.Ok? ==> forall i :: 0 <= i < |values| ==> r.value[i] in labels
    ensures r.Err? ==> r.error == DuplicateEdges(Edges(sorted))
    ensures |sorted| == 1 ==> r.Err?
  {
    var e := Edges(sorted);
    if !Distinct(e) then Err(DuplicateEdges(e))
    else
      assert e[0] != e[5];
      assert forall i :: 0 <= i < |values| ==> 1 <= BinOf(e, values[i]) <= 5 by {
        forall i | 0 <= i < |values| ensures 1 <= BinOf(e, values[i]) <= 5 {
          BinInRange(e, values[i]);
        }
      }
      Ok(seq(|values|, i requires 0 <= i < |values| => labels[BinOf(e, values[i]) - 1]))
  }

  /** Binning over sorted values is monotone for ascending labels and antitone for descending ones. */
  lemma BinOnSortedOrder(values: seq<int>, labels: seq<int>, sorted: seq<int>,
                         q: Result<seq<int>, QcutError>, i: nat, j: nat)
    requires |labels| == 5 && |sorted| >= 1
    requires forall i :: 0 <= i < |values| ==> sorted[0] <= values[i] <= sorted[|sorted| - 1]
    requires q == BinOnSorted(values, labels, sorted) && q.Ok?
    requires i < |values| && j < |values| && values[i] <= values[j]
    ensures Ascending(labels) ==> q.value[i] <= q.value[j]
    ensures Descending(labels) ==> q.value[i] >= q.value[j]
  {
    BinMonotone(Edges(sorted), values[i], values[j]);
  }

  /** With ascending labels a larger value never gets a smaller label; descending labels reverse that. */
  lemma QcutOrder(values: seq<int>, labels: seq<int>, i: nat, j: nat)
    requires |labels| == 5 && Qcut(values, labels).Ok?
    requires i < |values| && j < |values| && values[i] <= values[j]
    ensures Ascending(labels) ==> Qcut(values, labels).value[i] <= Qcut(values, labels).value[j]
    ensures Descending(labels) ==> Qcut(values, labels).value[i] >= Qcut(values, labels).value[j]
  {
    QcutIsBinOnSorted(values, labels);
    BinOnSortedOrder(values, labels, Sort(values), Qcut(values, labels), i, j);
  }

  /** Labels between lo and hi give values between lo and hi. */
  lemma QcutWithin(values: seq<int>, labels: seq<int>, lo: int, hi: int)
    requires |labels| == 5 && forall k :: 0 <= k < 5 ==> lo <= labels[k] <= hi
    ensures Qcut(values, labels).Ok? ==>
      forall i :: 0 <= i < |values| ==> lo <= Qcut(values, labels).value[i] <= hi
  {
    if Qcut(values, labels).Ok? {
      var v := Qcut(values, labels).value;
      forall i | 0 <= i < |values| ensures lo <= v[i] <= hi {
        var k :| 0 <= k < 5 && labels[k] == v[i];
      }
    }
  }

  /** qcut succeeds only on a column whose values are not all equal. */
  lemma QcutNeedsTwoValues(values: seq<int>, labels: seq<int>)
    requires |labels| == 5 && Qcut(values, labels).Ok?
    ensures exists i, j :: 0 <= i < |values| && 0 <= j < |values| && values[i] < values[j]
  {
    var r := Sort(values);
    var e := Edges(r);
    assert e[0] != e[5];
    SortedFrom(values, 0);
    SortedFrom(values, |r| - 1);
    var i :| 0 <= i < |values| && values[i] == r[0];
    var j :| 0 <= j < |values| && values[j] == r[|r| - 1];
    assert values[i] < values[j];
  }

  // ----- rank(method='first') -----

  /** Row j ranks before row i: a smaller value, or the same value in an earlier row. */
  predicate RanksBefore(s: seq<int>, j: nat, i: nat)
    requires j < |s| && i < |s|
  {
    s[j] < s[i] || (s[j] == s[i] && j < i)
  }

  /** How many of the first m rows rank before row i. */
  function CountBefore(s: seq<int>, i: nat, m: nat): nat
    requires i < |s| && m <= |s|
  {
    if m == 0 then 0
    else CountBefore(s, i, m - 1) + (if RanksBefore(s, m - 1, i) then 1 else 0)
  }

  /** rank(method='first'): 1 plus the number of rows that rank before. */
  function RankFirst(s: seq<int>): (r: seq<int>)
    ensures |r| == |s|
  {
    seq(|s|, i requires 0 <= i < |s| => 1 + CountBefore(s, i, |s|))
  }

  lemma {:induction false} CountBeforeBound(s: seq<int>, i: nat, m: nat)
    requires i < |s| && m <= |s|
    ensures CountBefore(s, i, m) + (if i < m then 1 else 0) <= m
  {
    if m > 0 {
      CountBeforeBound(s, i, m - 1);
    }
  }

  lemma {:induction false} CountBeforeGrows(s: seq<int>, j: nat, i: nat, m: nat)
    requires j < |s| && i < |s| && m <= |s| && RanksBefore(s, j, i)
    ensures CountBefore(s, j, m) + (if j < m then 1 else 0) <= CountBefore(s, i, m)
  {
    if m > 0 {
      CountBeforeGrows(s, j, i, m - 1);
    }
  }

  /**
   * The ranks follow rank-before order: a smaller value ranks lower, and among equal
   * values the earlier row ranks lower.
   */
  lemma RankFirstOrder(s: seq<int>)
    ensures forall i, j :: 0 <= i < |s| && 0 <= j < |s| ==>
      (RankFirst(s)[j] < RankFirst(s)[i] <==> RanksBefore(s, j, i))
  {
    var r := RankFirst(s);
    forall i, j | 0 <= i < |s| && 0 <= j < |s|
      ensures r[j] < r[i] <==> RanksBefore(s, j, i)
    {
      if RanksBefore(s, j, i) {
        CountBeforeGrows(s, j, i, |s|);
      } else if i != j {
        CountBeforeGrows(s, i, j, |s|);
      }
    }
  }

  /** With ascending labels, the qcut of the ranks never puts a row that ranks first in a higher bin. */
  lemma RankedQcutOrder(s: seq<int>, labels: seq<int>, i: nat, j: nat)
    requires |labels| == 5 && Ascending(labels) && Qcut(RankFirst(s), labels).Ok?
    requires i < |s| && j < |s| && (s[i] < s[j] || (s[i] == s[j] && i <= j))
    ensures Qcut(RankFirst(s), labels).value[i] <= Qcut(RankFirst(s), labels).value[j]
  {
    var ranks := RankFirst(s);
    if i != j {
      CountBeforeGrows(s, i, j, |s|);
    }
    assert ranks[i] <= ranks[j];
    QcutOrder(ranks, labels, i, j);
  }

  /** The ranks are n distinct values in 1..n: each position is used once. */
  lemma RanksArePositions(s: seq<int>)
    ensures forall i :: 0 <= i < |s| ==> 1 <= RankFirst(s)[i] <= |s|
    ensures Distinct(RankFirst(s))
  {
    var r := RankFirst(s);
    forall i | 0 <= i < |s| ensures 1 <= r[i] <= |s| {
      CountBeforeBound(s, i, |s|);
    }
    RankFirstOrder(s);
  }

  /** Sorted, the ranks are exactly 1, 2, ..., n. */
  lemma SortedRanks(s: seq<int>)
    ensures Sort(RankFirst(s)) == Iota(|s|)
  {
    RanksArePositions(s);
    SortedPositions(RankFirst(s));
  }

  // ----- Binning of the positions 1..n -----

  /** The edges qcut computes for the positions 1..n, multiplied by 5. */
  function PositionEdges(n: nat): (e: seq<int>)
    ensures |e| == 6
  {
    seq(6, k requires 0 <= k < 6 => 5 + k * (n - 1))
  }

  /** The bin of position r among n positions. */
  function PositionBin(r: int, n: nat): int
  {
    BinOf(PositionEdges(n), r)
  }

  lemma IotaQuantile(n: nat, pos: int)
    requires n >= 1 && 0 <= pos <= 5 * (n - 1)
    ensures ScaledQuantile(Iota(n), pos) == 5 + pos
  {
    var lo := pos / 5;
    IotaAt(n, lo);
    if pos % 5 != 0 {
      IotaAt(n, lo + 1);
    }
  }

  /** The quantile edges of 1..n lie (n - 1) / 5 apart, starting at 1. */
  lemma IotaEdges(n: nat)
    requires n >= 1
    ensures Edges(Iota(n)) == PositionEdges(n)
  {
    var m := n - 1;
    var e, p := Edges(Iota(n)), PositionEdges(n);
    forall k | 0 <= k < 6 ensures e[k] == p[k] {
      assert 0 <= k * m <= 5 * m;
      IotaQuantile(n, k * m);
    }
  }

  /** On non-decreasing edges, the first edge at least x is at most k exactly when x <= e[k]. */
  lemma SearchSortedAtMost(e: seq<int>, x: int, k: nat)
    requires k < |e|
    requires forall a, b :: 0 <= a < b < |e| ==> e[a] <= e[b]
    ensures SearchSorted(e, x, 0) <= k <==> x <= e[k]
  {
    if SearchSorted(e, x, 0) > k {
      SearchSortedBelow(e, x, 0, k);
    }
  }

  /** Position r lands in bin k or below exactly when 5 (r - 1) <= k (n - 1). */
  lemma PositionBinAtMost(r: int, n: nat, k: int)
    requires n >= 2 && 1 <= r <= n && 1 <= k <= 5
    ensures PositionBin(r, n) <= k <==> 5 * (r - 1) <= k * (n - 1)
  {
    var e := PositionEdges(n);
    assert forall a, b :: 0 <= a < b < 6 ==> e[a] <= e[b] by {
      forall a, b | 0 <= a < b < 6 ensures e[a] <= e[b] {
        assert a * (n - 1) <= b * (n - 1) by {
          assert (b - a) * (n - 1) >= 0;
        }
      }
    }
    if 5 * r != e[0] {
      SearchSortedAtMost(e, 5 * r, k);
    } else {
      assert k * (n - 1) >= 0;
    }
  }

  /** Every position gets a bin in 1..5. */
  lemma PositionBinInRange(r: int, n: nat)
    requires n >= 2 && 1 <= r <= n
    ensures 1 <= PositionBin(r, n) <= 5
  {
    BinInRange(PositionEdges(n), r);
  }

  /** Among the first m positions, those in bin k or below are the first 1 + k (n - 1) / 5. */
  lemma {:induction false} CumulativeBinCount(n: nat, k: int, m: nat)
    requires n >= 2 && 1 <= k <= 5 && m <= n
    ensures var c := 1 + (k * (n - 1)) / 5;
      CountIf(Iota(m), x => PositionBin(x, n) <= k) == if m < c then m else c
  {
    if m > 0 {
      CumulativeBinCount(n, k, m - 1);
      assert Iota(m)[..m - 1] == Iota(m - 1);
      PositionBinAtMost(m, n, k);
    }
  }

  /** How many of the positions 1..n land in bin k. */
  function BinSize(n: nat, k: int): nat
  {
    CountIf(Iota(n), x => PositionBin(x, n) == k)
  }

  /** The positions in bin k or below are those in bin k and those below it. */
  lemma BinSizeSplit(n: nat, k: int)
    requires n >= 2
    ensures CountIf(Iota(n), x => PositionBin(x, n) <= k)
      == BinSize(n, k) + CountIf(Iota(n), x => PositionBin(x, n) <= k - 1)
  {
    CountIfSplit(Iota(n), x => PositionBin(x, n) == k, x => PositionBin(x, n) <= k - 1,
                 x => PositionBin(x, n) <= k);
  }

  /** No position falls below bin 1. */
  lemma NothingBelowFirstBin(n: nat)
    requires n >= 2
    ensures CountIf(Iota(n), x => PositionBin(x, n) <= 0) == 0
  {
    var s := Iota(n);
    forall j | 0 <= j < |s| ensures !(PositionBin(s[j], n) <= 0) {
      IotaAt(n, j);
      PositionBinInRange(s[j], n);
    }
    CountIfNone(s, x => PositionBin(x, n) <= 0);
  }

  lemma BinSizeByCumulative(n: nat, k: int)
    requires n >= 2 && 1 <= k <= 5
    ensures BinSize(n, k) ==
      (1 + (k * (n - 1)) / 5) - (if k == 1 then 0 else 1 + ((k - 1) * (n - 1)) / 5)
  {
    BinSizeSplit(n, k);
    CumulativeAll(n, k);
    if k == 1 {
      NothingBelowFirstBin(n);
    } else {
      CumulativeAll(n, k - 1);
    }
  }

  /** All n positions counted: 1 + k (n - 1) / 5 of them lie in bin k or below. */
  lemma CumulativeAll(n: nat, k: int)
    requires n >= 2 && 1 <= k <= 5
    ensures CountIf(Iota(n), x => PositionBin(x, n) <= k) == 1 + (k * (n - 1)) / 5
  {
    CumulativeBinCount(n, k, n);
    var a := k * (n - 1);
    assert a <= 5 * (n - 1);
    assert a / 5 <= n - 1;
  }

  /**
   * Equal frequency: each of the five bins holds within one of n / 5 of the n positions
   * (5 * size stays between n - 5 and n + 4).
   */
  lemma BinSizesNearEqual(n: nat, k: int)
    requires n >= 2 && 1 <= k <= 5
    ensures n - 5 <= 5 * BinSize(n, k) <= n + 4
  {
    BinSizeByCumulative(n, k);
    var a := n - 1;
    if k == 1 {
    } else if k == 2 {
      assert 2 * a - a == a;
    } else if k == 3 {
      assert 3 * a - 2 * a == a;
    } else if k == 4 {
      assert 4 * a - 3 * a == a;
    } else {
      assert 5 * a - 4 * a == a;
    }
  }

  /**
   * Binning ranks never raises once there are two rows: the edges of 1..n are distinct,
   * and each row gets the label of its rank's position bin.
   */
  lemma RankedQcut(s: seq<int>, labels: seq<int>)
    requires |labels| == 5 && |s| >= 2
    ensures Qcut(RankFirst(s), labels).Ok?
    ensures forall i :: 0 <= i < |s| ==>
      1 <= RankFirst(s)[i] <= |s| && 1 <= PositionBin(RankFirst(s)[i], |s|) <= 5 &&
      Qcut(RankFirst(s), labels).value[i] == labels[PositionBin(RankFirst(s)[i], |s|) - 1]
  {
    var n := |s|;
    var ranks := RankFirst(s);
    RanksArePositions(s);
    SortedRanks(s);
    QcutIsBinOnSorted(ranks, labels);
    BinOnPositions(ranks, labels, n);
    assert Qcut(ranks, labels) == BinOnSorted(ranks, labels, Iota(n));
  }

  /** A non-empty qcut is the binning step over the sorted values. */
  lemma QcutIsBinOnSorted(values: seq<int>, labels: seq<int>)
    requires |labels| == 5 && values != []
    ensures |Sort(values)| == |values|
    ensures forall i :: 0 <= i < |values| ==> Sort(values)[0] <= values[i] <= Sort(values)[|values| - 1]
    ensures Qcut(values, labels) == BinOnSorted(values, labels, Sort(values))
  {
    SortedEnds(values, Sort(values));
  }

  /** Binning positions 1..n over the positions themselves never raises and gives each its position bin. */
  lemma BinOnPositions(values: seq<int>, labels: seq<int>, n: nat)
    requires |labels| == 5 && n >= 2
    requires forall i :: 0 <= i < |values| ==> 1 <= values[i] <= n
    ensures forall i :: 0 <= i < |values| ==> Iota(n)[0] <= values[i] <= Iota(n)[n - 1]
    ensures BinOnSorted(values, labels, Iota(n)).Ok?
    ensures forall i :: 0 <= i < |values| ==>
      1 <= PositionBin(values[i], n) <= 5
      && BinOnSorted(values, labels, Iota(n)).value[i] == labels[PositionBin(values[i], n) - 1]
  {
    IotaAt(n, 0);
    IotaAt(n, n - 1);
    IotaEdges(n);
    PositionEdgesUnique(n);
    forall i | 0 <= i < |values| ensures 1 <= PositionBin(values[i], n) <= 5 {
      PositionBinInRange(values[i], n);
    }
  }

  lemma PositionEdgesUnique(n: nat)
    requires n >= 2
    ensures Distinct(PositionEdges(n))
  {
    var e := PositionEdges(n);
    forall i, j | 0 <= i < j < 6 ensures e[i] != e[j] {
      assert j * (n - 1) - i * (n - 1) == (j - i) * (n - 1);
      assert (j - i) * (n - 1) > 0;
    }
  }

  /** With labels 1..5, the qcut of first-occurrence ranks is the bin of each rank. */
  lemma RankedBins(s: seq<int>, labels: seq<int>)
    requires |s| >= 2 && |labels| == 5
    requires forall k :: 0 <= k < 5 ==> labels[k] == k + 1
    ensures Qcut(RankFirst(s), labels).Ok?
    ensures forall i :: 0 <= i < |s| ==>
      Qcut(RankFirst(s), labels).value[i] == PositionBin(RankFirst(s)[i], |s|)
  {
    RankedQcut(s, labels);
    forall i | 0 <= i < |s| {
      PositionBinInRange(RankFirst(s)[i], |s|);
    }
  }
}
