/** Sorting, counting and distinctness facts about integer sequences. */
module Sequences {

  predicate IsSorted(s: seq<int>)
  {
    forall i, j :: 0 <= i < j < |s| ==> s[i] <= s[j]
  }

  predicate Distinct(s: seq<int>)
  {
    forall i, j :: 0 <= i < j < |s| ==> s[i] != s[j]
  }

  predicate StrictlyIncreasing(s: seq<int>)
  {
    forall i, j :: 0 <= i < j < |s| ==> s[i] < s[j]
  }

  /** Inserts x into a sorted sequence; the smaller of x and the old head comes first. */
  function Insert(x: int, s: seq<int>): (r: seq<int>)
    requires IsSorted(s)
    ensures |r| == |s| + 1
    ensures r[0] == if s == [] || x <= s[0] then x else s[0]
    ensures IsSorted(r)
    ensures multiset(r) == multiset(s) + multiset{x}
  {
    if s == [] || x <= s[0] then [x] + s
    else
      var rest := Insert(x, s[1..]);
      assert s == [s[0]] + s[1..];
      assert s[0] <= rest[0];
      [s[0]] + rest
  }

  /** The values of s in ascending order. */
  function Sort(s: seq<int>): (r: seq<int>)
    ensures IsSorted(r)
    ensures multiset(r) == multiset(s)
    ensures |r| == |s|
  {
    if s == [] then []
    else
      assert s == [s[0]] + s[1..];
      Insert(s[0], Sort(s[1..]))
  }

  /** The first and last elements of a sorted permutation of s bound every value of s. */
  lemma SortedEnds(s: seq<int>, r: seq<int>)
    requires s != [] && IsSorted(r) && multiset(r) == multiset(s)
    ensures |r| == |s|
    ensures forall i :: 0 <= i < |s| ==> r[0] <= s[i] <= r[|r| - 1]
  {
    assert |r| == |multiset(r)| == |multiset(s)| == |s|;
    forall i | 0 <= i < |s| ensures r[0] <= s[i] <= r[|r| - 1] {
      assert s[i] in multiset(s);
      assert s[i] in multiset(r);
      var k :| 0 <= k < |r| && r[k] == s[i];
    }
  }

  /** Every element of the sorted sequence is a value of s. */
  lemma SortedFrom(s: seq<int>, k: nat)
    requires k < |s|
    ensures Sort(s)[k] in s
  {
    var r := Sort(s);
    assert r[k] in multiset(r);
  }

  /** A sequence without repetitions holds each value at most once. */
  lemma {:induction false} DistinctMultiplicity(s: seq<int>, v: int)
    requires Distinct(s)
    ensures multiset(s)[v] <= 1
  {
    if s != [] {
      var init := s[..|s| - 1];
      assert s == init + [s[|s| - 1]];
      DistinctMultiplicity(init, v);
      if v == s[|s| - 1] {
        assert v !in init;
      }
    }
  }

  /** A value that sits at two positions is held at least twice. */
  lemma RepeatMultiplicity(s: seq<int>, i: nat, j: nat)
    requires i < j < |s| && s[i] == s[j]
    ensures multiset(s)[s[i]] >= 2
  {
    assert s == s[..j] + [s[j]] + s[j + 1..];
    assert s[..j][i] == s[i];
    assert s[i] in multiset(s[..j]);
  }

  /** Sorting a sequence without repetitions gives a strictly increasing one. */
  lemma SortDistinct(s: seq<int>)
    requires Distinct(s)
    ensures forall i, j :: 0 <= i < j < |Sort(s)| ==> Sort(s)[i] < Sort(s)[j]
  {
    var r := Sort(s);
    forall i, j | 0 <= i < j < |r| ensures r[i] < r[j] {
      if r[i] == r[j] {
        RepeatMultiplicity(r, i, j);
        DistinctMultiplicity(s, r[i]);
        assert false;
      }
    }
  }

  /** The positions 1, 2, ..., n. */
  function Iota(n: nat): (r: seq<int>)
    ensures |r| == n
  {
    if n == 0 then [] else Iota(n - 1) + [n]
  }

  lemma {:induction false} IotaAt(n: nat, k: nat)
    requires k < n
    ensures Iota(n)[k] == k + 1
  {
    if k < n - 1 {
      IotaAt(n - 1, k);
    }
  }

  /** Between two positions of a strictly increasing sequence the values grow by at least the distance. */
  lemma {:induction false} GapAtLeast(t: seq<int>, i: nat, j: nat)
    requires StrictlyIncreasing(t)
    requires i <= j < |t|
    ensures t[j] - t[i] >= j - i
    decreases j - i
  {
    if i < j {
      GapAtLeast(t, i, j - 1);
    }
  }

  /** A strictly increasing sequence of n values in 1..n is 1, 2, ..., n. */
  lemma PackedIsIota(t: seq<int>, n: nat)
    requires |t| == n
    requires StrictlyIncreasing(t)
    requires forall k :: 0 <= k < |t| ==> 1 <= t[k] <= n
    ensures t == Iota(n)
  {
    forall k | 0 <= k < n ensures t[k] == Iota(n)[k] {
      GapAtLeast(t, 0, k);
      GapAtLeast(t, k, n - 1);
      IotaAt(n, k);
    }
  }

  /** The number of values of s that satisfy p. */
  function CountIf(s: seq<int>, p: int -> bool): nat
  {
    if s == [] then 0
    else CountIf(s[..|s| - 1], p) + (if p(s[|s| - 1]) then 1 else 0)
  }

  lemma {:induction false} CountIfConcat(a: seq<int>, b: seq<int>, p: int -> bool)
    ensures CountIf(a + b, p) == CountIf(a, p) + CountIf(b, p)
    decreases |b|
  {
    if b == [] {
      assert a + b == a;
    } else {
      assert (a + b)[..|a + b| - 1] == a + b[..|b| - 1];
      CountIfConcat(a, b[..|b| - 1], p);
    }
  }

  /** Taking out the value at position j. */
  lemma {:induction false} RemoveAt(t: seq<int>, j: nat, p: int -> bool)
    requires j < |t|
    ensures multiset(t[..j] + t[j + 1..]) == multiset(t) - multiset{t[j]}
    ensures CountIf(t, p) == CountIf(t[..j] + t[j + 1..], p) + (if p(t[j]) then 1 else 0)
  {
    var x, a, b := t[j], t[..j], t[j + 1..];
    assert t == a + ([x] + b);
    assert multiset(t) == multiset(a) + multiset{x} + multiset(b);
    assert multiset(a + b) == multiset(a) + multiset(b);
    CountIfConcat(t[..j], [x] + t[j + 1..], p);
    CountIfConcat([x], t[j + 1..], p);
    CountIfConcat(t[..j], t[j + 1..], p);
    assert CountIf([x], p) == CountIf([], p) + (if p(x) then 1 else 0);
  }

  /** The count depends only on which values occur how often, not on their order. */
  lemma {:induction false} CountIfPermutation(s: seq<int>, t: seq<int>, p: int -> bool)
    requires multiset(s) == multiset(t)
    ensures CountIf(s, p) == CountIf(t, p)
    decreases |s|
  {
    if s == [] {
      assert |multiset(t)| == 0;
    } else {
      var init, x := s[..|s| - 1], s[|s| - 1];
      assert s == init + [x];
      assert multiset(init) == multiset(s) - multiset{x};
      assert x in multiset(t);
      var j :| 0 <= j < |t| && t[j] == x;
      RemoveAt(t, j, p);
      CountIfPermutation(init, t[..j] + t[j + 1..], p);
    }
  }

  /** Counting through a position-wise correspondence. */
  lemma {:induction false} CountIfCorrespondence(s: seq<int>, t: seq<int>, p: int -> bool, q: int -> bool)
    requires |s| == |t|
    requires forall k :: 0 <= k < |s| ==> (p(s[k]) <==> q(t[k]))
    ensures CountIf(s, p) == CountIf(t, q)
  {
    if s != [] {
      CountIfCorrespondence(s[..|s| - 1], t[..|t| - 1], p, q);
    }
  }

  /** A count splits over two disjoint conditions that together make up a third. */
  lemma {:induction false} CountIfSplit(s: seq<int>, p: int -> bool, q: int -> bool, r: int -> bool)
    requires forall k :: 0 <= k < |s| ==> (r(s[k]) <==> p(s[k]) || q(s[k])) && !(p(s[k]) && q(s[k]))
    ensures CountIf(s, r) == CountIf(s, p) + CountIf(s, q)
  {
    if s != [] {
      CountIfSplit(s[..|s| - 1], p, q, r);
    }
  }

  lemma {:induction false} CountIfNone(s: seq<int>, p: int -> bool)
    requires forall k :: 0 <= k < |s| ==> !p(s[k])
    ensures CountIf(s, p) == 0
  {
    if s != [] {
      CountIfNone(s[..|s| - 1], p);
    }
  }

  /** n distinct values in 1..n, sorted, are 1, 2, ..., n. */
  lemma SortedPositions(r: seq<int>)
    requires forall i :: 0 <= i < |r| ==> 1 <= r[i] <= |r|
    requires Distinct(r)
    ensures Sort(r) == Iota(|r|)
  {
    var t := Sort(r);
    SortDistinct(r);
    forall k | 0 <= k < |t| ensures 1 <= t[k] <= |r| {
      SortedFrom(r, k);
      var i :| 0 <= i < |r| && r[i] == t[k];
    }
    PackedIsIota(t, |r|);
  }

  // ----- Strictly increasing sequences -----

  /** A strictly increasing sequence has as many distinct elements as positions. */
  lemma {:induction false} DistinctCount(s: seq<int>)
    requires StrictlyIncreasing(s)
    ensures |set x | x in s| == |s|
  {
    if s != [] {
      var init := s[..|s| - 1];
      DistinctCount(init);
      assert (set x | x in s) == (set x | x in init) + {s[|s| - 1]};
      assert s[|s| - 1] !in init;
    }
  }

  /** The head of a strictly increasing sequence is its least element, and only it. */
  lemma HeadIsLeast(a: seq<int>, x: int)
    requires StrictlyIncreasing(a) && a != []
    ensures x in a ==> a[0] <= x
    ensures x in a[1..] <==> x in a && x != a[0]
  {
    if x in a {
      var k :| 0 <= k < |a| && a[k] == x;
      if k > 0 {
        assert a[1..][k - 1] == x;
      }
    }
    if x in a[1..] {
      var k :| 0 <= k < |a[1..]| && a[1..][k] == x;
      assert a[k + 1] == x;
    }
  }

  lemma SameElementsSameLength(a: seq<int>, b: seq<int>)
    requires StrictlyIncreasing(a) && StrictlyIncreasing(b)
    requires forall x :: x in a <==> x in b
    ensures |a| == |b|
  {
    DistinctCount(a);
    DistinctCount(b);
    var sa, sb := set x | x in a, set x | x in b;
    assert sa == sb;
  }

  /** Two strictly increasing sequences with the same elements are equal. */
  lemma {:induction false} SameElementsSameOrder(a: seq<int>, b: seq<int>)
    requires StrictlyIncreasing(a) && StrictlyIncreasing(b)
    requires forall x :: x in a <==> x in b
    ensures a == b
  {
    SameElementsSameLength(a, b);
    if a != [] {
      assert a[0] in a && b[0] in b;
      HeadIsLeast(a, b[0]);
      HeadIsLeast(b, a[0]);
      forall x ensures x in a[1..] <==> x in b[1..] {
        HeadIsLeast(a, x);
        HeadIsLeast(b, x);
      }
      SameElementsSameOrder(a[1..], b[1..]);
      assert a == [a[0]] + a[1..] && b == [b[0]] + b[1..];
    }
  }
}
