/** Array.prototype.sort with a comparator, as the components call it.

    The ECMAScript standard only fixes the result when the comparator is
    consistent (then the sort is stable, ECMA-262 section 23.1.3.30); for an
    inconsistent comparator the order is implementation-defined. The model fixes
    one implementation, a stable insertion sort: `InsertionSort` is the
    specification, `SortInPlace` does it on an array by adjacent swaps, and the
    lemmas say what any caller may rely on (a permutation; ordered when the
    comparator is consistent on the elements; ordered by any ranking the
    comparator respects, consistent or not). */
module ArraySort {

  /** Insert `x` after the last element that may precede it (`cmp(e, x) <= 0`). */
  function Insert<T>(s: seq<T>, x: T, cmp: (T, T) -> int): (r: seq<T>)
    ensures |r| == |s| + 1
    decreases |s|
  {
    if s == [] || cmp(s[|s| - 1], x) <= 0 then s + [x]
    else Insert(s[..|s| - 1], x, cmp) + [s[|s| - 1]]
  }

  /** The sort: insert the elements one by one, in their original order. */
  function InsertionSort<T>(s: seq<T>, cmp: (T, T) -> int): (r: seq<T>)
    ensures |r| == |s|
    decreases |s|
  {
    if s == [] then [] else Insert(InsertionSort(s[..|s| - 1], cmp), s[|s| - 1], cmp)
  }

  /** No element is placed after one it must precede. */
  predicate Sorted<T>(s: seq<T>, cmp: (T, T) -> int) {
    forall i, j :: 0 <= i < j < |s| ==> cmp(s[i], s[j]) <= 0
  }

  /** The comparator behaves as a total preorder on the elements of `s`:
      `cmp(a, b) > 0` means b goes first, and "may precede" is transitive. */
  ghost predicate ConsistentOn<T(!new)>(s: seq<T>, cmp: (T, T) -> int) {
    && (forall a, b :: a in s && b in s && cmp(a, b) > 0 ==> cmp(b, a) <= 0)
    && (forall a, b, c :: a in s && b in s && c in s && cmp(a, b) <= 0 && cmp(b, c) <= 0 ==> cmp(a, c) <= 0)
  }

  /** The comparator respects `rank`: a lower rank always goes first. */
  ghost predicate RespectsRank<T(!new)>(cmp: (T, T) -> int, rank: T -> int) {
    forall a, b :: rank(a) < rank(b) ==> cmp(a, b) < 0 && cmp(b, a) > 0
  }

  predicate RankOrdered<T>(s: seq<T>, rank: T -> int) {
    forall i, j :: 0 <= i < j < |s| ==> rank(s[i]) <= rank(s[j])
  }

  lemma {:induction false} InsertPermutes<T>(s: seq<T>, x: T, cmp: (T, T) -> int)
    ensures multiset(Insert(s, x, cmp)) == multiset(s) + multiset{x}
    decreases |s|
  {
    if s != [] && cmp(s[|s| - 1], x) > 0 {
      InsertPermutes(s[..|s| - 1], x, cmp);
      assert s == s[..|s| - 1] + [s[|s| - 1]];
    }
  }

  /** Sorting only rearranges: the result is a permutation of the input. */
  lemma {:induction false} SortPermutes<T>(s: seq<T>, cmp: (T, T) -> int)
    ensures multiset(InsertionSort(s, cmp)) == multiset(s)
    decreases |s|
  {
    if s != [] {
      SortPermutes(s[..|s| - 1], cmp);
      InsertPermutes(InsertionSort(s[..|s| - 1], cmp), s[|s| - 1], cmp);
      assert s == s[..|s| - 1] + [s[|s| - 1]];
    }
  }

  /** Every element of the result comes from the input. */
  lemma SortMembers<T>(s: seq<T>, cmp: (T, T) -> int)
    ensures forall i :: 0 <= i < |InsertionSort(s, cmp)| ==> InsertionSort(s, cmp)[i] in s
  {
    var r := InsertionSort(s, cmp);
    SortPermutes(s, cmp);
    forall i | 0 <= i < |r| ensures r[i] in s {
      assert r[i] in multiset(r);
    }
  }

  /** Appending an element that every element may precede keeps the order. */
  lemma AppendSorted<T>(s: seq<T>, y: T, cmp: (T, T) -> int)
    requires Sorted(s, cmp)
    requires forall i :: 0 <= i < |s| ==> cmp(s[i], y) <= 0
    ensures Sorted(s + [y], cmp)
  {
    var r := s + [y];
    forall i, j | 0 <= i < j < |r| ensures cmp(r[i], r[j]) <= 0 {
      if j < |s| {
        assert r[i] == s[i] && r[j] == s[j];
      }
    }
  }

  lemma {:induction false} InsertSorted<T(!new)>(s: seq<T>, x: T, cmp: (T, T) -> int, all: seq<T>)
    requires ConsistentOn(all, cmp)
    requires x in all && forall i :: 0 <= i < |s| ==> s[i] in all
    requires Sorted(s, cmp)
    ensures Sorted(Insert(s, x, cmp), cmp)
    decreases |s|
  {
    if s == [] || cmp(s[|s| - 1], x) <= 0 {
      forall i | 0 <= i < |s| ensures cmp(s[i], x) <= 0 {
        if i < |s| - 1 {
          assert cmp(s[i], s[|s| - 1]) <= 0;
          assert s[i] in all && s[|s| - 1] in all;
        }
      }
      AppendSorted(s, x, cmp);
    } else {
      var init, last := s[..|s| - 1], s[|s| - 1];
      InsertSorted(init, x, cmp, all);
      var t := Insert(init, x, cmp);
      InsertPermutes(init, x, cmp);
      forall i | 0 <= i < |t| ensures cmp(t[i], last) <= 0 {
        PrecedesLast(s, x, cmp, all, t[i]);
      }
      AppendSorted(t, last, cmp);
    }
  }

  lemma PrecedesLast<T(!new)>(s: seq<T>, x: T, cmp: (T, T) -> int, all: seq<T>, y: T)
    requires ConsistentOn(all, cmp)
    requires x in all && forall i :: 0 <= i < |s| ==> s[i] in all
    requires Sorted(s, cmp)
    requires s != [] && cmp(s[|s| - 1], x) > 0
    requires y in multiset(s[..|s| - 1]) + multiset{x}
    ensures cmp(y, s[|s| - 1]) <= 0
  {
    if y != x {
      assert y in s[..|s| - 1];
      var k :| 0 <= k < |s| - 1 && s[k] == y;
      assert cmp(s[k], s[|s| - 1]) <= 0;
    } else {
      assert s[|s| - 1] in all;
    }
  }

  lemma {:induction false} SortedPrefix<T(!new)>(s: seq<T>, cmp: (T, T) -> int, all: seq<T>)
    requires ConsistentOn(all, cmp)
    requires forall i :: 0 <= i < |s| ==> s[i] in all
    ensures Sorted(InsertionSort(s, cmp), cmp)
    decreases |s|
  {
    if s != [] {
      var init := s[..|s| - 1];
      SortedPrefix(init, cmp, all);
      SortPermutes(init, cmp);
      var t := InsertionSort(init, cmp);
      forall i | 0 <= i < |t| ensures t[i] in all {
        assert t[i] in multiset(init);
      }
      InsertSorted(t, s[|s| - 1], cmp, all);
    }
  }

  /** With a comparator that is consistent on the elements, the result is ordered. */
  lemma SortSorted<T(!new)>(s: seq<T>, cmp: (T, T) -> int)
    requires ConsistentOn(s, cmp)
    ensures Sorted(InsertionSort(s, cmp), cmp)
  {
    SortedPrefix(s, cmp, s);
  }

  lemma {:induction false} InsertRankOrdered<T(!new)>(s: seq<T>, x: T, cmp: (T, T) -> int, rank: T -> int)
    requires RespectsRank(cmp, rank)
    requires RankOrdered(s, rank)
    ensures RankOrdered(Insert(s, x, cmp), rank)
    ensures multiset(Insert(s, x, cmp)) == multiset(s) + multiset{x}
    decreases |s|
  {
    InsertPermutes(s, x, cmp);
    if s == [] || cmp(s[|s| - 1], x) <= 0 {
      var r := s + [x];
      forall i, j | 0 <= i < j < |r| ensures rank(r[i]) <= rank(r[j]) {
        if j == |s| && i < |s| - 1 {
          assert rank(s[i]) <= rank(s[|s| - 1]);
        }
      }
    } else {
      var init, last := s[..|s| - 1], s[|s| - 1];
      InsertRankOrdered(init, x, cmp, rank);
      var t := Insert(init, x, cmp);
      forall i | 0 <= i < |t| ensures rank(t[i]) <= rank(last) {
        assert t[i] in multiset(init) + multiset{x};
        if t[i] != x {
          assert t[i] in init;
          var k :| 0 <= k < |init| && init[k] == t[i];
          assert rank(s[k]) <= rank(s[|s| - 1]);
        }
      }
    }
  }

  /** Whatever the comparator does between elements of equal rank, a ranking it
      respects is honoured by the result. */
  lemma {:induction false} SortRankOrdered<T(!new)>(s: seq<T>, cmp: (T, T) -> int, rank: T -> int)
    requires RespectsRank(cmp, rank)
    ensures RankOrdered(InsertionSort(s, cmp), rank)
    decreases |s|
  {
    if s != [] {
      SortRankOrdered(s[..|s| - 1], cmp, rank);
      InsertRankOrdered(InsertionSort(s[..|s| - 1], cmp), s[|s| - 1], cmp, rank);
    }
  }

  /** With a consistent comparator the first element of the result may precede
      every element of the input: it is a least element. */
  lemma SortFirstIsLeast<T(!new)>(s: seq<T>, cmp: (T, T) -> int)
    requires ConsistentOn(s, cmp) && s != []
    ensures InsertionSort(s, cmp)[0] in s
    ensures forall x :: x in s ==> cmp(InsertionSort(s, cmp)[0], x) <= 0
  {
    var r := InsertionSort(s, cmp);
    SortSorted(s, cmp);
    SortPermutes(s, cmp);
    assert r[0] in multiset(s);
    forall x | x in s ensures cmp(r[0], x) <= 0 {
      assert x in multiset(r);
      var k :| 0 <= k < |r| && r[k] == x;
      if k == 0 {
        assert r[0] in s;
      }
    }
  }

  /** Sorts `a` in place, as Array.prototype.sort does: each element in turn is
      moved towards the front past the elements that must follow it. */
  method SortInPlace<T>(a: array<T>, cmp: (T, T) -> int)
    modifies a
    ensures a[..] == InsertionSort(old(a[..]), cmp)
  {
    ghost var orig := a[..];
    var i := 0;
    while i < a.Length
      invariant 0 <= i <= a.Length
      invariant a[..i] == InsertionSort(orig[..i], cmp)
      invariant a[i..] == orig[i..]
    {
      InsertInPlace(a, i, cmp);
      assert orig[..i + 1][..i] == orig[..i];
      i := i + 1;
    }
    assert a[..] == a[..a.Length];
    assert orig == orig[..a.Length];
  }

  /** Moves `a[i]` left by adjacent swaps while its left neighbour must follow it:
      afterwards `a[..i + 1]` is `a[i]` inserted into the old `a[..i]`. */
  method InsertInPlace<T>(a: array<T>, i: int, cmp: (T, T) -> int)
    requires 0 <= i < a.Length
    modifies a
    ensures a[..i + 1] == Insert(old(a[..i]), old(a[i]), cmp)
    ensures a[i + 1..] == old(a[i + 1..])
  {
    ghost var sorted, rest := a[..i], a[i + 1..];
    var x := a[i];
    assert sorted[..i] == sorted && sorted[i..] == [];
    assert a[..] == sorted[..i] + [x] + sorted[i..] + rest;
    var j := i;
    while j > 0 && cmp(a[j - 1], a[j]) > 0
      invariant 0 <= j <= i
      invariant a[..] == sorted[..j] + [x] + sorted[j..] + rest
      invariant Insert(sorted, x, cmp) == Insert(sorted[..j], x, cmp) + sorted[j..]
    {
      ghost var before := a[..];
      assert a[j - 1] == sorted[j - 1] && a[j] == x;
      InsertStep(sorted, j, x, cmp);
      var t := a[j - 1];
      a[j - 1] := a[j];
      a[j] := t;
      assert a[..] == before[j - 1 := x][j := t];
      SwapShape(sorted, j, x, rest);
      j := j - 1;
    }
    InsertDone(sorted, j, x, cmp, rest, a[..]);
  }

  /** One swap of the insertion: `x` moves left past `sorted[j - 1]`. */
  lemma InsertStep<T>(sorted: seq<T>, j: int, x: T, cmp: (T, T) -> int)
    requires 0 < j <= |sorted| && cmp(sorted[j - 1], x) > 0
    ensures Insert(sorted[..j], x, cmp) + sorted[j..] == Insert(sorted[..j - 1], x, cmp) + sorted[j - 1..]
  {
    var p := sorted[..j];
    assert p[..|p| - 1] == sorted[..j - 1];
    assert p[|p| - 1] == sorted[j - 1];
    var q := Insert(sorted[..j - 1], x, cmp);
    assert Insert(p, x, cmp) == q + [sorted[j - 1]];
    assert sorted[j - 1..] == [sorted[j - 1]] + sorted[j..];
  }

  lemma SwapShape<T>(sorted: seq<T>, j: int, x: T, rest: seq<T>)
    requires 0 < j <= |sorted|
    ensures (sorted[..j] + [x] + sorted[j..] + rest)[j - 1 := x][j := sorted[j - 1]]
            == sorted[..j - 1] + [x] + sorted[j - 1..] + rest
  {
    var l := (sorted[..j] + [x] + sorted[j..] + rest)[j - 1 := x][j := sorted[j - 1]];
    var r := sorted[..j - 1] + [x] + sorted[j - 1..] + rest;
    assert |l| == |r|;
    forall k | 0 <= k < |l| ensures l[k] == r[k] {
      if k < j - 1 {
      } else if k == j - 1 {
      } else if k == j {
      } else if k <= |sorted| {
        assert r[k] == sorted[k - 1];
      } else {
        assert l[k] == rest[k - |sorted| - 1];
      }
    }
  }

  lemma InsertDone<T>(sorted: seq<T>, j: int, x: T, cmp: (T, T) -> int, rest: seq<T>, cur: seq<T>)
    requires 0 <= j <= |sorted|
    requires cur == sorted[..j] + [x] + sorted[j..] + rest
    requires j == 0 || cmp(sorted[j - 1], x) <= 0
    requires Insert(sorted, x, cmp) == Insert(sorted[..j], x, cmp) + sorted[j..]
    ensures cur[..|sorted| + 1] == Insert(sorted, x, cmp)
    ensures cur[|sorted| + 1..] == rest
  {
    assert j == 0 || sorted[..j][j - 1] == sorted[j - 1];
    assert Insert(sorted[..j], x, cmp) == sorted[..j] + [x];
    assert cur == Insert(sorted, x, cmp) + rest;
  }
}
