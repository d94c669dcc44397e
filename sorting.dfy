/**
 * The in-place `sort` and `reverse` of the flattened route list in
 * `getServerManifest.ts`. `Array.prototype.sort` is stable; for a comparator
 * that is a consistent total preorder, the stable sort is the insertion sort
 * below. The comparator (`sortRoutes` with its arguments swapped) is a
 * parameter.
 */
module Sorting {

  /** Insert `x` into `t` after every trailing element that does not compare greater than it. */
  function Insert<T>(t: seq<T>, x: T, cmp: (T, T) -> int): (r: seq<T>)
    ensures |r| == |t| + 1
  {
    if t == [] || cmp(t[|t| - 1], x) <= 0 then t + [x]
    else Insert(t[..|t| - 1], x, cmp) + [t[|t| - 1]]
  }

  /** Inserting adds `x` and keeps everything else. */
  lemma {:induction false} InsertPermutes<T>(t: seq<T>, x: T, cmp: (T, T) -> int)
    ensures multiset(Insert(t, x, cmp)) == multiset(t) + multiset{x}
    decreases |t|
  {
    if t != [] && cmp(t[|t| - 1], x) > 0 {
      var init := t[..|t| - 1];
      InsertPermutes(init, x, cmp);
      assert t == init + [t[|t| - 1]];
    }
  }

  /** The stable insertion sort of `s`. */
  function InsertionSort<T>(s: seq<T>, cmp: (T, T) -> int): (r: seq<T>)
  {
    if s == [] then [] else Insert(InsertionSort(s[..|s| - 1], cmp), s[|s| - 1], cmp)
  }

  /** Sorting permutes: the same elements, each as often. */
  lemma {:induction false} SortPermutes<T>(s: seq<T>, cmp: (T, T) -> int)
    ensures multiset(InsertionSort(s, cmp)) == multiset(s)
    ensures |InsertionSort(s, cmp)| == |s|
  {
    if s != [] {
      SortPermutes(s[..|s| - 1], cmp);
      InsertPermutes(InsertionSort(s[..|s| - 1], cmp), s[|s| - 1], cmp);
      assert s == s[..|s| - 1] + [s[|s| - 1]];
    }
  }

  /** Any two values are comparable. */
  ghost predicate Total<T(!new)>(cmp: (T, T) -> int)
  {
    forall x, y :: cmp(x, y) <= 0 || cmp(y, x) <= 0
  }

  /** `<= 0` is transitive. */
  ghost predicate Transitive<T(!new)>(cmp: (T, T) -> int)
  {
    forall x, y, z :: cmp(x, y) <= 0 && cmp(y, z) <= 0 ==> cmp(x, z) <= 0
  }

  /** `cmp` orders its values consistently: a total preorder. */
  ghost predicate Consistent<T(!new)>(cmp: (T, T) -> int)
  {
    Total(cmp) && Transitive(cmp)
  }

  predicate Sorted<T>(s: seq<T>, cmp: (T, T) -> int)
  {
    forall i, j :: 0 <= i < j < |s| ==> cmp(s[i], s[j]) <= 0
  }

  lemma SortedAppend<T>(r: seq<T>, y: T, cmp: (T, T) -> int)
    requires Sorted(r, cmp) && forall i :: 0 <= i < |r| ==> cmp(r[i], y) <= 0
    ensures Sorted(r + [y], cmp)
  {
    var s := r + [y];
    forall i, j | 0 <= i < j < |s| ensures cmp(s[i], s[j]) <= 0 {
      assert s[i] == r[i];
    }
  }

  lemma {:induction false} InsertSorted<T(!new)>(t: seq<T>, x: T, cmp: (T, T) -> int)
    requires Consistent(cmp) && Sorted(t, cmp)
    ensures Sorted(Insert(t, x, cmp), cmp)
    decreases |t|
  {
    if t == [] {
    } else if cmp(t[|t| - 1], x) <= 0 {
      BelowLast(t, x, cmp);
      SortedAppend(t, x, cmp);
    } else {
      var init, last := t[..|t| - 1], t[|t| - 1];
      InsertSorted(init, x, cmp);
      var r := Insert(init, x, cmp);
      assert forall k :: 0 <= k < |init| ==> cmp(init[k], last) <= 0 by {
        forall k | 0 <= k < |init| ensures cmp(init[k], last) <= 0 {
          assert init[k] == t[k];
        }
      }
      InsertedBelow(init, last, x, cmp);
      assert Insert(t, x, cmp) == r + [last];
      SortedAppend(r, last, cmp);
    }
  }

  /** Everything in a sorted `t` is below `x` when its last element is. */
  lemma BelowLast<T(!new)>(t: seq<T>, x: T, cmp: (T, T) -> int)
    requires Transitive(cmp) && Sorted(t, cmp) && t != [] && cmp(t[|t| - 1], x) <= 0
    ensures forall i :: 0 <= i < |t| ==> cmp(t[i], x) <= 0
  {
    forall i | 0 <= i < |t| - 1 ensures cmp(t[i], x) <= 0 {
      assert cmp(t[i], t[|t| - 1]) <= 0;
    }
  }

  /** When `x` goes before `last`, everything inserted before `last` is below it. */
  lemma InsertedBelow<T(!new)>(init: seq<T>, last: T, x: T, cmp: (T, T) -> int)
    requires Total(cmp) && cmp(last, x) > 0
    requires forall k :: 0 <= k < |init| ==> cmp(init[k], last) <= 0
    ensures forall i :: 0 <= i < |Insert(init, x, cmp)| ==> cmp(Insert(init, x, cmp)[i], last) <= 0
  {
    var r := Insert(init, x, cmp);
    InsertPermutes(init, x, cmp);
    forall i | 0 <= i < |r| ensures cmp(r[i], last) <= 0 {
      assert r[i] in multiset(init) + multiset{x};
      if r[i] in multiset(init) {
        var k :| 0 <= k < |init| && init[k] == r[i];
      }
    }
  }

  /** With a consistent comparator the result is sorted. */
  lemma {:induction false} SortSorts<T(!new)>(s: seq<T>, cmp: (T, T) -> int)
    requires Consistent(cmp)
    ensures Sorted(InsertionSort(s, cmp), cmp)
  {
    if s != [] {
      SortSorts(s[..|s| - 1], cmp);
      InsertSorted(InsertionSort(s[..|s| - 1], cmp), s[|s| - 1], cmp);
    }
  }

  /** `a.sort(cmp)`, as an insertion sort in place. */
  method SortInPlace<T>(a: array<T>, cmp: (T, T) -> int)
    modifies a
    ensures a[..] == InsertionSort(old(a[..]), cmp)
  {
    ghost var s := a[..];
    for i := 0 to a.Length
      invariant a[..i] == InsertionSort(s[..i], cmp)
      invariant forall k :: i <= k < a.Length ==> a[k] == s[k]
    {
      ghost var sorted := a[..i];
      ghost var x := a[i];
      assert x == s[i];
      InsertNext(a, i, cmp);
      SortGrows(s, i, cmp);
    }
    assert s[..a.Length] == s;
  }

  lemma SortGrows<T>(s: seq<T>, i: nat, cmp: (T, T) -> int)
    requires i < |s|
    ensures InsertionSort(s[..i + 1], cmp) == Insert(InsertionSort(s[..i], cmp), s[i], cmp)
  {
    assert s[..i + 1][..i] == s[..i];
  }

  /** One pass of the insertion sort: `a[i]` moves left into the sorted prefix `a[..i]`. */
  method InsertNext<T>(a: array<T>, i: nat, cmp: (T, T) -> int)
    requires i < a.Length
    modifies a
    ensures a[..i + 1] == Insert(old(a[..i]), old(a[i]), cmp)
    ensures forall k :: i < k < a.Length ==> a[k] == old(a[k])
  {
    ghost var t := a[..i];
    var x := a[i];
    var j := ShiftRight(a, i, x, cmp);
    a[j] := x;
    InsertAt(t, j, x, cmp);
    Assemble(a[..], t, i, j, x);
  }

  /** Moves the elements at the end of `a[..i]` that compare greater than `x` one place right; `j` is the gap left. */
  method ShiftRight<T>(a: array<T>, i: nat, x: T, cmp: (T, T) -> int) returns (j: nat)
    requires i < a.Length
    modifies a
    ensures j <= i
    ensures forall k :: 0 <= k < j ==> a[k] == old(a[k])
    ensures forall k :: j < k <= i ==> a[k] == old(a[k - 1])
    ensures forall k :: i < k < a.Length ==> a[k] == old(a[k])
    ensures j == 0 || cmp(old(a[j - 1]), x) <= 0
    ensures forall k :: j <= k < i ==> cmp(old(a[k]), x) > 0
  {
    j := i;
    while j > 0 && cmp(a[j - 1], x) > 0
      invariant j <= i
      invariant forall k :: 0 <= k < j ==> a[k] == old(a[k])
      invariant forall k :: j < k <= i ==> a[k] == old(a[k - 1])
      invariant forall k :: i < k < a.Length ==> a[k] == old(a[k])
      invariant forall k :: j <= k < i ==> cmp(old(a[k]), x) > 0
    {
      a[j] := a[j - 1];
      j := j - 1;
    }
  }

  lemma Assemble<T>(r: seq<T>, t: seq<T>, i: nat, j: nat, x: T)
    requires j <= i == |t| < |r| && r[j] == x
    requires forall k :: 0 <= k < j ==> r[k] == t[k]
    requires forall k :: j < k <= i ==> r[k] == t[k - 1]
    ensures r[..i + 1] == t[..j] + [x] + t[j..]
  {
  }

  /** `x` is inserted after the last element of `t` that does not compare greater than it. */
  lemma {:induction false} InsertAt<T>(t: seq<T>, j: nat, x: T, cmp: (T, T) -> int)
    requires j <= |t| && (j == 0 || cmp(t[j - 1], x) <= 0)
    requires forall k :: j <= k < |t| ==> cmp(t[k], x) > 0
    ensures Insert(t, x, cmp) == t[..j] + [x] + t[j..]
    decreases |t|
  {
    if j < |t| {
      var init, last := t[..|t| - 1], t[|t| - 1];
      assert cmp(last, x) > 0;
      assert Insert(t, x, cmp) == Insert(init, x, cmp) + [last];
      assert forall k :: j <= k < |init| ==> cmp(init[k], x) > 0 by {
        forall k | j <= k < |init| ensures cmp(init[k], x) > 0 {
          assert init[k] == t[k];
        }
      }
      assert j == 0 || init[j - 1] == t[j - 1];
      InsertAt(init, j, x, cmp);
      assert init[..j] == t[..j];
      assert t[j..] == init[j..] + [last];
    } else {
      assert t[..j] == t && t[j..] == [];
    }
  }

  /** The elements of `s` in the opposite order. */
  function Reversed<T>(s: seq<T>): (r: seq<T>)
    ensures |r| == |s|
    ensures forall i :: 0 <= i < |s| ==> r[i] == s[|s| - 1 - i]
  {
    if s == [] then [] else Reversed(s[1..]) + [s[0]]
  }

  lemma ReversedTwice<T>(s: seq<T>)
    ensures Reversed(Reversed(s)) == s
  {
  }

  /** `a.reverse()`, by swapping from both ends. */
  method ReverseInPlace<T>(a: array<T>)
    modifies a
    ensures a[..] == Reversed(old(a[..]))
  {
    ghost var s := a[..];
    var lo, hi := 0, a.Length - 1;
    while lo < hi
      invariant 0 <= lo && hi == a.Length - 1 - lo && lo <= a.Length
      invariant forall k :: 0 <= k < lo ==> a[k] == s[a.Length - 1 - k] && a[a.Length - 1 - k] == s[k]
      invariant forall k :: lo <= k <= hi ==> a[k] == s[k]
    {
      a[lo], a[hi] := a[hi], a[lo];
      lo, hi := lo + 1, hi - 1;
    }
  }
}
