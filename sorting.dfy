/**
 * `Array.prototype.sort(compare)` and `Array.prototype.reverse()` as in-place
 * array algorithms. A JavaScript comparator returns a number; a positive
 * `cmp(x, y)` means that `y` must come before `x`.
 */
module Sorting {

  /** The comparator describes a consistent order: every pair can stand in some
      order, and "may stand before" is transitive. */
  ghost predicate IsTotalPreorder<T(!new)>(cmp: (T, T) -> int) {
    && (forall x, y :: cmp(x, y) <= 0 || cmp(y, x) <= 0)
    && (forall x, y, z {:trigger cmp(x, y), cmp(y, z), cmp(x, z)} :: cmp(x, y) <= 0 && cmp(y, z) <= 0 ==> cmp(x, z) <= 0)
  }

  /** No element of `[lo, hi)` is required to come before an earlier one of that range. */
  ghost predicate SortedRange<T>(s: seq<T>, cmp: (T, T) -> int, lo: int, hi: int)
    requires 0 <= lo <= hi <= |s|
  {
    forall k, l :: lo <= k < l < hi ==> cmp(s[k], s[l]) <= 0
  }

  /** The whole sequence is in comparator order. */
  ghost predicate SortedBy<T>(s: seq<T>, cmp: (T, T) -> int) {
    SortedRange(s, cmp, 0, |s|)
  }
  /** Everything before `j` may stand before everything in `(j, i]`. */
  ghost predicate Straddles<T>(s: seq<T>, cmp: (T, T) -> int, j: int, i: int)
    requires 0 <= j <= i < |s|
  {
    forall k, l :: 0 <= k < j < l <= i ==> cmp(s[k], s[l]) <= 0
  }
  /** The state of the inner loop while the element that started at `i` sinks to `j`. */
  ghost predicate Inserting<T(!new)>(s: seq<T>, cmp: (T, T) -> int, j: int, i: int)
    requires 0 <= j <= i < |s|
  {
    SortedRange(s, cmp, 0, j) && SortedRange(s, cmp, j, i + 1) && Straddles(s, cmp, j, i)
  }

  /** Swapping the sinking element with a neighbour that must follow it keeps the inner invariant. */
  lemma SwapStep<T(!new)>(s: seq<T>, cmp: (T, T) -> int, j: int, i: int)
    requires 0 < j <= i < |s|
    requires IsTotalPreorder(cmp) && Inserting(s, cmp, j, i)
    requires cmp(s[j - 1], s[j]) > 0
    ensures Inserting(s[j - 1 := s[j]][j := s[j - 1]], cmp, j - 1, i)
  {
    var t := s[j - 1 := s[j]][j := s[j - 1]];
    assert cmp(t[j - 1], t[j]) <= 0;
  }

  /** Once the sinking element stops, the first `i + 1` positions are sorted. */
  lemma ExitStep<T(!new)>(s: seq<T>, cmp: (T, T) -> int, j: int, i: int)
    requires 0 <= j <= i < |s|
    requires IsTotalPreorder(cmp) && Inserting(s, cmp, j, i)
    requires j > 0 ==> cmp(s[j - 1], s[j]) <= 0
    ensures SortedRange(s, cmp, 0, i + 1)
  {
    forall k, l | 0 <= k < l < i + 1
      ensures cmp(s[k], s[l]) <= 0
    {
      if l == j && k < j - 1 {
        assert cmp(s[k], s[j - 1]) <= 0;
      }
    }
  }

  /** Exchanging two positions does not change which elements are present. */
  lemma SwapKeepsMultiset<T>(s: seq<T>, p: int, q: int)
    requires 0 <= p < |s| && 0 <= q < |s|
    ensures multiset(s[p := s[q]][q := s[p]]) == multiset(s)
  {
  }

  /** The inner loop of insertion sort as a function: the element at `j` sinks
      towards the front while its left neighbour must come after it. */
  function Sink<T>(s: seq<T>, cmp: (T, T) -> int, j: nat): (r: seq<T>)
    requires j < |s|
    ensures |r| == |s|
    decreases j
  {
    if j > 0 && cmp(s[j - 1], s[j]) > 0 then Sink(s[j - 1 := s[j]][j := s[j - 1]], cmp, j - 1)
    else s
  }

  /** The outer loop: sink the elements at `i`, `i + 1`, ... in turn. */
  function SortFrom<T>(s: seq<T>, cmp: (T, T) -> int, i: nat): (r: seq<T>)
    requires i <= |s|
    ensures |r| == |s|
    decreases |s| - i
  {
    if i < |s| then SortFrom(Sink(s, cmp, i), cmp, i + 1) else s
  }

  /** What the in-place sort leaves in the array. */
  function InsertionSorted<T>(s: seq<T>, cmp: (T, T) -> int): (r: seq<T>)
    ensures |r| == |s|
  {
    SortFrom(s, cmp, 0)
  }

  lemma {:induction false} SinkKeepsMultiset<T>(s: seq<T>, cmp: (T, T) -> int, j: nat)
    requires j < |s|
    ensures multiset(Sink(s, cmp, j)) == multiset(s)
    decreases j
  {
    if j > 0 && cmp(s[j - 1], s[j]) > 0 {
      SwapKeepsMultiset(s, j - 1, j);
      SinkKeepsMultiset(s[j - 1 := s[j]][j := s[j - 1]], cmp, j - 1);
    }
  }

  lemma {:induction false} SinkSorts<T(!new)>(s: seq<T>, cmp: (T, T) -> int, j: nat, i: nat)
    requires j <= i < |s|
    requires IsTotalPreorder(cmp) && Inserting(s, cmp, j, i)
    ensures SortedRange(Sink(s, cmp, j), cmp, 0, i + 1)
    decreases j
  {
    if j > 0 && cmp(s[j - 1], s[j]) > 0 {
      SwapStep(s, cmp, j, i);
      SinkSorts(s[j - 1 := s[j]][j := s[j - 1]], cmp, j - 1, i);
    } else {
      ExitStep(s, cmp, j, i);
    }
  }

  lemma {:induction false} SortFromKeepsMultiset<T>(s: seq<T>, cmp: (T, T) -> int, i: nat)
    requires i <= |s|
    ensures multiset(SortFrom(s, cmp, i)) == multiset(s)
    decreases |s| - i
  {
    if i < |s| {
      SinkKeepsMultiset(s, cmp, i);
      SortFromKeepsMultiset(Sink(s, cmp, i), cmp, i + 1);
    }
  }

  lemma {:induction false} SortFromSorts<T(!new)>(s: seq<T>, cmp: (T, T) -> int, i: nat)
    requires i <= |s|
    requires IsTotalPreorder(cmp) && SortedRange(s, cmp, 0, i)
    ensures SortedBy(SortFrom(s, cmp, i), cmp)
    decreases |s| - i
  {
    if i < |s| {
      SinkSorts(s, cmp, i, i);
      SortFromSorts(Sink(s, cmp, i), cmp, i + 1);
    }
  }

  /** Insertion sort always rearranges its input, and sorts it when the comparator is consistent. */
  lemma InsertionSortedIsSortedPermutation<T(!new)>(s: seq<T>, cmp: (T, T) -> int)
    ensures multiset(InsertionSorted(s, cmp)) == multiset(s)
    ensures IsTotalPreorder(cmp) ==> SortedBy(InsertionSorted(s, cmp), cmp)
  {
    SortFromKeepsMultiset(s, cmp, 0);
    if IsTotalPreorder(cmp) {
      SortFromSorts(s, cmp, 0);
    }
  }

  /**
   * `Array.prototype.sort(cmp)` as insertion sort by adjacent swaps. The array
   * is always rearranged, never changed otherwise; when the comparator is a
   * total preorder it ends up sorted by it.
   */
  method InsertionSort<T(!new)>(a: array<T>, cmp: (T, T) -> int)
    modifies a
    ensures a[..] == InsertionSorted(old(a[..]), cmp)
    ensures multiset(a[..]) == old(multiset(a[..]))
    ensures IsTotalPreorder(cmp) ==> SortedBy(a[..], cmp)
  {
    var i := 0;
    while i < a.Length
      invariant 0 <= i <= a.Length
      invariant SortFrom(a[..], cmp, i) == InsertionSorted(old(a[..]), cmp)
    {
      var j := i;
      while j > 0 && cmp(a[j - 1], a[j]) > 0
        invariant 0 <= j <= i
        invariant SortFrom(Sink(a[..], cmp, j), cmp, i + 1) == InsertionSorted(old(a[..]), cmp)
      {
        ghost var s := a[..];
        a[j - 1], a[j] := a[j], a[j - 1];
        assert a[..] == s[j - 1 := s[j]][j := s[j - 1]];
        j := j - 1;
      }
      i := i + 1;
    }
    InsertionSortedIsSortedPermutation(old(a[..]), cmp);
  }

  /** The reference for `reverse()`. */
  function Reversed<T>(s: seq<T>): (r: seq<T>)
    ensures |r| == |s|
  {
    if s == [] then [] else Reversed(s[1..]) + [s[0]]
  }

  /** Position `k` of the reversed sequence holds position `|s| - 1 - k` of `s`. */
  lemma {:induction false} ReversedIndex<T>(s: seq<T>, k: nat)
    requires k < |s|
    ensures Reversed(s)[k] == s[|s| - 1 - k]
  {
    if k < |s| - 1 {
      ReversedIndex(s[1..], k);
    }
  }

  /** `Array.prototype.reverse()`: swaps the two ends inwards. */
  method Reverse<T>(a: array<T>)
    modifies a
    ensures a[..] == Reversed(old(a[..]))
  {
    var n := a.Length;
    var lo := 0;
    while lo < n / 2
      invariant 0 <= lo <= n / 2
      invariant forall k :: 0 <= k < lo ==> a[k] == old(a[n - 1 - k]) && a[n - 1 - k] == old(a[k])
      invariant forall k :: lo <= k < n - lo ==> a[k] == old(a[k])
    {
      a[lo], a[n - 1 - lo] := a[n - 1 - lo], a[lo];
      lo := lo + 1;
    }
    ghost var before := old(a[..]);
    forall k | 0 <= k < n
      ensures a[..][k] == Reversed(before)[k]
    {
      ReversedIndex(before, k);
    }
  }
}
