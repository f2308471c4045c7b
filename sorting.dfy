/**
 * Go's `sort.Slice` on a slice with its `less` callback. The sort is not
 * stable and Go fixes no order among elements that compare equal, so the
 * contract says only what Go promises: the result is a permutation, ordered
 * whenever `less` is a strict weak order on the elements.
 */
module Sorting {
  /** `less` behaves as a strict weak order on the elements of `s`. */
  ghost predicate StrictWeakOn<T>(s: seq<T>, less: (T, T) -> bool)
  {
    (forall i {:trigger s[i]} :: 0 <= i < |s| ==> !less(s[i], s[i])) &&
    (forall i, j, k {:trigger s[i], s[j], s[k]} ::
       0 <= i < |s| && 0 <= j < |s| && 0 <= k < |s| && less(s[i], s[j]) && less(s[j], s[k]) ==> less(s[i], s[k])) &&
    (forall i, j, k {:trigger s[i], s[j], s[k]} ::
       0 <= i < |s| && 0 <= j < |s| && 0 <= k < |s| && !less(s[i], s[j]) && !less(s[j], s[k]) ==> !less(s[i], s[k]))
  }

  /** A comparison by a real-valued key is a strict weak order. */
  lemma ByKey<T>(s: seq<T>, less: (T, T) -> bool, key: T -> real)
    requires forall x, y :: less(x, y) == (key(x) < key(y))
    ensures StrictWeakOn(s, less)
  {
  }

  lemma IndexOf<T>(s: seq<T>, x: T) returns (i: int)
    requires x in multiset(s)
    ensures 0 <= i < |s| && s[i] == x
  {
    assert x in s;
    i :| 0 <= i < |s| && s[i] == x;
  }

  lemma Asym<T>(s: seq<T>, less: (T, T) -> bool, x: T, y: T)
    requires StrictWeakOn(s, less) && x in multiset(s) && y in multiset(s) && less(x, y)
    ensures !less(y, x)
  {
    var i := IndexOf(s, x);
    var j := IndexOf(s, y);
    assert s[i] == x && s[j] == y;
  }

  lemma NegTrans<T>(s: seq<T>, less: (T, T) -> bool, x: T, y: T, z: T)
    requires StrictWeakOn(s, less) && x in multiset(s) && y in multiset(s) && z in multiset(s)
    requires !less(x, y) && !less(y, z)
    ensures !less(x, z)
  {
    var i := IndexOf(s, x);
    var j := IndexOf(s, y);
    var k := IndexOf(s, z);
    assert !less(s[i], s[j]) && !less(s[j], s[k]);
  }

  /** Exchanges two entries in place. */
  method Swap<T>(a: array<T>, i: int, j: int)
    requires 0 <= i < a.Length && 0 <= j < a.Length
    modifies a
    ensures a[..] == old(a[..])[i := old(a[j])][j := old(a[i])]
    ensures multiset(a[..]) == multiset(old(a[..]))
  {
    a[i], a[j] := a[j], a[i];
  }
  /** `s[..n]` is ordered, leaving out position `j`. */
  predicate OrderedExcept<T>(s: seq<T>, n: int, j: int, less: (T, T) -> bool)
    requires n <= |s|
  {
    forall p, q :: 0 <= p < q < n && p != j && q != j ==> !less(s[q], s[p])
  }

  /** No element of `s[j+1..n]` is `less` than `s[j]`. */
  predicate LeastFrom<T>(s: seq<T>, n: int, j: int, less: (T, T) -> bool)
    requires 0 <= j < n <= |s|
  {
    forall q :: j < q < n ==> !less(s[q], s[j])
  }

  lemma SwapStep<T>(s: seq<T>, n: int, j: int, less: (T, T) -> bool)
    requires 0 < j < n <= |s|
    requires OrderedExcept(s, n, j, less) && LeastFrom(s, n, j, less)
    requires !less(s[j - 1], s[j])
    ensures OrderedExcept(s[j - 1 := s[j]][j := s[j - 1]], n, j - 1, less)
    ensures LeastFrom(s[j - 1 := s[j]][j := s[j - 1]], n, j - 1, less)
  {
  }

  lemma CloseGap<T>(s: seq<T>, n: int, j: int, less: (T, T) -> bool)
    requires 0 <= j < n <= |s|
    requires OrderedExcept(s, n, j, less) && LeastFrom(s, n, j, less)
    requires j > 0 ==> forall p :: 0 <= p < j ==> !less(s[j], s[p])
    ensures OrderedExcept(s, n, n, less)
  {
  }

  /** Sinks `a[i]` into the ordered prefix `a[..i]`. */
  method Insert<T(==)>(a: array<T>, i: int, less: (T, T) -> bool, ghost s0: seq<T>)
    requires 0 <= i < a.Length && multiset(a[..]) == multiset(s0)
    requires StrictWeakOn(s0, less) ==> OrderedExcept(a[..], i, i, less)
    modifies a
    ensures multiset(a[..]) == multiset(s0)
    ensures StrictWeakOn(s0, less) ==> OrderedExcept(a[..], i + 1, i + 1, less)
  {
    ghost var swo := StrictWeakOn(s0, less);
    var j := i;
    while j > 0 && less(a[j], a[j - 1])
      invariant 0 <= j <= i
      invariant multiset(a[..]) == multiset(s0)
      invariant swo ==> OrderedExcept(a[..], i + 1, j, less) && LeastFrom(a[..], i + 1, j, less)
    {
      ghost var before := a[..];
      if swo {
        assert a[j] in multiset(s0) && a[j - 1] in multiset(s0) by {
          assert a[j] == before[j] && a[j - 1] == before[j - 1];
        }
        Asym(s0, less, a[j], a[j - 1]);
      }
      Swap(a, j - 1, j);
      if swo {
        SwapStep(before, i + 1, j, less);
      }
      j := j - 1;
    }
    if swo {
      Settled(a[..], s0, i + 1, j, less);
    }
  }

  /** The sinking stops at a place where nothing before is larger, so
      the gap closes. */
  lemma Settled<T>(s: seq<T>, s0: seq<T>, n: int, j: int, less: (T, T) -> bool)
    requires 0 <= j < n <= |s| && multiset(s) == multiset(s0) && StrictWeakOn(s0, less)
    requires OrderedExcept(s, n, j, less) && LeastFrom(s, n, j, less)
    requires j > 0 ==> !less(s[j], s[j - 1])
    ensures OrderedExcept(s, n, n, less)
  {
    if j > 0 {
      forall p | 0 <= p < j
        ensures !less(s[j], s[p])
      {
        assert s[j] in multiset(s0) && s[j - 1] in multiset(s0) && s[p] in multiset(s0) by {
          assert s[j] in s && s[j - 1] in s && s[p] in s;
        }
        assert !less(s[j - 1], s[p]);
        NegTrans(s0, less, s[j], s[j - 1], s[p]);
      }
    }
    CloseGap(s, n, j, less);
  }

  /** `sort.Slice(a, less)`, as an insertion sort. */
  method SortSlice<T(==)>(a: array<T>, less: (T, T) -> bool)
    modifies a
    ensures multiset(a[..]) == multiset(old(a[..]))
    ensures StrictWeakOn(old(a[..]), less) ==> SortedBy(a[..], less)
  {
    ghost var s0 := a[..];
    ghost var m := multiset(s0);
    var i := 0;
    while i < a.Length
      invariant 0 <= i <= a.Length
      invariant multiset(a[..]) == m
      invariant StrictWeakOn(s0, less) ==> OrderedExcept(a[..], i, i, less)
    {
      Insert(a, i, less, s0);
      i := i + 1;
    }
    assert a[..] == a[..a.Length];
  }
  /** No later element is `less` than an earlier one. */
  predicate SortedBy<T>(s: seq<T>, less: (T, T) -> bool)
  {
    forall p, q :: 0 <= p < q < |s| ==> !less(s[q], s[p])
  }
}
