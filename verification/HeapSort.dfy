/** sort and binary_search over an array (stdlib.c). */
module HeapSort {
  import opened Storage
  import opened HeapOrder

  /** do_swap, with 1-based indexes. */
  method DoSwap<T>(a: array<T>, i: nat, j: nat)
    requires 1 <= i <= a.Length && 1 <= j <= a.Length
    modifies a
    ensures a[..] == Swapped(old(a[..]), i - 1, j - 1)
  {
    a[i - 1], a[j - 1] := a[j - 1], a[i - 1];
  }

  /** The index of the largest among `i` and its children within the first `cnt`. */
  method Largest<T(!new)>(a: array<T>, i: nat, cnt: nat, cmp: (T, T) -> int) returns (max: nat)
    requires TotalPreorder(cmp) && 1 <= i <= a.Length && cnt <= a.Length
    ensures max != i ==> LargerChild(a[..], cmp, cnt, i, max)
    ensures max == i ==> forall j :: 2 <= j <= cnt && j / 2 == i ==> Below(a[..], cmp, j)
  {
    hide TotalPreorder, LargerChild, Below;
    var left, right := 2 * i, 2 * i + 1;
    max := i;
    if left <= cnt && cmp(a[left - 1], a[max - 1]) > 0 {
      max := left;
    }
    if right <= cnt && cmp(a[right - 1], a[max - 1]) > 0 {
      max := right;
    }
    LargestOf(a[..], i, cnt, cmp, max);
  }

  lemma LargestOf<T(!new)>(s: seq<T>, i: nat, cnt: nat, cmp: (T, T) -> int, max: nat)
    requires TotalPreorder(cmp) && 1 <= i <= |s| && cnt <= |s|
    requires var left, right := 2 * i, 2 * i + 1;
      var m := if left <= cnt && cmp(s[left - 1], s[i - 1]) > 0 then left else i;
      max == if right <= cnt && cmp(s[right - 1], s[m - 1]) > 0 then right else m
    ensures max != i ==> LargerChild(s, cmp, cnt, i, max)
    ensures max == i ==> forall j :: 2 <= j <= cnt && j / 2 == i ==> Below(s, cmp, j)
  {
    forall j | 2 <= j <= cnt && j / 2 == i ensures cmp(s[j - 1], s[max - 1]) <= 0 {
      assert j == 2 * i || j == 2 * i + 1;
    }
  }

  /** heapify: floats element `i` down until the heap order holds from `i` on. */
  method Heapify<T(!new)>(a: array<T>, i0: nat, cnt: nat, cmp: (T, T) -> int)
    requires TotalPreorder(cmp) && 1 <= i0 <= a.Length && cnt <= a.Length && Heap(a[..], cmp, i0 + 1, cnt)
    modifies a
    ensures Heap(a[..], cmp, i0, cnt) && Rearranged(old(a[..]), a[..], cnt)
  {
    hide TotalPreorder, LargerChild, Below, Rearranged, Heap, HeapBut;
    ghost var start := a[..];
    var i := i0;
    StartSift(start, cmp, i0, cnt);
    while true
      invariant i0 <= i <= a.Length && HeapBut(a[..], cmp, i0, cnt, i) && Rearranged(start, a[..], cnt)
      decreases a.Length - i
    {
      var max := Largest(a, i, cnt, cmp);
      if max == i {
        SiftDone(a[..], cmp, i0, cnt, i);
        break;
      }
      ghost var before := a[..];
      Sift(start, before, cmp, i0, cnt, i, max);
      DoSwap(a, i, max);
      i := max;
    }
  }

  lemma StartSift<T>(s: seq<T>, cmp: (T, T) -> int, i: nat, cnt: nat)
    requires 1 <= i && cnt <= |s| && Heap(s, cmp, i + 1, cnt)
    ensures HeapBut(s, cmp, i, cnt, i) && Rearranged(s, s, cnt)
  {
  }

  lemma Sift<T(!new)>(start: seq<T>, s: seq<T>, cmp: (T, T) -> int, lo: nat, cnt: nat, i: nat, max: nat)
    requires TotalPreorder(cmp) && cnt <= |s| && 1 <= lo <= i && HeapBut(s, cmp, lo, cnt, i) && LargerChild(s, cmp, cnt, i, max)
    requires Rearranged(start, s, cnt)
    ensures i < max <= cnt && HeapBut(Swapped(s, i - 1, max - 1), cmp, lo, cnt, max)
    ensures Rearranged(start, Swapped(s, i - 1, max - 1), cnt)
  {
    SiftStep(s, cmp, lo, cnt, i, max);
  }

  // ---------- sort ----------

  /** The last elements, from `n` on, are in order and not below any of the first `n`. */
  ghost predicate Settled<T>(s: seq<T>, cmp: (T, T) -> int, n: nat)
    requires n <= |s|
  {
    forall p, q :: 0 <= p < q < |s| && n <= q ==> cmp(s[p], s[q]) <= 0
  }

  method BuildHeap<T(!new)>(a: array<T>, cmp: (T, T) -> int)
    requires TotalPreorder(cmp)
    modifies a
    ensures Heap(a[..], cmp, 1, a.Length) && multiset(a[..]) == multiset(old(a[..]))
  {
    hide TotalPreorder, Rearranged, Heap;
    ghost var start := a[..];
    var i := a.Length / 2;
    LeavesHeap(a[..], cmp);
    while i > 0
      invariant 0 <= i <= a.Length / 2 && Heap(a[..], cmp, i + 1, a.Length) && multiset(a[..]) == multiset(start)
    {
      ghost var before := a[..];
      Heapify(a, i, a.Length, cmp);
      SameElements(before, a[..], a.Length);
      i := i - 1;
    }
  }

  lemma LeavesHeap<T>(s: seq<T>, cmp: (T, T) -> int)
    ensures Heap(s, cmp, |s| / 2 + 1, |s|)
  {
  }

  lemma SameElements<T>(s: seq<T>, t: seq<T>, n: nat)
    requires Rearranged(s, t, n)
    ensures multiset(t) == multiset(s)
  {
    RearrangedWider(s, t, n, |s|);
    assert s[..|s|] == s && t[..|t|] == t;
  }

  /** Moving the root behind the heap settles one more place. */
  lemma Settle<T(!new)>(s: seq<T>, cmp: (T, T) -> int, n: nat)
    requires TotalPreorder(cmp) && 2 <= n <= |s| && Heap(s, cmp, 1, n) && Settled(s, cmp, n)
    ensures var t := Swapped(s, 0, n - 1); Settled(t, cmp, n - 1) && Heap(t, cmp, 2, n - 1)
  {
    var t := Swapped(s, 0, n - 1);
    forall p, q | 0 <= p < q < |t| && n - 1 <= q ensures cmp(t[p], t[q]) <= 0 {
      if q == n - 1 {
        RootLargest(s, cmp, n, if p == 0 then n else p + 1);
      }
    }
    forall j | 2 <= j <= n - 1 && 2 <= j / 2 ensures Below(t, cmp, j) {
      assert Below(s, cmp, j);
    }
  }

  lemma StaysSettled<T>(s: seq<T>, t: seq<T>, cmp: (T, T) -> int, n: nat)
    requires Rearranged(s, t, n) && Settled(s, cmp, n)
    ensures Settled(t, cmp, n)
  {
    forall p, q | 0 <= p < q < |t| && n <= q ensures cmp(t[p], t[q]) <= 0 {
      assert t[q] == t[n..][q - n] == s[q];
      if p < n {
        RearrangedBound(s, t, n, cmp, s[q]);
      } else {
        assert t[p] == t[n..][p - n] == s[p];
      }
    }
  }

  /** Heapsort: the array ends up in order, with the elements it had. */
  method Sort<T(!new)>(a: array<T>, cmp: (T, T) -> int)
    requires TotalPreorder(cmp)
    modifies a
    ensures Sorted(a[..], cmp) && multiset(a[..]) == multiset(old(a[..]))
  {
    hide TotalPreorder, Rearranged, Heap, Settled;
    ghost var start := a[..];
    BuildHeap(a, cmp);
    var i := a.Length;
    NoneSettled(a[..], cmp);
    while i > 1
      invariant 0 <= i <= a.Length && (i == 0 ==> a.Length == 0) && Heap(a[..], cmp, 1, i) && Settled(a[..], cmp, i)
      invariant multiset(a[..]) == multiset(start)
    {
      ghost var s := a[..];
      Settle(s, cmp, i);
      DoSwap(a, 1, i);
      ghost var t := a[..];
      Heapify(a, 1, i - 1, cmp);
      StaysSettled(t, a[..], cmp, i - 1);
      SameElements(t, a[..], i - 1);
      i := i - 1;
    }
    AllSettled(a[..], cmp, i);
  }

  lemma NoneSettled<T>(s: seq<T>, cmp: (T, T) -> int)
    ensures Settled(s, cmp, |s|)
  {
  }

  lemma AllSettled<T>(s: seq<T>, cmp: (T, T) -> int, n: nat)
    requires n <= 1 && n <= |s| && Settled(s, cmp, n)
    ensures Sorted(s, cmp)
  {
  }

  // ---------- binary_search ----------

  /** An element equal to the key if the sorted array has one, and nothing only if not. */
  method BinarySearch<T(!new)>(key: T, a: array<T>, cmp: (T, T) -> int) returns (r: Option<nat>)
    requires TotalPreorder(cmp) && Sorted(a[..], cmp)
    ensures r.Some? ==> r.value < a.Length && cmp(key, a[r.value]) == 0
    ensures r.None? <==> forall k :: 0 <= k < a.Length ==> cmp(key, a[k]) != 0
  {
    var first, last := 0, a.Length;
    while first < last
      invariant 0 <= first <= last <= a.Length
      invariant forall k :: 0 <= k < first ==> cmp(key, a[k]) > 0
      invariant forall k :: last <= k < a.Length ==> cmp(key, a[k]) < 0
    {
      var middle := first + (last - first) / 2;
      var c := cmp(key, a[middle]);
      if c < 0 {
        forall k | middle <= k < a.Length ensures cmp(key, a[k]) < 0 { }
        last := middle;
      } else if c > 0 {
        forall k | 0 <= k <= middle ensures cmp(key, a[k]) > 0 { }
        first := middle + 1;
      } else {
        return Some(middle);
      }
    }
    return None;
  }

}
