/** Heap order and permutations on sequences, for heapsort with 1-based indexes. */
module HeapOrder {

  /** A strcmp-type comparison: its results for `x, y` and `y, x` have opposite signs, and
      "not greater" is transitive. */
  ghost predicate TotalPreorder<T(!new)>(cmp: (T, T) -> int) {
    && (forall x, y :: cmp(x, y) > 0 <==> cmp(y, x) < 0)
    && (forall x, y, z :: cmp(x, y) <= 0 && cmp(y, z) <= 0 ==> cmp(x, z) <= 0)
  }

  ghost predicate Sorted<T>(s: seq<T>, cmp: (T, T) -> int) {
    forall p, q :: 0 <= p < q < |s| ==> cmp(s[p], s[q]) <= 0
  }

  function Swapped<T>(s: seq<T>, i: nat, j: nat): seq<T>
    requires i < |s| && j < |s|
  {
    s[i := s[j]][j := s[i]]
  }

  /** `t` rearranges the first `n` elements of `s` and keeps the others in place. */
  ghost predicate Rearranged<T>(s: seq<T>, t: seq<T>, n: nat) {
    n <= |s| == |t| && multiset(t[..n]) == multiset(s[..n]) && t[n..] == s[n..]
  }

  /** A rearrangement of a shorter front is one of a longer front. */
  lemma RearrangedWider<T>(s: seq<T>, t: seq<T>, n: nat, m: nat)
    requires Rearranged(s, t, n) && n <= m <= |s|
    ensures Rearranged(s, t, m)
  {
    assert s[..m] == s[..n] + s[n..][..m - n];
    assert t[..m] == t[..n] + t[n..][..m - n];
    assert t[m..] == t[n..][m - n..] && s[m..] == s[n..][m - n..];
  }

  /** A bound for the front stays one. */
  lemma RearrangedBound<T>(s: seq<T>, t: seq<T>, n: nat, cmp: (T, T) -> int, y: T)
    requires Rearranged(s, t, n) && forall p :: 0 <= p < n ==> cmp(s[p], y) <= 0
    ensures forall p :: 0 <= p < n ==> cmp(t[p], y) <= 0
  {
    forall p | 0 <= p < n ensures cmp(t[p], y) <= 0 {
      assert t[..n][p] in multiset(t[..n]);
      assert t[p] in s[..n];
    }
  }

  // ---------- Heaps ----------

  /** Element `j` does not exceed its parent. */
  ghost predicate Below<T>(s: seq<T>, cmp: (T, T) -> int, j: nat)
    requires 2 <= j <= |s|
  {
    cmp(s[j - 1], s[j / 2 - 1]) <= 0
  }

  /** Every element of the first `cnt` whose parent is `lo` or later is below its parent. */
  ghost predicate Heap<T>(s: seq<T>, cmp: (T, T) -> int, lo: nat, cnt: nat)
    requires cnt <= |s|
  {
    forall j :: 2 <= j <= cnt && lo <= j / 2 ==> Below(s, cmp, j)
  }

  /** The same but for the children of `i`, which are below the parent of `i`. */
  ghost predicate HeapBut<T>(s: seq<T>, cmp: (T, T) -> int, lo: nat, cnt: nat, i: nat)
    requires cnt <= |s| && 1 <= lo <= i
  {
    && (forall j :: 2 <= j <= cnt && lo <= j / 2 && j / 2 != i ==> Below(s, cmp, j))
    && (forall j :: 2 <= j <= cnt && j / 2 == i && lo <= i / 2 ==> cmp(s[j - 1], s[i / 2 - 1]) <= 0)
  }

  /** `max` is the larger child of `i`, and larger than `i`. */
  ghost predicate LargerChild<T>(s: seq<T>, cmp: (T, T) -> int, cnt: nat, i: nat, max: nat)
    requires cnt <= |s| && 1 <= i
  {
    && 2 <= max <= cnt && max / 2 == i && cmp(s[i - 1], s[max - 1]) <= 0
    && (forall j :: 2 <= j <= cnt && j / 2 == i ==> cmp(s[j - 1], s[max - 1]) <= 0)
  }

  lemma SiftStep<T(!new)>(s: seq<T>, cmp: (T, T) -> int, lo: nat, cnt: nat, i: nat, max: nat)
    requires TotalPreorder(cmp) && cnt <= |s| && 1 <= lo <= i && HeapBut(s, cmp, lo, cnt, i) && LargerChild(s, cmp, cnt, i, max)
    ensures HeapBut(Swapped(s, i - 1, max - 1), cmp, lo, cnt, max)
  {
    hide TotalPreorder, Below;
    var t := Swapped(s, i - 1, max - 1);
    forall j | 2 <= j <= cnt && lo <= j / 2 && j / 2 != max ensures Below(t, cmp, j) {
      if j / 2 == i { SiftChild(s, cmp, cnt, i, max, j); } else { SiftOther(s, cmp, lo, cnt, i, max, j); }
    }
    forall j | 2 <= j <= cnt && j / 2 == max ensures cmp(t[j - 1], t[max / 2 - 1]) <= 0 {
      SiftGrandchild(s, cmp, i, max, j);
    }
  }

  /** A child of `i` is below what has come up to `i`. */
  lemma SiftChild<T>(s: seq<T>, cmp: (T, T) -> int, cnt: nat, i: nat, max: nat, j: nat)
    requires 1 <= i && cnt <= |s| && LargerChild(s, cmp, cnt, i, max) && 2 <= j <= cnt && j / 2 == i
    ensures Below(Swapped(s, i - 1, max - 1), cmp, j)
  {
  }

  /** What has come up is below the parent of `i`; elsewhere nothing has changed. */
  lemma SiftOther<T>(s: seq<T>, cmp: (T, T) -> int, lo: nat, cnt: nat, i: nat, max: nat, j: nat)
    requires 1 <= lo <= i && cnt <= |s| && HeapBut(s, cmp, lo, cnt, i) && LargerChild(s, cmp, cnt, i, max)
    requires 2 <= j <= cnt && lo <= j / 2 && j / 2 != i && j / 2 != max
    ensures Below(Swapped(s, i - 1, max - 1), cmp, j)
  {
    assert Below(s, cmp, j);
    if j == i { assert cmp(s[max - 1], s[i / 2 - 1]) <= 0; }
  }

  lemma SiftGrandchild<T>(s: seq<T>, cmp: (T, T) -> int, i: nat, max: nat, j: nat)
    requires 1 <= i < max < j <= |s| && max / 2 == i && j / 2 == max && Below(s, cmp, j)
    ensures cmp(Swapped(s, i - 1, max - 1)[j - 1], Swapped(s, i - 1, max - 1)[max / 2 - 1]) <= 0
  {
  }

  lemma SiftDone<T>(s: seq<T>, cmp: (T, T) -> int, lo: nat, cnt: nat, i: nat)
    requires cnt <= |s| && 1 <= lo <= i && HeapBut(s, cmp, lo, cnt, i)
    requires forall j :: 2 <= j <= cnt && j / 2 == i ==> Below(s, cmp, j)
    ensures Heap(s, cmp, lo, cnt)
  {
  }

  /** The root of a heap is its largest element. */
  lemma {:induction false} RootLargest<T(!new)>(s: seq<T>, cmp: (T, T) -> int, cnt: nat, j: nat)
    requires TotalPreorder(cmp) && 1 <= j <= cnt <= |s| && Heap(s, cmp, 1, cnt)
    ensures cmp(s[j - 1], s[0]) <= 0
  {
    if j > 1 {
      assert Below(s, cmp, j);
      RootLargest(s, cmp, cnt, j / 2);
    } else {
      assert !(cmp(s[0], s[0]) > 0);
    }
  }
}
