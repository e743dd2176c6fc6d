/** lib/kernel/list.c: doubly linked lists between a head and a tail element, their
    splicing, and the in-place natural merge sort. */
module LinkedList {
  import opened ListOrder

  class Elem {
    var prev: Elem?
    var next: Elem?
    constructor () {
      prev, next := null, null;
    }
  }

  type Less = (Elem, Elem) -> bool

  ghost predicate Distinct(ring: seq<Elem>) {
    forall i, j :: 0 <= i < j < |ring| ==> ring[i] != ring[j]
  }

  /** `ring` is a whole list, head and tail included: every element points to its
      neighbours. */
  ghost predicate Linked(ring: seq<Elem>)
    reads ring
  {
    && Distinct(ring)
    && (forall i :: 0 <= i < |ring| - 1 ==> ring[i].next == ring[i + 1])
    && (forall i :: 0 < i < |ring| ==> ring[i].prev == ring[i - 1])
  }

  /** All elements of `ring` belong to `own`. */
  ghost predicate Within(ring: seq<Elem>, own: set<Elem>) {
    forall i :: 0 <= i < |ring| ==> ring[i] in own
  }

  /** `ring` with `ring[i..j]` moved in front of `ring[k]`. */
  function Spliced(ring: seq<Elem>, k: nat, i: nat, j: nat): (r: seq<Elem>)
    requires k <= i <= j <= |ring|
    ensures |r| == |ring|
  {
    ring[..k] + ring[i..j] + ring[k..i] + ring[j..]
  }

  /** Where the element at `p` of the spliced list was. */
  function SpliceSource(k: nat, i: nat, j: nat, p: nat): nat
    requires k <= i <= j
  {
    if p < k || p >= j then p else if p < k + (j - i) then i + (p - k) else p - (j - i)
  }

  lemma SplicedAt(ring: seq<Elem>, k: nat, i: nat, j: nat, p: nat)
    requires k <= i <= j <= |ring| && p < |ring|
    ensures SpliceSource(k, i, j, p) < |ring| && Spliced(ring, k, i, j)[p] == ring[SpliceSource(k, i, j, p)]
  {
  }

  lemma SplicedDistinct(ring: seq<Elem>, k: nat, i: nat, j: nat)
    requires k <= i <= j <= |ring| && Distinct(ring)
    ensures Distinct(Spliced(ring, k, i, j))
  {
    var r := Spliced(ring, k, i, j);
    forall p, q | 0 <= p < q < |r| ensures r[p] != r[q] {
      SplicedAt(ring, k, i, j, p);
      SplicedAt(ring, k, i, j, q);
      var p', q' := SpliceSource(k, i, j, p), SpliceSource(k, i, j, q);
      assert p' != q';
      if p' < q' { assert ring[p'] != ring[q']; } else { assert ring[q'] != ring[p']; }
    }
  }

  /** The successor of `ring[m]` after the pointer updates of list_splice. */
  function NextAfter(k: nat, i: nat, j: nat, m: nat): nat {
    if m + 1 == k then i else if m + 1 == j then k else if m + 1 == i then j else m + 1
  }

  function PrevAfter(k: nat, i: nat, j: nat, m: nat): int {
    if m == i then k - 1 else if m == k then j - 1 else if m == j then i - 1 else m - 1
  }

  lemma SplicedNext(ring: seq<Elem>, k: nat, i: nat, j: nat, p: nat)
    requires 0 < k < i < j < |ring| && p < |ring| - 1
    ensures NextAfter(k, i, j, SpliceSource(k, i, j, p)) == SpliceSource(k, i, j, p + 1)
    ensures PrevAfter(k, i, j, SpliceSource(k, i, j, p + 1)) == SpliceSource(k, i, j, p)
  {
  }

  /** The pointers of `ring` are as list_splice leaves them; `k`, `i` and `j` may be rotated. */
  ghost predicate Relinked(ring: seq<Elem>, k: nat, i: nat, j: nat)
    requires 0 < k < |ring| && 0 < i < |ring| && 0 < j < |ring|
    reads ring
  {
    && (forall m :: 0 <= m < |ring| - 1 ==> ring[m].next == ring[NextAfter(k, i, j, m)])
    && (forall m :: 0 < m < |ring| ==> ring[m].prev == ring[PrevAfter(k, i, j, m)])
  }

  lemma Rotated(ring: seq<Elem>, k: nat, i: nat, j: nat)
    requires 0 < k < |ring| && 0 < i < |ring| && 0 < j < |ring| && k != i && i != j && j != k && Relinked(ring, k, i, j)
    ensures Relinked(ring, i, j, k)
  {
  }

  lemma SplicedLinked(ring: seq<Elem>, k: nat, i: nat, j: nat)
    requires 0 < k < i < j < |ring| && Distinct(ring) && Relinked(ring, k, i, j)
    ensures Linked(Spliced(ring, k, i, j))
  {
    var r := Spliced(ring, k, i, j);
    SplicedDistinct(ring, k, i, j);
    forall p | 0 <= p < |r| - 1 ensures r[p].next == r[p + 1] && r[p + 1].prev == r[p] {
      SplicedAt(ring, k, i, j, p);
      SplicedAt(ring, k, i, j, p + 1);
      SplicedNext(ring, k, i, j, p);
    }
    forall p | 0 < p < |r| ensures r[p].prev == r[p - 1] {
      assert r[p - 1 + 1].prev == r[p - 1];
    }
  }

  /** `ring` with `ring[i..j]` moved in front of `ring[k]`, wherever `k` lies. */
  function SplicedTo(ring: seq<Elem>, k: nat, i: nat, j: nat): seq<Elem>
    requires k <= i <= j <= |ring| || i <= j <= k <= |ring|
  {
    if k < i then Spliced(ring, k, i, j) else if j < k then Spliced(ring, i, j, k) else ring
  }

  lemma SplicedToCases(ring: seq<Elem>, k: nat, i: nat, j: nat)
    requires k <= i <= j <= |ring| || i <= j <= k <= |ring|
    ensures k < i ==> SplicedTo(ring, k, i, j) == Spliced(ring, k, i, j)
    ensures j < k ==> SplicedTo(ring, k, i, j) == Spliced(ring, i, j, k)
    ensures i == j || j == k ==> SplicedTo(ring, k, i, j) == ring
  {
  }

  /** list_splice within one list. */
  method Splice(before: Elem, first: Elem, last: Elem, ghost own: set<Elem>, ghost ring: seq<Elem>, ghost k: nat, ghost i: nat, ghost j: nat)
    requires Linked(ring) && Within(ring, own) && (0 < k < i <= j < |ring| || 0 < i <= j <= k < |ring|)
    requires before == ring[k] && first == ring[i] && last == ring[j]
    modifies own
    ensures Linked(SplicedTo(ring, k, i, j))
  {
    hide SplicedTo, Spliced, Relinked;
    SplicedToCases(ring, k, i, j);
    if first == last { return; }
    assert i < j;
    Relink(before, first, last, own, ring, k, i, j);
    if k < i {
      SplicedLinked(ring, k, i, j);
    } else if j < k {
      Rotated(ring, k, i, j);
      SplicedLinked(ring, i, j, k);
    }
  }

  /** The pointer writes of list_splice for a range that is not empty. */
  method Relink(before: Elem, first: Elem, last: Elem, ghost own: set<Elem>, ghost ring: seq<Elem>, ghost k: nat, ghost i: nat, ghost j: nat)
    requires Linked(ring) && Within(ring, own) && (0 < k < i < j < |ring| || 0 < i < j <= k < |ring|)
    requires before == ring[k] && first == ring[i] && last == ring[j]
    modifies own
    ensures k != j ==> Relinked(ring, k, i, j)
    ensures k == j ==> Linked(ring)
  {
    var final := last.prev;
    assert final == ring[j - 1] && first.prev == ring[i - 1] && final.next == ring[j];
    first.prev.next := final.next;
    final.next.prev := first.prev;
    assert k != j ==> before.prev == ring[k - 1];
    first.prev := before.prev;
    final.next := before;
    before.prev.next := first;
    before.prev := final;
  }

  // ---------- Sorting ----------

  /** find_end_of_run: the end of the nondecreasing run that starts at `a`. */
  method FindEndOfRun(a: Elem, b: Elem, less: Less, ghost ring: seq<Elem>, ghost lo: nat, ghost hi: nat)
      returns (e: Elem, ghost m: nat)
    requires Linked(ring) && 0 < lo < hi < |ring| && a == ring[lo] && b == ring[hi]
    ensures lo < m <= hi && e == ring[m] && Descents(less, ring, lo, m) == 0
    ensures m < hi ==> less(ring[m], ring[m - 1]) && e != b
  {
    assert a.next == ring[lo + 1];
    e, m := a.next, lo + 1;
    while e != b && !less(e, e.prev)
      invariant lo < m <= hi && e == ring[m] && Descents(less, ring, lo, m) == 0
      decreases hi - m
    {
      assert e.next == ring[m + 1];
      e, m := e.next, m + 1;
    }
  }

  lemma SplicedIsMoved(ring: seq<Elem>, p: nat, q: nat)
    requires p <= q < |ring|
    ensures p < q ==> SplicedTo(ring, p, q, q + 1) == Moved(ring, p, q)
  {
  }

  /** `r` is `ring` with the elements of `ring[lo..hi]` rearranged. */
  ghost predicate Rearranged(less: Less, ring: seq<Elem>, r: seq<Elem>, lo: nat, hi: nat) {
    && |r| == |ring| && Stable(less, ring, r) && Ordered(less, r, lo, hi)
    && (forall i :: 0 <= i < |ring| && !(lo <= i < hi) ==> r[i] == ring[i])
    && (forall i :: lo <= i < hi ==> r[i] in ring[lo..hi])
  }

  lemma RearrangedMore(less: Less, ring: seq<Elem>, r: seq<Elem>, lo: nat, p: nat, q: nat, hi: nat)
    requires Rearranged(less, ring, r, lo, hi) && Merging(less, r, lo, p, q, hi) && p < q < hi && less(r[q], r[p])
    ensures Rearranged(less, ring, Moved(r, p, q), lo, hi)
  {
    MoveStable(less, r, p, q);
    StableTrans(less, ring, r, Moved(r, p, q));
    OrderedKept(less, r, lo, p, q, hi);
    forall i | 0 <= i < |ring| && !(lo <= i < hi) ensures Moved(r, p, q)[i] == ring[i] {
      MovedAt(r, p, q, i);
    }
    forall i | lo <= i < hi ensures Moved(r, p, q)[i] in ring[lo..hi] {
      MovedAt(r, p, q, i);
    }
  }

  lemma MovedWithin(r: seq<Elem>, own: set<Elem>, p: nat, q: nat)
    requires p <= q < |r| && Within(r, own)
    ensures Within(Moved(r, p, q), own)
  {
    forall i | 0 <= i < |r| ensures Moved(r, p, q)[i] in own {
      MovedAt(r, p, q, i);
    }
  }

  /** Everything the loop of inplace_merge keeps. */
  ghost predicate MergeLoop(less: Less, ring: seq<Elem>, r: seq<Elem>, lo: nat, p: nat, q: nat, hi: nat, a0: Elem, a1b0: Elem, end: Elem)
    reads r
  {
    && 0 < lo && hi < |r| && Linked(r)
    && Rearranged(less, ring, r, lo, hi) && Merging(less, r, lo, p, q, hi)
    && a0 == r[p] && a1b0 == r[q] && end == r[hi]
  }

  lemma MergeLoopIndices(less: Less, ring: seq<Elem>, r: seq<Elem>, lo: nat, p: nat, q: nat, hi: nat, a0: Elem, a1b0: Elem, end: Elem)
    requires MergeLoop(less, ring, r, lo, p, q, hi, a0, a1b0, end)
    ensures lo <= p <= q <= hi && hi < |r| && (a0 == a1b0 <==> p == q) && (a1b0 == end <==> q == hi)
    ensures p < hi ==> a0.next == r[p + 1]
    ensures q < hi ==> a1b0.next == r[q + 1]
  {
  }

  lemma MergeLoopParts(less: Less, ring: seq<Elem>, r: seq<Elem>, lo: nat, p: nat, q: nat, hi: nat, a0: Elem, a1b0: Elem, end: Elem)
    requires MergeLoop(less, ring, r, lo, p, q, hi, a0, a1b0, end) && p < q < hi
    ensures 0 < lo <= p && hi < |r| && Linked(r) && Rearranged(less, ring, r, lo, hi) && Merging(less, r, lo, p, q, hi)
    ensures a0 == r[p] && a1b0 == r[q] && end == r[hi] && a1b0.next == r[q + 1] && r[q + 1].prev == r[q]
  {
  }

  lemma MergeLoopEnds(less: Less, ring: seq<Elem>, r: seq<Elem>, lo: nat, p: nat, q: nat, hi: nat, a0: Elem, a1b0: Elem, end: Elem)
    requires MergeLoop(less, ring, r, lo, p, q, hi, a0, a1b0, end) && (p == q || q == hi)
    ensures Linked(r) && Rearranged(less, ring, r, lo, hi) && Sorted(less, r, lo, hi)
  {
  }

  lemma MergeLoopKeeps(less: Less, ring: seq<Elem>, r: seq<Elem>, lo: nat, p: nat, q: nat, hi: nat, a0: Elem, a1b0: Elem, end: Elem)
    requires MergeLoop(less, ring, r, lo, p, q, hi, a0, a1b0, end) && p < q < hi && !less(a1b0, a0)
    ensures MergeLoop(less, ring, r, lo, p + 1, q, hi, r[p + 1], a1b0, end)
  {
    MergeKeeps(less, r, lo, p, q, hi);
  }

  lemma MergeLoopMoves(less: Less, ring: seq<Elem>, r: seq<Elem>, lo: nat, p: nat, q: nat, hi: nat, a0: Elem, a1b0: Elem, end: Elem)
    requires 0 < lo && hi < |r| && Rearranged(less, ring, r, lo, hi) && Merging(less, r, lo, p, q, hi)
    requires a0 == r[p] && a1b0 == r[q] && end == r[hi] && p < q < hi && less(a1b0, a0)
    requires Linked(Moved(r, p, q))
    ensures MergeLoop(less, ring, Moved(r, p, q), lo, p + 1, q + 1, hi, a0, r[q + 1], end)
  {
    assert Ordered(less, r, lo, hi);
    hide Rearranged, Merging, Linked, Moved, Ordered;
    RearrangedMore(less, ring, r, lo, p, q, hi);
    MergeMoves(less, r, lo, p, q, hi);
    MovedAt(r, p, q, p + 1);
    MovedAt(r, p, q, q + 1);
    MovedAt(r, p, q, hi);
  }

  /** The head of the second run moves in front of the first. */
  method MergeMove(a0: Elem, a1b0: Elem, less: Less, ghost own: set<Elem>, ghost ring: seq<Elem>, ghost r: seq<Elem>, ghost lo: nat, ghost p: nat, ghost q: nat, ghost hi: nat, ghost end: Elem)
      returns (next: Elem)
    requires MergeLoop(less, ring, r, lo, p, q, hi, a0, a1b0, end) && p < q < hi && less(a1b0, a0)
    requires Within(r, own)
    modifies own
    ensures MergeLoop(less, ring, Moved(r, p, q), lo, p + 1, q + 1, hi, a0, next, end)
  {
    hide *;
    MergeLoopParts(less, ring, r, lo, p, q, hi, a0, a1b0, end);
    SplicedIsMoved(r, p, q);
    next := a1b0.next;
    Splice(a0, next.prev, next, own, r, p, q, q + 1);
    MergeLoopMoves(less, ring, r, lo, p, q, hi, a0, a1b0, end);
  }

  /** inplace_merge: two adjacent sorted ranges become one. */
  method InplaceMerge(first: Elem, middle: Elem, end: Elem, less: Less, ghost own: set<Elem>, ghost ring: seq<Elem>, ghost lo: nat, ghost mid: nat, ghost hi: nat)
      returns (ghost r: seq<Elem>)
    requires MergeLoop(less, ring, ring, lo, lo, mid, hi, first, middle, end) && Within(ring, own)
    modifies own
    ensures Within(r, own) && Linked(r) && Rearranged(less, ring, r, lo, hi) && Sorted(less, r, lo, hi)
  {
    hide *;
    var a0: Elem, a1b0: Elem := first, middle;
    ghost var p, q := lo, mid;
    r := ring;
    MergeLoopIndices(less, ring, r, lo, p, q, hi, a0, a1b0, end);
    while a0 != a1b0 && a1b0 != end
      invariant MergeLoop(less, ring, r, lo, p, q, hi, a0, a1b0, end)
      invariant Within(r, own)
      decreases hi - p
    {
      MergeLoopIndices(less, ring, r, lo, p, q, hi, a0, a1b0, end);
      if !less(a1b0, a0) {
        MergeLoopKeeps(less, ring, r, lo, p, q, hi, a0, a1b0, end);
        a0 := a0.next;
        p := p + 1;
      } else {
        a1b0 := MergeMove(a0, a1b0, less, own, ring, r, lo, p, q, hi, end);
        MovedWithin(r, own, p, q);
        r := Moved(r, p, q);
        p, q := p + 1, q + 1;
        MergeLoopIndices(less, ring, r, lo, p, q, hi, a0, a1b0, end);
      }
    }
    MergeLoopIndices(less, ring, r, lo, p, q, hi, a0, a1b0, end);
    MergeLoopEnds(less, ring, r, lo, p, q, hi, a0, a1b0, end);
  }

  // ---------- list_sort ----------

  /** Everything the inner loop of list_sort keeps: `cnt` pairs of runs, up to `p`, have
      been merged. */
  ghost predicate PassLoop(less: Less, ring: seq<Elem>, r: seq<Elem>, p: nat, cnt: nat) {
    && 2 <= |ring| == |r| && 1 <= p < |ring|
    && Rearranged(less, ring, r, 1, |ring| - 1)
    && (forall i :: p <= i < |ring| ==> r[i] == ring[i])
    && Runs(less, r, 1, p) <= cnt && Runs(less, ring, 1, p) == 2 * cnt
    && (1 < p < |ring| - 1 ==> less(ring[p], ring[p - 1]))
  }

  lemma RearrangedMember(less: Less, r: seq<Elem>, r2: seq<Elem>, p: nat, hi: nat, i: nat)
    requires 1 <= p <= hi < |r| && Rearranged(less, r, r2, p, hi) && 1 <= i < |r| - 1
    ensures r2[i] in r[1..|r| - 1]
  {
    var n := |r| - 1;
    if p <= i < hi {
      var j :| 0 <= j < hi - p && r[p..hi][j] == r2[i];
      assert r[1..n][p + j - 1] == r2[i];
    } else {
      assert r[1..n][i - 1] == r2[i];
    }
  }

  lemma RearrangedOrdered(less: Less, r: seq<Elem>, r2: seq<Elem>, p: nat, hi: nat)
    requires 1 <= p <= hi < |r| && Rearranged(less, r, r2, p, hi) && Ordered(less, r, 1, |r| - 1)
    ensures Ordered(less, r2, 1, |r| - 1)
  {
    var n := |r| - 1;
    assert |r2| == |r|;
    hide Rearranged, StrictWeak;
    forall y | y in r2[1..n] ensures y in r[1..n] {
      var i :| 0 <= i < n - 1 && r2[1..n][i] == y;
      RearrangedMember(less, r, r2, p, hi, i + 1);
    }
    WeakerStrictWeak(less, r[1..n], r2[1..n]);
  }

  lemma RearrangedTrans(less: Less, ring: seq<Elem>, r: seq<Elem>, r2: seq<Elem>, p: nat, hi: nat)
    requires 2 <= |ring| && Rearranged(less, ring, r, 1, |ring| - 1)
    requires 1 <= p <= hi < |ring| && Rearranged(less, r, r2, p, hi)
    ensures Rearranged(less, ring, r2, 1, |ring| - 1)
  {
    hide Stable, Ordered;
    var n := |ring| - 1;
    StableTrans(less, ring, r, r2);
    RearrangedOrdered(less, r, r2, p, hi);
    forall i | 1 <= i < n ensures r2[i] in ring[1..n] {
      RearrangedMember(less, r, r2, p, hi, i);
      var j :| 0 <= j < n - 1 && r[1..n][j] == r2[i];
      assert r[j + 1] == r2[i];
    }
  }

  /** Two more runs have been merged into one. */
  lemma PassMerges(less: Less, ring: seq<Elem>, r: seq<Elem>, r2: seq<Elem>, p: nat, m: nat, hi: nat, cnt: nat)
    requires PassLoop(less, ring, r, p, cnt) && p < m < hi < |ring|
    requires Descents(less, r, p, m) == 0 && less(r[m], r[m - 1]) && Descents(less, r, m, hi) == 0
    requires hi < |ring| - 1 ==> less(r[hi], r[hi - 1])
    requires Rearranged(less, r, r2, p, hi) && Sorted(less, r2, p, hi)
    ensures PassLoop(less, ring, r2, hi, cnt + 1) && r2[hi] == r[hi]
  {
    RearrangedTrans(less, ring, r, r2, p, hi);
    MergedRuns(less, r, r2, p, hi, cnt);
    ConsumedRuns(less, ring, r, p, m, hi, cnt);
  }

  lemma MergedRuns(less: Less, r: seq<Elem>, r2: seq<Elem>, p: nat, hi: nat, cnt: nat)
    requires 1 <= p < hi < |r| == |r2| && Runs(less, r, 1, p) <= cnt && Sorted(less, r2, p, hi)
    requires forall i :: 0 <= i < p ==> r2[i] == r[i]
    ensures Runs(less, r2, 1, hi) <= cnt + 1
  {
    SortedHasNoDescents(less, r2, p, hi);
    DescentsSame(less, r2, r, 1, p);
    if 1 < p { DescentsJoin(less, r2, 1, p, hi); }
  }

  lemma ConsumedRuns(less: Less, ring: seq<Elem>, r: seq<Elem>, p: nat, m: nat, hi: nat, cnt: nat)
    requires PassLoop(less, ring, r, p, cnt) && p < m < hi < |ring|
    requires Descents(less, r, p, m) == 0 && less(r[m], r[m - 1]) && Descents(less, r, m, hi) == 0
    ensures Runs(less, ring, 1, hi) == 2 * (cnt + 1)
  {
    DescentsSame(less, ring, r, p, m);
    DescentsSame(less, ring, r, m, hi);
    DescentsJoin(less, ring, p, m, hi);
    if 1 < p { DescentsJoin(less, ring, 1, p, hi); }
  }

  /** The last run stands alone. */
  lemma PassEndsOdd(less: Less, ring: seq<Elem>, r: seq<Elem>, p: nat, cnt: nat)
    requires PassLoop(less, ring, r, p, cnt) && p < |ring| - 1 && Descents(less, r, p, |ring| - 1) == 0
    ensures Runs(less, r, 1, |ring| - 1) <= cnt + 1 && Runs(less, ring, 1, |ring| - 1) == 2 * cnt + 1
  {
    hide Rearranged, Descents;
    var n := |ring| - 1;
    DescentsSame(less, ring, r, p, n);
    if 1 < p {
      DescentsJoin(less, ring, 1, p, n);
      DescentsJoin(less, r, 1, p, n);
    }
  }

  lemma OrderedPart(less: Less, r: seq<Elem>, lo: nat, hi: nat)
    requires 1 <= lo <= hi < |r| && Ordered(less, r, 1, |r| - 1)
    ensures Ordered(less, r, lo, hi)
  {
    var n := |r| - 1;
    forall y | y in r[lo..hi] ensures y in r[1..n] {
      var i :| 0 <= i < hi - lo && r[lo..hi][i] == y;
      assert r[1..n][lo + i - 1] == y;
    }
    WeakerStrictWeak(less, r[1..n], r[lo..hi]);
  }

  /** Two adjacent runs are ready to be merged. */
  lemma RunsReady(less: Less, r: seq<Elem>, p: nat, m: nat, hi: nat)
    requires Linked(r) && 1 <= p < m < hi < |r| && Ordered(less, r, 1, |r| - 1)
    requires Descents(less, r, p, m) == 0 && Descents(less, r, m, hi) == 0
    ensures MergeLoop(less, r, r, p, p, m, hi, r[p], r[m], r[hi])
  {
    OrderedPart(less, r, p, hi);
    OrderedPart(less, r, p, m);
    OrderedPart(less, r, m, hi);
    NoDescentsIsSorted(less, r, p, m);
    NoDescentsIsSorted(less, r, m, hi);
    forall i | p <= i < hi ensures r[i] in r[p..hi] {
      assert r[p..hi][i - p] == r[i];
    }
  }

  /** One pass of list_sort: merges runs in pairs and counts the results. */
  method SortPass(head: Elem, tail: Elem, less: Less, ghost own: set<Elem>, ghost ring: seq<Elem>)
      returns (cnt: nat, ghost r: seq<Elem>)
    requires Linked(ring) && Within(ring, own) && 2 <= |ring| && head == ring[0] && tail == ring[|ring| - 1]
    requires Ordered(less, ring, 1, |ring| - 1)
    modifies own
    ensures Linked(r) && Within(r, own) && Rearranged(less, ring, r, 1, |ring| - 1)
    ensures Runs(less, r, 1, |ring| - 1) <= cnt
    ensures Runs(less, ring, 1, |ring| - 1) == 2 * cnt || Runs(less, ring, 1, |ring| - 1) == 2 * cnt - 1
  {
    hide *;
    PassStarts(less, ring);
    var a0: Elem := head.next;
    ghost var p := 1;
    cnt, r := 0, ring;
    while a0 != tail
      invariant 1 <= p < |ring| == |r|
      invariant Linked(r) && Within(r, own) && PassLoop(less, ring, r, p, cnt)
      invariant a0 == r[p] && tail == r[|r| - 1]
      decreases |ring| - p
    {
      PassIndices(less, ring, r, p, cnt);
      var a1b0, b1;
      ghost var m, hi;
      a1b0, m := FindEndOfRun(a0, tail, less, r, p, |ring| - 1);
      if a1b0 == tail {
        PassEndsOdd(less, ring, r, p, cnt);
        cnt := cnt + 1;
        return;
      }
      b1, hi := FindEndOfRun(a1b0, tail, less, r, m, |ring| - 1);
      RunsReady(less, r, p, m, hi);
      ghost var r2 := InplaceMerge(a0, a1b0, b1, less, own, r, p, m, hi);
      PassMerges(less, ring, r, r2, p, m, hi, cnt);
      PassIndices(less, ring, r2, hi, cnt + 1);
      a0, p, r, cnt := b1, hi, r2, cnt + 1;
    }
    PassEndsEven(less, ring, r, p, cnt);
  }

  lemma PassEndsEven(less: Less, ring: seq<Elem>, r: seq<Elem>, p: nat, cnt: nat)
    requires PassLoop(less, ring, r, p, cnt) && Linked(r) && r[p] == r[|r| - 1]
    ensures Runs(less, r, 1, |ring| - 1) <= cnt && Runs(less, ring, 1, |ring| - 1) == 2 * cnt
    ensures Rearranged(less, ring, r, 1, |ring| - 1)
  {
    assert p == |ring| - 1;
  }

  lemma PassStarts(less: Less, ring: seq<Elem>)
    requires 2 <= |ring| && Ordered(less, ring, 1, |ring| - 1) && Linked(ring)
    ensures PassLoop(less, ring, ring, 1, 0) && ring[0].next == ring[1]
  {
    var n := |ring| - 1;
    forall i | 1 <= i < n ensures ring[i] in ring[1..n] {
      assert ring[1..n][i - 1] == ring[i];
    }
  }

  lemma PassIndices(less: Less, ring: seq<Elem>, r: seq<Elem>, p: nat, cnt: nat)
    requires PassLoop(less, ring, r, p, cnt)
    ensures 1 <= p < |ring| == |r| && Ordered(less, r, 1, |r| - 1) && r[|r| - 1] == ring[|ring| - 1]
    ensures Rearranged(less, ring, r, 1, |ring| - 1)
  {
  }

  /** list_sort: the list becomes the stable sorted rearrangement of itself. */
  method ListSort(head: Elem, tail: Elem, less: Less, ghost own: set<Elem>, ghost ring: seq<Elem>)
      returns (ghost r: seq<Elem>)
    requires Linked(ring) && Within(ring, own) && 2 <= |ring| && head == ring[0] && tail == ring[|ring| - 1]
    requires Ordered(less, ring, 1, |ring| - 1)
    modifies own
    ensures Linked(r) && Within(r, own) && |r| == |ring| && r[0] == head && r[|r| - 1] == tail
    ensures Stable(less, ring, r) && Sorted(less, r, 1, |r| - 1)
  {
    hide *;
    ghost var n := |ring| - 1;
    var cnt;
    cnt, r := SortPass(head, tail, less, own, ring);
    RearrangedEnds(less, ring, r);
    while cnt > 1
      invariant Linked(r) && Within(r, own) && |r| == |ring|
      invariant Rearranged(less, ring, r, 1, n) && Runs(less, r, 1, n) <= cnt
      invariant r[0] == head && r[n] == tail && Ordered(less, r, 1, n)
      decreases Runs(less, r, 1, n), cnt
    {
      ghost var r2;
      cnt, r2 := SortPass(head, tail, less, own, r);
      RearrangedEnds(less, r, r2);
      RearrangedTrans(less, ring, r, r2, 1, n);
      r := r2;
    }
    FewRunsSorted(less, ring, r);
  }

  lemma RearrangedEnds(less: Less, ring: seq<Elem>, r: seq<Elem>)
    requires 2 <= |ring| && Rearranged(less, ring, r, 1, |ring| - 1)
    ensures |r| == |ring| && r[0] == ring[0] && r[|r| - 1] == ring[|r| - 1] && Ordered(less, r, 1, |r| - 1)
  {
  }

  lemma FewRunsSorted(less: Less, ring: seq<Elem>, r: seq<Elem>)
    requires 2 <= |ring| && Rearranged(less, ring, r, 1, |ring| - 1) && Runs(less, r, 1, |r| - 1) <= 1
    ensures Stable(less, ring, r) && Sorted(less, r, 1, |r| - 1)
  {
    NoDescentsIsSorted(less, r, 1, |r| - 1);
  }
}
