/** Orders on sequences: stable rearrangement, sorted ranges and natural runs. */
module ListOrder {

  /** `less` is a strict weak order on the elements of `xs`. */
  ghost predicate StrictWeak<T>(less: (T, T) -> bool, xs: seq<T>) {
    && (forall x :: x in xs ==> !less(x, x))
    && (forall x, y, z :: x in xs && y in xs && z in xs && less(x, y) && less(y, z) ==> less(x, z))
    && (forall x, y, z :: x in xs && y in xs && z in xs && !less(x, y) && !less(y, z) ==> !less(x, z))
  }

  // ---------- Stability ----------

  ghost predicate Before<T>(xs: seq<T>, x: T, y: T) {
    exists i, j :: 0 <= i < j < |xs| && xs[i] == x && xs[j] == y
  }

  /** `ys` rearranges `xs`, and two elements have changed places only if the one that
      now comes first is strictly less. */
  ghost predicate Stable<T>(less: (T, T) -> bool, xs: seq<T>, ys: seq<T>) {
    && multiset(ys) == multiset(xs)
    && (forall p, q :: 0 <= p < q < |ys| ==> less(ys[p], ys[q]) || Before(xs, ys[p], ys[q]))
  }

  lemma StableTrans<T>(less: (T, T) -> bool, xs: seq<T>, ys: seq<T>, zs: seq<T>)
    requires Stable(less, xs, ys) && Stable(less, ys, zs)
    ensures Stable(less, xs, zs)
  {
    forall p, q | 0 <= p < q < |zs| ensures less(zs[p], zs[q]) || Before(xs, zs[p], zs[q]) {
      if !less(zs[p], zs[q]) {
        var i, j :| 0 <= i < j < |ys| && ys[i] == zs[p] && ys[j] == zs[q];
      }
    }
  }

  /** `xs` with the element at `i` moved in front of the one at `k`. */
  function Moved<T>(xs: seq<T>, k: nat, i: nat): (ys: seq<T>)
    requires k <= i < |xs|
    ensures |ys| == |xs|
  {
    xs[..k] + [xs[i]] + xs[k..i] + xs[i + 1..]
  }

  lemma MovedAt<T>(xs: seq<T>, k: nat, i: nat, p: nat)
    requires k <= i < |xs| && p < |xs|
    ensures Moved(xs, k, i)[p] == if p < k || p > i then xs[p] else if p == k then xs[i] else xs[p - 1]
  {
  }

  /** Where the element at `p` of the moved sequence was. */
  function Source(k: nat, i: nat, p: nat): nat {
    if p < k || p > i then p else if p == k then i else p - 1
  }

  lemma MovedMultiset<T>(xs: seq<T>, k: nat, i: nat)
    requires k <= i < |xs|
    ensures multiset(Moved(xs, k, i)) == multiset(xs)
  {
    assert xs == xs[..k] + xs[k..i] + [xs[i]] + xs[i + 1..];
  }

  lemma MoveStable<T>(less: (T, T) -> bool, xs: seq<T>, k: nat, i: nat)
    requires k <= i < |xs| && forall m :: k <= m < i ==> less(xs[i], xs[m])
    ensures Stable(less, xs, Moved(xs, k, i))
  {
    var ys := Moved(xs, k, i);
    MovedMultiset(xs, k, i);
    forall p, q | 0 <= p < q < |ys| ensures less(ys[p], ys[q]) || Before(xs, ys[p], ys[q]) {
      MovedAt(xs, k, i, p);
      MovedAt(xs, k, i, q);
      var p', q' := Source(k, i, p), Source(k, i, q);
      assert ys[p] == xs[p'] && ys[q] == xs[q'];
      if p == k && q <= i {
        assert less(xs[i], xs[q - 1]);
      } else {
        assert p' < q';
      }
    }
  }

  // ---------- Sorted ranges ----------

  /** No element of `xs[lo..hi]` is less than an earlier one. */
  ghost predicate Sorted<T>(less: (T, T) -> bool, xs: seq<T>, lo: nat, hi: nat) {
    forall i, j :: lo <= i < j < hi <= |xs| ==> !less(xs[j], xs[i])
  }

  /** No element of `xs[mid..hi]` is less than one of `xs[lo..mid]`. */
  ghost predicate Split<T>(less: (T, T) -> bool, xs: seq<T>, lo: nat, mid: nat, hi: nat) {
    forall i, j :: lo <= i < mid <= j < hi <= |xs| ==> !less(xs[j], xs[i])
  }

  // ---------- Runs ----------

  /** The descents of `xs[lo..hi]`: elements less than the one before them. */
  function Descents<T>(less: (T, T) -> bool, xs: seq<T>, lo: nat, hi: nat): nat
    requires hi <= |xs|
    decreases hi
  {
    if hi <= lo + 1 then 0 else Descents(less, xs, lo, hi - 1) + if less(xs[hi - 1], xs[hi - 2]) then 1 else 0
  }

  /** The number of maximal nondecreasing runs of `xs[lo..hi]`. */
  function Runs<T>(less: (T, T) -> bool, xs: seq<T>, lo: nat, hi: nat): nat
    requires hi <= |xs|
  {
    if hi <= lo then 0 else 1 + Descents(less, xs, lo, hi)
  }

  lemma {:induction false} DescentsJoin<T>(less: (T, T) -> bool, xs: seq<T>, lo: nat, mid: nat, hi: nat)
    requires lo < mid < hi <= |xs|
    ensures Descents(less, xs, lo, hi) ==
      Descents(less, xs, lo, mid) + Descents(less, xs, mid, hi) + if less(xs[mid], xs[mid - 1]) then 1 else 0
    decreases hi
  {
    if mid + 1 < hi { DescentsJoin(less, xs, lo, mid, hi - 1); }
  }

  lemma {:induction false} DescentsSame<T>(less: (T, T) -> bool, xs: seq<T>, ys: seq<T>, lo: nat, hi: nat)
    requires hi <= |xs| && hi <= |ys| && forall i :: lo <= i < hi ==> xs[i] == ys[i]
    ensures Descents(less, xs, lo, hi) == Descents(less, ys, lo, hi)
    decreases hi
  {
    if hi > lo + 1 { DescentsSame(less, xs, ys, lo, hi - 1); }
  }

  lemma {:induction false} SortedHasNoDescents<T>(less: (T, T) -> bool, xs: seq<T>, lo: nat, hi: nat)
    requires hi <= |xs| && Sorted(less, xs, lo, hi)
    ensures Descents(less, xs, lo, hi) == 0
    decreases hi
  {
    if hi > lo + 1 {
      assert !less(xs[hi - 1], xs[hi - 2]);
      SortedHasNoDescents(less, xs, lo, hi - 1);
    }
  }

  lemma {:induction false} NoDescentsIsSorted<T>(less: (T, T) -> bool, xs: seq<T>, lo: nat, hi: nat)
    requires lo <= hi <= |xs| && StrictWeak(less, xs[lo..hi]) && Descents(less, xs, lo, hi) == 0
    ensures Sorted(less, xs, lo, hi)
    decreases hi
  {
    hide StrictWeak;
    if hi > lo + 1 {
      WeakerStrictWeak(less, xs[lo..hi], xs[lo..hi - 1]);
      NoDescentsIsSorted(less, xs, lo, hi - 1);
      forall i | lo <= i < hi - 1 ensures !less(xs[hi - 1], xs[i]) {
        if i < hi - 2 {
          NotLessTrans(less, xs[lo..hi], i - lo, hi - 2 - lo, hi - 1 - lo);
        }
      }
    }
  }

  lemma NotLessTrans<T>(less: (T, T) -> bool, ys: seq<T>, i: nat, j: nat, k: nat)
    requires i < |ys| && j < |ys| && k < |ys| && StrictWeak(less, ys) && !less(ys[j], ys[i]) && !less(ys[k], ys[j])
    ensures !less(ys[k], ys[i])
  {
    assert ys[i] in ys && ys[j] in ys && ys[k] in ys;
  }

  lemma WeakerStrictWeak<T>(less: (T, T) -> bool, xs: seq<T>, ys: seq<T>)
    requires StrictWeak(less, xs) && forall y :: y in ys ==> y in xs
    ensures StrictWeak(less, ys)
  {
  }

  // ---------- Merging ----------

  /** `less` is a strict weak order on `xs[lo..hi]`. */
  ghost predicate Ordered<T>(less: (T, T) -> bool, xs: seq<T>, lo: nat, hi: nat) {
    lo <= hi <= |xs| && StrictWeak(less, xs[lo..hi])
  }

  /** The middle of inplace_merge: `xs[lo..p]` is done, `xs[p..q]` and `xs[q..hi]` are the
      rests of the two runs. */
  ghost predicate Merging<T>(less: (T, T) -> bool, xs: seq<T>, lo: nat, p: nat, q: nat, hi: nat) {
    && lo <= p <= q <= hi <= |xs|
    && Sorted(less, xs, lo, p) && Split(less, xs, lo, p, hi) && Sorted(less, xs, p, q) && Sorted(less, xs, q, hi)
  }

  /** The head of the first run is next. */
  lemma MergeKeeps<T>(less: (T, T) -> bool, xs: seq<T>, lo: nat, p: nat, q: nat, hi: nat)
    requires Merging(less, xs, lo, p, q, hi) && p < q < hi && Ordered(less, xs, lo, hi) && !less(xs[q], xs[p])
    ensures Merging(less, xs, lo, p + 1, q, hi)
  {
    forall j | p < j < hi ensures !less(xs[j], xs[p]) {
    }
  }

  /** The head of the second run is next and moves in front of the first. */
  lemma MergeMoves<T>(less: (T, T) -> bool, xs: seq<T>, lo: nat, p: nat, q: nat, hi: nat)
    requires Merging(less, xs, lo, p, q, hi) && p < q < hi && Ordered(less, xs, lo, hi) && less(xs[q], xs[p])
    ensures Merging(less, Moved(xs, p, q), lo, p + 1, q + 1, hi)
  {
    var ys := Moved(xs, p, q);
    forall i ensures 0 <= i < |xs| ==> ys[i] == xs[Source(p, q, i)] {
      if 0 <= i < |xs| { MovedAt(xs, p, q, i); }
    }
    MovedHeadLeast(less, xs, lo, p, q, hi);
  }

  lemma MovedHeadLeast<T>(less: (T, T) -> bool, xs: seq<T>, lo: nat, p: nat, q: nat, hi: nat)
    requires Merging(less, xs, lo, p, q, hi) && p < q < hi && Ordered(less, xs, lo, hi)
    requires forall m :: p <= m < q ==> less(xs[q], xs[m])
    ensures forall m :: p <= m < hi && m != q ==> !less(xs[m], xs[q])
  {
    forall m | p <= m < hi && m != q ensures !less(xs[m], xs[q]) {
    }
  }

  /** Rearranging a range keeps it ordered. */
  lemma OrderedKept<T>(less: (T, T) -> bool, xs: seq<T>, lo: nat, p: nat, q: nat, hi: nat)
    requires Ordered(less, xs, lo, hi) && lo <= p <= q < hi
    ensures Ordered(less, Moved(xs, p, q), lo, hi)
  {
    var ys := Moved(xs, p, q);
    forall y | y in ys[lo..hi] ensures y in xs[lo..hi] {
      var i :| 0 <= i < hi - lo && ys[lo..hi][i] == y;
      MovedAt(xs, p, q, lo + i);
      var j := Source(p, q, lo + i);
      assert y == xs[lo..hi][j - lo];
    }
    WeakerStrictWeak(less, xs[lo..hi], ys[lo..hi]);
  }
}
