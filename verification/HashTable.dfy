/** The chained hash table (hash.c): a finite set of pairwise different elements. */
module HashTable {
  import opened Storage
  import opened Lists
  import opened Bits

  /** Neither element is less: what the table takes for equality. */
  predicate Same<T>(less: (T, T) -> bool, x: T, y: T) {
    !less(x, y) && !less(y, x)
  }

  /** `less` is a strict weak order, and equal elements have one hash value. */
  ghost predicate Lawful<T(!new)>(hash: T -> nat, less: (T, T) -> bool) {
    && (forall x :: !less(x, x))
    && (forall x, y, z :: less(x, y) && less(y, z) ==> less(x, z))
    && (forall x, y, z :: !less(x, y) && !less(y, z) ==> !less(x, z))
    && (forall x, y :: Same(less, x, y) ==> hash(x) == hash(y))
  }

  ghost predicate Distinct<T>(less: (T, T) -> bool, elems: set<T>) {
    forall x, y :: x in elems && y in elems && Same(less, x, y) ==> x == y
  }

  /** find_bucket: the bucket of an element among `n`. */
  function Index(h: nat, n: nat): (i: nat)
    requires n >= 1
    ensures i < n
  {
    And(h, n - 1)
  }

  /** With a power of 2 of buckets that is the remainder of the hash value. */
  lemma IndexIsMod(h: nat, n: nat)
    requires Power(n) && n >= 1
    ensures Index(h, n) == h % n
  {
    MaskIsMod(h, n);
  }

  /** The buckets hold the elements of `elems`, each once and where its hash value says. */
  ghost predicate Holds<T>(hash: T -> nat, buckets: seq<seq<T>>, elems: set<T>) {
    && |buckets| >= 1
    && (forall i :: 0 <= i < |buckets| ==> NoDup(buckets[i]) && InPlace(hash, |buckets|, buckets[i], i, elems))
    && (forall e :: e in elems ==> e in buckets[Index(hash(e), |buckets|)])
  }

  ghost predicate InPlace<T>(hash: T -> nat, n: nat, bucket: seq<T>, i: nat, elems: set<T>)
    requires n >= 1
  {
    forall e :: e in bucket ==> e in elems && Index(hash(e), n) == i
  }

  lemma PushHolds<T>(hash: T -> nat, buckets: seq<seq<T>>, elems: set<T>, e: T)
    requires Holds(hash, buckets, elems) && e !in elems
    ensures var i := Index(hash(e), |buckets|); Holds(hash, buckets[i := [e] + buckets[i]], elems + {e})
  {
    var n := |buckets|;
    var i := Index(hash(e), n);
    var bs := buckets[i := [e] + buckets[i]];
    forall j | 0 <= j < n ensures NoDup(bs[j]) && InPlace(hash, n, bs[j], j, elems + {e}) {
      assert InPlace(hash, n, buckets[j], j, elems);
    }
    forall x | x in elems + {e} ensures x in bs[Index(hash(x), n)] {
    }
  }

  lemma RemoveHolds<T(!new)>(hash: T -> nat, buckets: seq<seq<T>>, elems: set<T>, e: T)
    requires Holds(hash, buckets, elems) && e in elems
    ensures var i := Index(hash(e), |buckets|); Holds(hash, buckets[i := Without(buckets[i], e)], elems - {e})
  {
    var n := |buckets|;
    var i := Index(hash(e), n);
    WithoutOk(buckets[i], e);
    var bs := buckets[i := Without(buckets[i], e)];
    forall j | 0 <= j < n ensures NoDup(bs[j]) && InPlace(hash, n, bs[j], j, elems - {e}) {
      assert NoDup(buckets[j]) && InPlace(hash, n, buckets[j], j, elems);
      forall x | x in bs[j] ensures x in buckets[j] && x != e {
        if j == i { assert x in Without(buckets[i], e); }
      }
    }
    forall x | x in elems - {e} ensures x in bs[Index(hash(x), n)] {
      assert x in buckets[Index(hash(x), n)];
      if Index(hash(x), n) == i { assert x in Without(buckets[i], e); }
    }
  }

  /** Equal elements share a bucket, so searching one bucket is enough. */
  lemma SearchOne<T(!new)>(hash: T -> nat, less: (T, T) -> bool, buckets: seq<seq<T>>, elems: set<T>, e: T, x: T)
    requires Lawful(hash, less) && Holds(hash, buckets, elems) && x in elems && Same(less, x, e)
    ensures x in buckets[Index(hash(e), |buckets|)]
  {
  }

  // ---------- The number of buckets ----------

  /** The most buckets, as a power of 2, with two elements each, but at least 4. */
  ghost predicate BestCount(elemCnt: nat, n: nat) {
    var want := if elemCnt / 2 < 4 then 4 else elemCnt / 2;
    Power(n) && n <= want < 2 * n
  }

  lemma BestCountRatio(elemCnt: nat, n: nat)
    requires BestCount(elemCnt, n)
    ensures n >= 4 && elemCnt < 4 * n && (n > 4 ==> 2 * n <= elemCnt)
  {
    assert n == 3 ==> !Power(n);
  }

  method BestBuckets(elemCnt: nat) returns (n: nat)
    ensures BestCount(elemCnt, n)
  {
    n := elemCnt / 2;
    if n < 4 {
      n := 4;
    }
    ghost var p := PowerBelow(n);
    ghost var want := n;
    PowerTest(n);
    while !(n != 0 && And(n, n - 1) == 0)
      invariant Power(p) && p <= n <= want < 2 * p
      invariant And(n, n - 1) == 0 <==> Power(n)
      decreases n
    {
      if n == p { PowerTest(n); } else { LowBitOff(n, p); }
      n := And(n, n - 1);
      PowerTest(n);
    }
    OnePower(n, p);
  }

  /** Two powers of 2 within a factor of 2 are the same. */
  lemma {:induction false} OnePower(n: nat, p: nat)
    requires Power(n) && Power(p) && p <= n < 2 * p
    ensures n == p
  {
    if n > 1 && p > 1 { OnePower(n / 2, p / 2); }
  }

  // ---------- The table ----------

  /** `moved` are the elements of the first `i` buckets and of the first `j` places of bucket `i`. */
  ghost predicate MovedSoFar<T(!new)>(from: seq<seq<T>>, i: nat, j: nat, moved: set<T>)
    requires i <= |from| && (i < |from| ==> j <= |from[i]|) && (i == |from| ==> j == 0)
  {
    forall e :: e in moved <==> (exists k :: 0 <= k < i && e in from[k]) || (i < |from| && e in from[i][..j])
  }

  class Hash<T(==, !new)> {
    const hash: T -> nat
    const less: (T, T) -> bool
    var buckets: seq<seq<T>>
    var elemCnt: nat
    ghost var elems: set<T>

    ghost predicate Valid()
      reads this
    {
      && Lawful(hash, less) && Holds(hash, buckets, elems) && Distinct(less, elems)
      && elemCnt == |elems| && Power(|buckets|) && |buckets| >= 4
    }

    /** hash_init. */
    constructor (hash: T -> nat, less: (T, T) -> bool)
      requires Lawful(hash, less)
      ensures Valid() && elems == {} && this.hash == hash && this.less == less
    {
      this.hash := hash;
      this.less := less;
      elemCnt := 0;
      buckets := [[], [], [], []];
      elems := {};
    }

    /** find_elem. */
    method FindElem(bucket: seq<T>, e: T) returns (r: Option<T>)
      ensures r.Some? ==> r.value in bucket && Same(less, r.value, e)
      ensures r.None? ==> forall x :: x in bucket ==> !Same(less, x, e)
    {
      var i := 0;
      while i < |bucket|
        invariant 0 <= i <= |bucket| && forall j :: 0 <= j < i ==> !Same(less, bucket[j], e)
      {
        if !less(bucket[i], e) && !less(e, bucket[i]) {
          return Some(bucket[i]);
        }
        i := i + 1;
      }
      return None;
    }

    /** hash_find: the element equal to `e`, if there is one. */
    method Find(e: T) returns (r: Option<T>)
      requires Valid()
      ensures r.Some? ==> r.value in elems && Same(less, r.value, e)
      ensures r.None? <==> forall x :: x in elems ==> !Same(less, x, e)
    {
      var i := Index(hash(e), |buckets|);
      r := FindElem(buckets[i], e);
      assert InPlace(hash, |buckets|, buckets[i], i, elems);
      forall x | x in elems && Same(less, x, e) ensures x in buckets[i] {
        SearchOne(hash, less, buckets, elems, e, x);
      }
    }

    method InsertElem(e: T)
      requires Valid() && forall x :: x in elems ==> !Same(less, x, e)
      modifies `buckets, `elemCnt, `elems
      ensures Valid() && elems == old(elems) + {e}
    {
      hide Holds, Distinct, Lawful, Power, Same;
      DistinctAdd(hash, less, elems, e);
      PushHolds(hash, buckets, elems, e);
      var i := Index(hash(e), |buckets|);
      elemCnt := elemCnt + 1;
      buckets := buckets[i := [e] + buckets[i]];
      elems := elems + {e};
    }

    method RemoveElem(e: T)
      requires Valid() && e in elems
      modifies `buckets, `elemCnt, `elems
      ensures Valid() && elems == old(elems) - {e}
    {
      RemoveHolds(hash, buckets, elems, e);
      var i := Index(hash(e), |buckets|);
      elemCnt := elemCnt - 1;
      buckets := buckets[i := Without(buckets[i], e)];
      elems := elems - {e};
    }

    /** Moves every element of `from` into `n` new buckets. */
    method MoveAll(from: seq<seq<T>>, n: nat, ghost all: set<T>) returns (into: seq<seq<T>>)
      requires Holds(hash, from, all) && n >= 1
      ensures |into| == n && Holds(hash, into, all)
    {
      into := seq(n, _ => []);
      ghost var moved: set<T> := {};
      var i := 0;
      while i < |from|
        invariant 0 <= i <= |from| && |into| == n && Holds(hash, into, moved) && MovedSoFar(from, i, 0, moved)
      {
        var j := 0;
        while j < |from[i]|
          invariant 0 <= j <= |from[i]| && |into| == n && Holds(hash, into, moved) && MovedSoFar(from, i, j, moved)
        {
          var e := from[i][j];
          NotYetMoved(hash, from, all, i, j, moved);
          PushHolds(hash, into, moved, e);
          var b := Index(hash(e), n);
          into := into[b := [e] + into[b]];
          moved := moved + {e};
          j := j + 1;
        }
        i := i + 1;
      }
    }

    /** rehash, where the allocation of the new buckets succeeds when there is `room`. */
    method Rehash(room: bool)
      requires Valid()
      modifies `buckets
      ensures Valid() && (if room then BestCount(elemCnt, |buckets|) else |buckets| == old(|buckets|))
    {
      var n := BestBuckets(elemCnt);
      if n == |buckets| || !room {
        return;
      }
      BestCountRatio(elemCnt, n);
      buckets := MoveAll(buckets, n, elems);
    }

    /** hash_insert: adds the element unless an equal one is there, which is returned. */
    method Insert(e: T, room: bool) returns (r: Option<T>)
      requires Valid()
      modifies this
      ensures Valid() && (room ==> elemCnt < 4 * |buckets|)
      ensures r.Some? ==> r.value in old(elems) && Same(less, r.value, e) && elems == old(elems)
      ensures r.None? ==> (forall x :: x in old(elems) ==> !Same(less, x, e)) && elems == old(elems) + {e}
    {
      r := Find(e);
      if r.None? {
        InsertElem(e);
      }
      Rehash(room);
      if room { BestCountRatio(elemCnt, |buckets|); }
    }

    /** hash_replace: the element takes the place of an equal one, which is returned. */
    method Replace(e: T, room: bool) returns (r: Option<T>)
      requires Valid()
      modifies this
      ensures Valid() && (room ==> elemCnt < 4 * |buckets|)
      ensures r.Some? ==> r.value in old(elems) && Same(less, r.value, e) && elems == old(elems) - {r.value} + {e}
      ensures r.None? ==> (forall x :: x in old(elems) ==> !Same(less, x, e)) && elems == old(elems) + {e}
    {
      r := Find(e);
      if r.Some? {
        RemoveElem(r.value);
        OnlyOne(less, old(elems), r.value, e);
      }
      InsertElem(e);
      Rehash(room);
      if room { BestCountRatio(elemCnt, |buckets|); }
    }

    /** hash_delete. */
    method Delete(e: T, room: bool) returns (r: Option<T>)
      requires Valid()
      modifies this
      ensures Valid() && (room && r.Some? ==> elemCnt < 4 * |buckets|)
      ensures r.Some? ==> r.value in old(elems) && Same(less, r.value, e) && elems == old(elems) - {r.value}
      ensures r.None? ==> (forall x :: x in old(elems) ==> !Same(less, x, e)) && elems == old(elems)
    {
      r := Find(e);
      if r.Some? {
        RemoveElem(r.value);
        Rehash(room);
        if room { BestCountRatio(elemCnt, |buckets|); }
      }
    }
  }

  lemma DistinctAdd<T(!new)>(hash: T -> nat, less: (T, T) -> bool, elems: set<T>, e: T)
    requires Lawful(hash, less) && Distinct(less, elems) && forall x :: x in elems ==> !Same(less, x, e)
    ensures e !in elems && Distinct(less, elems + {e})
  {
    assert Same(less, e, e);
  }

  lemma OnlyOne<T(!new)>(less: (T, T) -> bool, elems: set<T>, x: T, e: T)
    requires Distinct(less, elems) && x in elems && Same(less, x, e)
    requires forall a, b, c :: !less(a, b) && !less(b, c) ==> !less(a, c)
    ensures forall y :: y in elems - {x} ==> !Same(less, y, e)
  {
    forall y | y in elems && Same(less, y, e) ensures y == x { assert Same(less, x, y); }
  }

  lemma NotYetMoved<T(!new)>(hash: T -> nat, from: seq<seq<T>>, all: set<T>, i: nat, j: nat, moved: set<T>)
    requires Holds(hash, from, all) && i < |from| && j < |from[i]| && MovedSoFar(from, i, j, moved)
    ensures from[i][j] !in moved
  {
    var e := from[i][j];
    assert e in from[i] && InPlace(hash, |from|, from[i], i, all);
    forall k | 0 <= k < i ensures e !in from[k] { assert InPlace(hash, |from|, from[k], k, all); }
    assert NoDup(from[i]);
  }

}
