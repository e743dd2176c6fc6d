/** The sectors of all files together: every inode, index and data sector has one
    owner, and what a store into one of them does to every pointer of every file. */
module InodeTree {
  import opened Storage
  import opened InodeLayout

  type Disk = seq<Data>

  /** `p` is a place of one of the files with a sector installed. */
  ghost predicate Live(disk: Disk, files: set<nat>, p: Place) {
    PlaceOk(p) && p.ino in files && (p.InodeAt? || Ptr(disk, p) != 0)
  }

  /** No sector serves two purposes. */
  ghost predicate Separate(disk: Disk, files: set<nat>) {
    forall p, q :: Live(disk, files, p) && Live(disk, files, q) && p != q ==> Ptr(disk, p) != Ptr(disk, q)
  }

  /** Every sector in use by a file exists and is marked in the free map. */
  ghost predicate Owned(disk: Disk, used: seq<bool>, files: set<nat>) {
    && |used| == |disk| && 0 < |disk| < WORD && used[0]
    && (forall p :: Live(disk, files, p) ==> Ptr(disk, p) < |disk| && used[Ptr(disk, p)])
  }

  ghost predicate Tree(disk: Disk, used: seq<bool>, files: set<nat>) {
    Separate(disk, files) && Owned(disk, used, files)
  }

  /** Both disks have the same sector at every place. */
  ghost predicate SamePtrs(disk: Disk, disk': Disk, files: set<nat>) {
    forall p :: PlaceOk(p) && p.ino in files ==> Ptr(disk', p) == Ptr(disk, p)
  }

  /** `q` lies on the way from the inode to `p`, or is `p`. */
  predicate OnPath(q: Place, p: Place)
    requires PlaceOk(p)
    decreases Depth(p)
  {
    q == p || (!p.InodeAt? && OnPath(q, Parent(p)))
  }

  // ---------- Stores that leave the tree alone ----------

  /** The pointers of `disk` survive in `disk'`: index sectors are equal and inodes
      agree beyond their length and type words. */
  ghost predicate KeepsIndex(disk: Disk, disk': Disk, files: set<nat>) {
    && |disk'| == |disk|
    && (forall q :: Live(disk, files, q) && !q.BlockAt? ==> KeepsSector(disk, disk', q, Ptr(disk, q)))
  }

  ghost predicate KeepsSector(disk: Disk, disk': Disk, q: Place, s: nat)
    requires |disk'| == |disk|
  {
    s < |disk| ==> if q.InodeAt? then disk'[s][DIRECT_OFS..] == disk[s][DIRECT_OFS..] else disk'[s] == disk[s]
  }

  lemma {:induction false} KeptPtr(disk: Disk, disk': Disk, files: set<nat>, p: Place)
    requires KeepsIndex(disk, disk', files) && PlaceOk(p) && p.ino in files
    ensures Ptr(disk', p) == Ptr(disk, p)
    decreases Depth(p)
  {
    if !p.InodeAt? {
      var q := Parent(p);
      KeptPtr(disk, disk', files, q);
      var s := Ptr(disk, q);
      if s < |disk| && (q.InodeAt? || s != 0) {
        assert Live(disk, files, q);
      }
    }
  }

  lemma KeptTree(disk: Disk, disk': Disk, used: seq<bool>, files: set<nat>)
    requires KeepsIndex(disk, disk', files)
    ensures SamePtrs(disk, disk', files)
    ensures Tree(disk, used, files) ==> Tree(disk', used, files)
  {
    forall p | PlaceOk(p) && p.ino in files ensures Ptr(disk', p) == Ptr(disk, p) {
      KeptPtr(disk, disk', files, p);
    }
    assert forall p :: Live(disk', files, p) <==> Live(disk, files, p);
  }

  // ---------- Storing one pointer ----------

  /** Sector `w` is zeroed and belongs to nobody. */
  ghost predicate Spare(disk: Disk, files: set<nat>, w: nat) {
    0 < w < |disk| && w < WORD && disk[w] == Zeros() && (forall p :: Live(disk, files, p) ==> Ptr(disk, p) != w)
  }

  /** `disk` with one word of sector `s` set to `w`. */
  function StoreWord(disk: Disk, s: nat, ofs: nat, w: nat): (disk': Disk)
    requires s < |disk| && ofs + 4 <= SECTOR_SIZE && w < WORD
    ensures |disk'| == |disk|
  {
    disk[s := SetWord(disk[s], ofs, w)]
  }

  /** `disk` with the pointer to `p` set to `w`. */
  function StorePtr(disk: Disk, p: Place, w: nat): (disk': Disk)
    requires PlaceOk(p) && !p.InodeAt? && w < WORD && Ptr(disk, Parent(p)) < |disk|
    ensures |disk'| == |disk|
  {
    StoreWord(disk, Ptr(disk, Parent(p)), PtrOfs(p), w)
  }

  ghost predicate CanStore(disk: Disk, files: set<nat>, p0: Place, w: nat) {
    && Separate(disk, files) && (forall p :: Live(disk, files, p) ==> Ptr(disk, p) < |disk|)
    && PlaceOk(p0) && !p0.InodeAt? && p0.ino in files && Live(disk, files, Parent(p0))
    && (p0.BlockAt? || Ptr(disk, p0) == 0)
    && Spare(disk, files, w)
  }

  lemma {:induction false} StoredAbove(disk: Disk, files: set<nat>, p0: Place, w: nat, p: Place)
    requires CanStore(disk, files, p0, w) && PlaceOk(p) && p.ino in files && Depth(p) < Depth(p0)
    ensures Ptr(StorePtr(disk, p0, w), p) == Ptr(disk, p)
    decreases Depth(p)
  {
    if !p.InodeAt? {
      StoredAbove(disk, files, p0, w, Parent(p));
      if Live(disk, files, Parent(p)) { StoredWord(disk, files, p0, w, p); }
    }
  }

  /** The word another pointer is read from is not touched. */
  lemma StoredWord(disk: Disk, files: set<nat>, p0: Place, w: nat, p: Place)
    requires CanStore(disk, files, p0, w) && PlaceOk(p) && !p.InodeAt? && p.ino in files && p != p0
    requires Live(disk, files, Parent(p))
    ensures Word(StorePtr(disk, p0, w)[Ptr(disk, Parent(p))], PtrOfs(p)) == Word(disk[Ptr(disk, Parent(p))], PtrOfs(p))
  {
    var q, q0 := Parent(p), Parent(p0);
    if Ptr(disk, q) == Ptr(disk, q0) {
      assert q == q0;
      if PtrOfs(p) == PtrOfs(p0) { PtrOfsInjective(p, p0); }
      OtherWordOfSetWord(disk[Ptr(disk, q0)], PtrOfs(p0), w, PtrOfs(p));
    }
  }

  lemma StoredHere(disk: Disk, files: set<nat>, p0: Place, w: nat)
    requires CanStore(disk, files, p0, w)
    ensures Ptr(StorePtr(disk, p0, w), p0) == w
  {
    var q := Parent(p0);
    StoredAbove(disk, files, p0, w, q);
  }

  lemma {:induction false} StoredElsewhere(disk: Disk, files: set<nat>, p0: Place, w: nat, p: Place)
    requires CanStore(disk, files, p0, w) && PlaceOk(p) && p.ino in files && p != p0
    ensures Ptr(StorePtr(disk, p0, w), p) == Ptr(disk, p)
    decreases Depth(p)
  {
    if !p.InodeAt? {
      var q := Parent(p);
      if q == p0 {
        StoredHere(disk, files, p0, w);
        assert StorePtr(disk, p0, w)[w] == Zeros();
        WordOfZeros(PtrOfs(p));
      } else {
        StoredElsewhere(disk, files, p0, w, q);
        if Live(disk, files, Parent(p)) { StoredWord(disk, files, p0, w, p); }
      }
    }
  }

  /** Installing a spare sector at a place changes that place's pointer and no
      other, and the tree stays one. */
  lemma StoreKeepsTree(disk: Disk, used: seq<bool>, files: set<nat>, p0: Place, w: nat)
    requires CanStore(disk, files, p0, w) && Tree(disk, used, files) && used[w]
    ensures var disk' := StorePtr(disk, p0, w);
      && Tree(disk', used, files)
      && Ptr(disk', p0) == w
      && (forall p :: PlaceOk(p) && p.ino in files && p != p0 ==> Ptr(disk', p) == Ptr(disk, p))
  {
    var disk' := StorePtr(disk, p0, w);
    StoredHere(disk, files, p0, w);
    forall p | PlaceOk(p) && p.ino in files && p != p0 ensures Ptr(disk', p) == Ptr(disk, p) {
      StoredElsewhere(disk, files, p0, w, p);
    }
    forall p, q | Live(disk', files, p) && Live(disk', files, q) && p != q
      ensures Ptr(disk', p) != Ptr(disk', q)
    {
      assert p != p0 ==> Live(disk, files, p);
      assert q != p0 ==> Live(disk, files, q);
    }
    forall p | Live(disk', files, p) ensures Ptr(disk', p) < |disk'| && used[Ptr(disk', p)] {
      assert p != p0 ==> Live(disk, files, p);
    }
  }
}
