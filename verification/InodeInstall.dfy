/** What install_sector does to the disk and the free map, word by word, and what that means for
    the tree of all files. */
module InodeInstall {
  import opened Storage
  import opened InodeLayout
  import opened InodeTree
  import opened InodeFile
  import opened FreeMap

  // ---------- The disk and the free map afterwards ----------

  /** A disk and its free map, and the sector that has just been looked up. */
  datatype Put = Put(disk: Disk, used: seq<bool>, at: nat)

  predicate Sized(d: Disk, u: seq<bool>) {
    |u| == |d| < WORD
  }

  /** The sector whose pointer is the word at `ofs` of sector `at`, taken from the free map if
      there is none; None when the free map is out. */
  function PutIndex(d: Disk, u: seq<bool>, at: nat, ofs: nat): (r: Option<Put>)
    requires Sized(d, u) && at < |d| && ofs + 4 <= SECTOR_SIZE
    ensures r.Some? ==> |r.value.disk| == |d| && Sized(r.value.disk, r.value.used)
  {
    var s, w := Word(d[at], ofs), FirstFree(u);
    if s != 0 then Some(Put(d, u, s))
    else if w == |u| then None
    else Some(Put(StoreWord(d[w := Zeros()], at, ofs, w), u[w := true], w))
  }

  /** The index sectors on the way to block `i`, and the last of them; None when the free map is
      out or a pointer leads off the disk. */
  function PutPath(d: Disk, u: seq<bool>, ino: nat, i: nat): (r: Option<Put>)
    requires Sized(d, u) && ino < |d| && DIRECT <= i < MAX_BLOCKS
    ensures r.Some? ==> |r.value.disk| == |d| && Sized(r.value.disk, r.value.used)
  {
    if i < DIRECT + INDIRECT then PutIndex(d, u, ino, SINGLE_OFS)
    else
      match PutIndex(d, u, ino, DOUBLE_OFS)
      case None => None
      case Some(x) =>
        if x.at >= |d| then None
        else PutIndex(x.disk, x.used, x.at, 4 * ((i - DIRECT - INDIRECT) / INDIRECT))
  }

  /** install_sector of block `i`. */
  function Install(d: Disk, u: seq<bool>, ino: nat, i: nat): (r: Option<Put>)
    requires Sized(d, u) && ino < |d| && i < MAX_BLOCKS
    ensures r.Some? ==> |r.value.disk| == |d| && Sized(r.value.disk, r.value.used)
  {
    var w := FirstFree(u);
    if w == |u| then None
    else
      var d1, u1 := d[w := Zeros()], u[w := true];
      if i < DIRECT then Some(Put(StoreWord(d1, ino, PtrOfs(BlockAt(ino, i)), w), u1, w))
      else
        match PutPath(d1, u1, ino, i)
        case None => None
        case Some(x) =>
          if x.at >= |d| then None
          else Some(Put(StoreWord(x.disk, x.at, PtrOfs(BlockAt(ino, i)), w), x.used, w))
  }

  // ---------- In the tree of all files ----------

  /** What taking the places `added` has done. */
  ghost predicate Puts(d: Disk, u: seq<bool>, x: Put, files: set<nat>, ino: nat, v: nat, added: set<Place>) {
    && Pending(x.disk, x.used, files, ino, v) && Grown(d, x.disk, files, added)
    && FreeCount(x.used) == FreeCount(u) - |added| && StillUsed(u, x.used)
  }

  /** An index sector is taken exactly if it is absent. */
  lemma PutIndexGrows(d: Disk, u: seq<bool>, files: set<nat>, p: Place, v: nat)
    requires Pending(d, u, files, p.ino, v) && Sized(d, u)
    requires PlaceOk(p) && !p.InodeAt? && !p.BlockAt? && Live(d, files, Parent(p))
    ensures Ptr(d, Parent(p)) < |d|
    ensures var r := PutIndex(d, u, Ptr(d, Parent(p)), PtrOfs(p));
      && (r.None? <==> FreeCount(u) < |Absent(d, p)|)
      && (r.Some? ==> Puts(d, u, r.value, files, p.ino, v, Absent(d, p)) && r.value.at == Ptr(r.value.disk, p) && 0 < r.value.at < |d|)
  {
    FreeExists(u);
    assert Word(d[Ptr(d, Parent(p))], PtrOfs(p)) == Ptr(d, p);
    if Ptr(d, p) == 0 {
      if FirstFree(u) < |u| {
        IndexAdded(d, u, files, p, v);
        FreeCountMark(u, FirstFree(u), true);
      }
    } else {
      assert Live(d, files, p);
    }
  }

  lemma PutPathGrows(d: Disk, u: seq<bool>, files: set<nat>, ino: nat, i: nat, v: nat)
    requires Pending(d, u, files, ino, v) && Sized(d, u) && ino < |d| && DIRECT <= i < MAX_BLOCKS
    ensures var r := PutPath(d, u, ino, i);
      && (r.None? <==> FreeCount(u) < |MissingIndex(d, ino, i)|)
      && (r.Some? ==>
        && Puts(d, u, r.value, files, ino, v, MissingIndex(d, ino, i))
        && Live(r.value.disk, files, Parent(BlockAt(ino, i))) && r.value.at == Ptr(r.value.disk, Parent(BlockAt(ino, i)))
        && 0 < r.value.at < |d|)
  {
    assert Live(d, files, InodeAt(ino));
    if i < DIRECT + INDIRECT {
      PutIndexGrows(d, u, files, SingleAt(ino), v);
    } else {
      var index := Parent(BlockAt(ino, i));
      MissingIndexSize(d, ino, i);
      PutIndexGrows(d, u, files, DoubleAt(ino), v);
      var r := PutIndex(d, u, ino, DOUBLE_OFS);
      if r.Some? { PutSecondGrows(d, u, r.value, files, ino, i, v); }
    }
  }

  lemma PutSecondGrows(d: Disk, u: seq<bool>, x: Put, files: set<nat>, ino: nat, i: nat, v: nat)
    requires DIRECT + INDIRECT <= i < MAX_BLOCKS && ino in files
    requires Sized(x.disk, x.used) && |x.disk| == |d| && Puts(d, u, x, files, ino, v, Absent(d, DoubleAt(ino)))
    requires x.at == Ptr(x.disk, DoubleAt(ino)) && 0 < x.at < |d|
    ensures var r, index := PutIndex(x.disk, x.used, x.at, 4 * ((i - DIRECT - INDIRECT) / INDIRECT)), Parent(BlockAt(ino, i));
      && (r.None? <==> FreeCount(u) < |MissingIndex(d, ino, i)|)
      && (r.Some? ==>
        && Puts(d, u, r.value, files, ino, v, MissingIndex(d, ino, i))
        && Live(r.value.disk, files, index) && r.value.at == Ptr(r.value.disk, index) && 0 < r.value.at < |d|)
  {
    var index := Parent(BlockAt(ino, i));
    DoubleReady(d, x.disk, files, ino, i);
    PutIndexGrows(x.disk, x.used, files, index, v);
    MissingIndexSize(d, ino, i);
    var r := PutIndex(x.disk, x.used, x.at, PtrOfs(index));
    if r.Some? {
      DoubleGrown(d, x.disk, r.value.disk, files, ino, i);
      StillUsedTrans(u, x.used, r.value.used);
    }
  }

  /** install_sector takes a data sector and the missing index sectors, and changes no other
      pointer of any file. */
  lemma InstallInTree(d: Disk, u: seq<bool>, files: set<nat>, ino: nat, i: nat)
    requires Tree(d, u, files) && ino in files && i < MAX_BLOCKS
    ensures Sized(d, u) && ino < |d|
    ensures var r := Install(d, u, ino, i);
      && (r.None? <==> FreeCount(u) < |Missing(d, ino, i)|)
      && (r.Some? ==>
        && Tree(r.value.disk, r.value.used, files) && Grown(d, r.value.disk, files, Missing(d, ino, i))
        && r.value.at == Ptr(r.value.disk, BlockAt(ino, i)) == FirstFree(u) < |u| && r.value.disk[r.value.at] == Zeros()
        && FreeCount(r.value.used) == FreeCount(u) - |Missing(d, ino, i)| && StillUsed(u, r.value.used))
  {
    assert Live(d, files, InodeAt(ino));
    FreeExists(u);
    MissingSize(d, ino, i);
    var w := FirstFree(u);
    if w < |u| {
      FreeCountMark(u, w, true);
      TakeKeepsTree(d, u, files, w);
      InstallTaken(d, u, files, ino, i);
    }
  }

  lemma InstallTaken(d: Disk, u: seq<bool>, files: set<nat>, ino: nat, i: nat)
    requires Sized(d, u) && ino in files && ino < |d| && i < MAX_BLOCKS && FirstFree(u) < |u|
    requires var w := FirstFree(u); var d1, u1 := d[w := Zeros()], u[w := true];
      && Tree(d1, u1, files) && Grown(d, d1, files, {}) && SamePtrs(d, d1, files) && Spare(d1, files, w)
      && FreeCount(u1) == FreeCount(u) - 1 && |Missing(d, ino, i)| == 1 + |MissingIndex(d, ino, i)|
    ensures var r := Install(d, u, ino, i);
      && (r.None? <==> FreeCount(u) < |Missing(d, ino, i)|)
      && (r.Some? ==>
        && Tree(r.value.disk, r.value.used, files) && Grown(d, r.value.disk, files, Missing(d, ino, i))
        && r.value.at == Ptr(r.value.disk, BlockAt(ino, i)) == FirstFree(u) < |u| && r.value.disk[r.value.at] == Zeros()
        && FreeCount(r.value.used) == FreeCount(u) - |Missing(d, ino, i)| && StillUsed(u, r.value.used))
  {
    hide Tree, Grown, Spare, SamePtrs, Missing, MissingIndex, FreeCount, StoreWord, Ptr, FirstFree, Zeros, PutPath;
    var w := FirstFree(u);
    var d1, u1 := d[w := Zeros()], u[w := true];
    SameMissing(d, d1, files, ino, i);
    if i < DIRECT {
      DirectMissing(d, ino, i);
      DirectReady(d1, u1, files, ino, i, w);
      BlockStored(d, d1, d1, u1, files, ino, i, w);
    } else {
      PutPathGrows(d1, u1, files, ino, i, w);
      var r := PutPath(d1, u1, ino, i);
      if r.Some? {
        BlockStored(d, d1, r.value.disk, r.value.used, files, ino, i, w);
        StillUsedTrans(u, u1, r.value.used);
      }
    }
  }
}
