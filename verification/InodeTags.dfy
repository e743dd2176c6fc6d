/** The type and magic words of inodes: nothing that is done to a file's blocks touches them. */
module InodeTags {
  import opened Storage
  import opened InodeLayout
  import opened InodeTree
  import opened InodeFile
  import opened InodeGrowth
  import opened InodeInstall
  import opened InodeCreate
  import opened InodeReuse
  import opened FreeMap

  function TypeOf(d: Disk, ino: nat): nat
    requires ino < |d|
  {
    Word(d[ino], IS_DIR_OFS)
  }

  function MagicOf(d: Disk, ino: nat): nat
    requires ino < |d|
  {
    Word(d[ino], MAGIC_OFS)
  }

  /** The inodes are of the same type and have the same magic on both disks. */
  ghost predicate SameTags(d: Disk, d': Disk, inodes: set<nat>) {
    && |d'| == |d|
    && (forall f :: f in inodes && f < |d| ==> TypeOf(d', f) == TypeOf(d, f) && MagicOf(d', f) == MagicOf(d, f))
  }

  ghost predicate AllUsed(u: seq<bool>, inodes: set<nat>) {
    forall f :: f in inodes ==> f < |u| && u[f]
  }

  lemma SameTagsTrans(d0: Disk, d1: Disk, d2: Disk, inodes: set<nat>)
    requires SameTags(d0, d1, inodes) && SameTags(d1, d2, inodes)
    ensures SameTags(d0, d2, inodes)
  {
  }

  /** Sectors in use that keep their contents. */
  lemma UsedTags(d: Disk, d': Disk, u: seq<bool>, inodes: set<nat>)
    requires AllUsed(u, inodes) && |d'| == |d| == |u| && forall s :: 0 <= s < |d| && u[s] ==> d'[s] == d[s]
    ensures SameTags(d, d', inodes)
  {
  }

  /** A store of a word that is not one of the two. */
  lemma StoreTags(d: Disk, at: nat, ofs: nat, w: nat, inodes: set<nat>)
    requires at < |d| && ofs + 4 <= SECTOR_SIZE && w < WORD
    requires at in inodes ==> ofs % 4 == 0 && ofs != IS_DIR_OFS && ofs != MAGIC_OFS
    ensures SameTags(d, StoreWord(d, at, ofs, w), inodes)
  {
    if at in inodes {
      OtherWordOfSetWord(d[at], ofs, w, IS_DIR_OFS);
      OtherWordOfSetWord(d[at], ofs, w, MAGIC_OFS);
    }
  }

  lemma ClearTags(d: Disk, u: seq<bool>, w: nat, inodes: set<nat>)
    requires AllUsed(u, inodes) && |u| == |d| && w < |u| && !u[w]
    ensures SameTags(d, d[w := Zeros()], inodes) && AllUsed(u[w := true], inodes) && w !in inodes
  {
  }

  lemma PutIndexTags(d: Disk, u: seq<bool>, at: nat, ofs: nat, inodes: set<nat>)
    requires Sized(d, u) && at < |d| && ofs + 4 <= SECTOR_SIZE && AllUsed(u, inodes)
    requires at in inodes ==> ofs % 4 == 0 && ofs != IS_DIR_OFS && ofs != MAGIC_OFS
    requires Word(d[at], ofs) == 0 || Word(d[at], ofs) !in inodes
    ensures var r := PutIndex(d, u, at, ofs);
      r.Some? ==> SameTags(d, r.value.disk, inodes) && AllUsed(r.value.used, inodes) && r.value.at !in inodes
  {
    var w := FirstFree(u);
    if Word(d[at], ofs) == 0 && w < |u| {
      ClearTags(d, u, w, inodes);
      StoreTags(d[w := Zeros()], at, ofs, w, inodes);
    }
  }

  /** The index sectors on the way from `ino` to block `i` are not inodes. */
  ghost predicate IndexApart(d: Disk, u: seq<bool>, ino: nat, i: nat, inodes: set<nat>)
    requires ino < |d| == |u|
  {
    var single, double := Word(d[ino], SINGLE_OFS), Word(d[ino], DOUBLE_OFS);
    && (single == 0 || single !in inodes)
    && (double == 0 || double !in inodes)
    && (0 < double < |d| && DIRECT + INDIRECT <= i < MAX_BLOCKS ==>
          && u[double]
          && var second := Word(d[double], 4 * ((i - DIRECT - INDIRECT) / INDIRECT)); second == 0 || second !in inodes)
  }

  lemma PutPathTags(d: Disk, u: seq<bool>, ino: nat, i: nat, inodes: set<nat>)
    requires Sized(d, u) && ino < |d| && DIRECT <= i < MAX_BLOCKS && AllUsed(u, inodes) && IndexApart(d, u, ino, i, inodes)
    requires u[ino]
    ensures var r := PutPath(d, u, ino, i);
      r.Some? ==> SameTags(d, r.value.disk, inodes) && AllUsed(r.value.used, inodes) && r.value.at !in inodes
  {
    if i < DIRECT + INDIRECT {
      PutIndexTags(d, u, ino, SINGLE_OFS, inodes);
    } else {
      var ofs := 4 * ((i - DIRECT - INDIRECT) / INDIRECT);
      PutIndexTags(d, u, ino, DOUBLE_OFS, inodes);
      var r := PutIndex(d, u, ino, DOUBLE_OFS);
      if r.Some? && r.value.at < |d| {
        var x := r.value;
        if Word(d[ino], DOUBLE_OFS) == 0 { NewIndex(d, u, ino, ofs); }
        hide PutIndex, Word;
        PutIndexTags(x.disk, x.used, x.at, ofs, inodes);
      }
    }
  }

  /** A fresh index sector has no pointers. */
  lemma NewIndex(d: Disk, u: seq<bool>, ino: nat, ofs: nat)
    requires Sized(d, u) && ino < |d| && u[ino] && ofs + 4 <= SECTOR_SIZE && Word(d[ino], DOUBLE_OFS) == 0 && FirstFree(u) < |u|
    ensures var x := PutIndex(d, u, ino, DOUBLE_OFS).value; x.at < |d| && Word(x.disk[x.at], ofs) == 0
  {
    WordOfZeros(ofs);
  }

  /** install_sector leaves the type and magic words of all inodes alone. */
  lemma InstallTags(d: Disk, u: seq<bool>, ino: nat, i: nat, inodes: set<nat>)
    requires Sized(d, u) && ino < |d| && i < MAX_BLOCKS && u[ino] && AllUsed(u, inodes)
    requires i >= DIRECT ==> IndexApart(d, u, ino, i, inodes)
    ensures var r := Install(d, u, ino, i);
      r.Some? ==> SameTags(d, r.value.disk, inodes) && AllUsed(r.value.used, inodes)
  {
    var w := FirstFree(u);
    if w < |u| {
      var d1, u1 := d[w := Zeros()], u[w := true];
      var ofs := PtrOfs(BlockAt(ino, i));
      ClearTags(d, u, w, inodes);
      hide Zeros, Word, AllUsed, SameTags, FirstFree;
      if i < DIRECT {
        StoreTags(d1, ino, ofs, w, inodes);
        SameTagsTrans(d, d1, StoreWord(d1, ino, ofs, w), inodes);
      } else {
        assert IndexApart(d1, u1, ino, i, inodes);
        hide IndexApart, PutPath;
        PutPathTags(d1, u1, ino, i, inodes);
        var r := PutPath(d1, u1, ino, i);
        if r.Some? && r.value.at < |d| {
          StoreTags(r.value.disk, r.value.at, ofs, w, inodes);
          SameTagsTrans(d, d1, r.value.disk, inodes);
          SameTagsTrans(d, r.value.disk, StoreWord(r.value.disk, r.value.at, ofs, w), inodes);
        }
      }
    }
  }

  // ---------- In the tree ----------

  lemma FilesUsed(d: Disk, u: seq<bool>, files: set<nat>)
    requires Tree(d, u, files)
    ensures AllUsed(u, files)
  {
    forall f | f in files ensures f < |u| && u[f] {
      assert Live(d, files, InodeAt(f));
    }
  }

  lemma ValidUsed(d: Disk, u: seq<bool>, files: set<nat>)
    requires Valid(d, u, files)
    ensures AllUsed(u, files)
  {
    FilesUsed(d, u, files);
  }

  /** No sector at a place below an inode is an inode. */
  lemma PlaceApart(d: Disk, u: seq<bool>, files: set<nat>, p: Place)
    requires Tree(d, u, files) && PlaceOk(p) && p.ino in files && !p.InodeAt?
    ensures Ptr(d, p) == 0 || (Ptr(d, p) !in files && Ptr(d, p) < |d| == |u| && u[Ptr(d, p)])
  {
    if Ptr(d, p) != 0 {
      assert Live(d, files, p);
      forall f | f in files ensures Ptr(d, p) != f {
        assert Live(d, files, InodeAt(f));
      }
    }
  }

  lemma TreeApart(d: Disk, u: seq<bool>, files: set<nat>, ino: nat, i: nat)
    requires Tree(d, u, files) && ino in files && i < MAX_BLOCKS
    ensures ino < |d| == |u| && IndexApart(d, u, ino, i, files)
  {
    assert Live(d, files, InodeAt(ino));
    var double := Word(d[ino], DOUBLE_OFS);
    assert Ptr(d, InodeAt(ino)) == ino;
    assert Ptr(d, SingleAt(ino)) == Word(d[ino], SINGLE_OFS) && Ptr(d, DoubleAt(ino)) == double;
    PlaceApart(d, u, files, SingleAt(ino));
    PlaceApart(d, u, files, DoubleAt(ino));
    if 0 < double < |d| && DIRECT + INDIRECT <= i {
      var k := (i - DIRECT - INDIRECT) / INDIRECT;
      assert Ptr(d, IndexAt(ino, k)) == Word(d[double], 4 * k);
      PlaceApart(d, u, files, IndexAt(ino, k));
    }
  }

  /** The same on a disk that agrees with such a one on the sectors that are looked at. */
  lemma ShadowApart(d: Disk, e: Disk, u: seq<bool>, inodes: set<nat>, ino: nat, i: nat)
    requires ino < |d| == |e| == |u| && d[ino] == e[ino] && IndexApart(e, u, ino, i, inodes)
    requires var double := Word(e[ino], DOUBLE_OFS); 0 < double < |d| ==> d[double] == e[double]
    ensures IndexApart(d, u, ino, i, inodes)
  {
  }

  /** Nor does a write into a data sector touch them. */
  lemma DataTags(d: Disk, d': Disk, u: seq<bool>, files: set<nat>, ino: nat, i: nat)
    requires Tree(d, u, files) && ino in files && i < MAX_BLOCKS && Ptr(d, BlockAt(ino, i)) != 0 && |d'| == |d|
    requires forall t :: 0 <= t < |d| && t != Ptr(d, BlockAt(ino, i)) ==> d'[t] == d[t]
    ensures SameTags(d, d', files)
  {
    PlaceApart(d, u, files, BlockAt(ino, i));
  }

  lemma ChunkTags(d: Disk, u: seq<bool>, files: set<nat>, ino: nat, pos: nat, i: nat, ofs: nat, b: seq<Byte>)
    requires Tree(d, u, files) && ino in files && FileOk(d, ino) && Locates(pos, i, ofs)
    requires b != [] && pos + |b| <= Length(d, ino) && ofs + |b| <= SECTOR_SIZE
    ensures i < MAX_BLOCKS && Ptr(d, BlockAt(ino, i)) < |d|
    ensures SameTags(d, Patched(d, Ptr(d, BlockAt(ino, i)), ofs, b), files)
  {
    assert i < Blocks(Length(d, ino));
    assert Live(d, files, BlockAt(ino, i));
    var s := Ptr(d, BlockAt(ino, i));
    DataTags(d, Patched(d, s, ofs, b), u, files, ino, i);
  }

  // ---------- In a new inode ----------

  lemma SameTagsSelf(d: Disk, inodes: set<nat>)
    ensures SameTags(d, d, inodes)
  {
  }

  lemma StillAllUsed(u: seq<bool>, u': seq<bool>, files: set<nat>, s: nat)
    requires AllUsed(u, files) && |u'| == |u| && s < |u| && u[s] && forall t :: 0 <= t < |u| && u[t] ==> u'[t]
    ensures AllUsed(u', files + {s})
  {
  }

  /** The type and magic that inode_create_wild sets, and those of all files, which it leaves. */
  lemma HeaderTags(d: Disk, s: nat, length: nat, isDir: nat, magic: nat, files: set<nat>)
    requires s < |d| && length < WORD && isDir < WORD && magic < WORD
    ensures var d' := Header(d, s, length, isDir, magic);
      && TypeOf(d', s) == isDir && MagicOf(d', s) == magic && (s !in files ==> SameTags(d, d', files))
  {
    var e1 := SetWord(d[s], LENGTH_OFS, length);
    var e2 := SetWord(e1, IS_DIR_OFS, isDir);
    DecodeEncode(isDir);
    DecodeEncode(magic);
    assert e2[IS_DIR_OFS..IS_DIR_OFS + 4] == Encode(isDir);
    assert SetWord(e2, MAGIC_OFS, magic)[MAGIC_OFS..MAGIC_OFS + 4] == Encode(magic);
    OtherWordOfSetWord(e2, MAGIC_OFS, magic, IS_DIR_OFS);
  }

  lemma HeaderStays(d0: Disk, d: Disk, h: Disk, d': Disk, files: set<nat>, s: nat)
    requires SameTags(d0, d, files) && (s !in files ==> SameTags(d, h, files)) && SameTags(h, d', files + {s}) && s < |h| && s !in files
    ensures SameTags(d0, d', files) && s < |d'| && TypeOf(d', s) == TypeOf(h, s) && MagicOf(d', s) == MagicOf(h, s)
  {
    assert s in files + {s};
    forall f | f in files && f < |d0| ensures TypeOf(d', f) == TypeOf(d0, f) && MagicOf(d', f) == MagicOf(d0, f) {
      assert f in files + {s};
    }
  }

  /** One round of inode_extend_start beyond the direct blocks. */
  lemma RebuildTags(d0: Disk, u0: seq<bool>, d: Disk, e: Disk, u: seq<bool>, files: set<nat>, s: nat, m: nat, length: nat, i: nat)
    requires Rebuilding(d0, u0, d, e, u, files, s, m, length, i) && i < MAX_BLOCKS && Sized(d, u) && s < |d|
    requires AllUsed(u, files + {s})
    ensures var r := Install(d, u, s, i);
      r.Some? ==> SameTags(d, r.value.disk, files + {s}) && AllUsed(r.value.used, files + {s})
  {
    var f := files + {s};
    WhichLeaf(d0, e, u, f, s, InodeAt(s));
    TreeApart(e, u, f, s, i);
    assert Ptr(e, InodeAt(s)) == s && Ptr(e, DoubleAt(s)) == Word(e[s], DOUBLE_OFS);
    if Ptr(e, DoubleAt(s)) != 0 { WhichLeaf(d0, e, u, f, s, DoubleAt(s)); }
    assert d[s] == e[s];
    ShadowApart(d, e, u, f, s, i);
    InstallTags(d, u, s, i, f);
  }

  lemma NoneLacking(now: nat, length: nat, free: nat)
    requires 0 < now <= MAX_BYTES && Target(length) <= Blocks(now)
    ensures Extra(Blocks(now), length) == 0 && Spends(now, free, length) == 0 && !ExtendPanics(Blocks(now), 0, free)
    ensures length <= MAX_BYTES < WORD && (now < length ==> Blocks(length) == Blocks(now))
  {
  }

  /** inode_extend_to_bytes where the blocks are there already: the length is set ... */
  lemma LengthOnly(d: Disk, u: seq<bool>, files: set<nat>, ino: nat, length: nat)
    requires Valid(d, u, files) && ino in files && ino < |d| && 0 < Length(d, ino) <= MAX_BYTES
    requires Target(length) <= Blocks(Length(d, ino)) && Length(d, ino) < length
    ensures length < WORD
    ensures var d' := StoreWord(d, ino, LENGTH_OFS, length);
      Extending(d, u, d', u, files, ino, length, false, true) && SameTags(d, d', files)
  {
    NoneLacking(Length(d, ino), length, FreeCount(u));
    assert FileOk(d, ino);
    hide Tree, Growing, OthersKeep, SameFile, SameOwn, FileOk, Content, StoreWord, FreeCount, Needed, SameTags, Length, Blocks, Target, Extra, Spends, ExtendPanics;
    SameIsGrowing(d, u, files, ino);
    LengthSet(d, d, u, files, ino, Blocks(Length(d, ino)), length);
    StoreTags(d, ino, LENGTH_OFS, length, files);
  }

  /** ... or nothing happens. */
  lemma NothingToDo(d: Disk, u: seq<bool>, files: set<nat>, ino: nat, length: nat)
    requires Valid(d, u, files) && ino in files && ino < |d| && 0 < Length(d, ino) <= MAX_BYTES
    requires Target(length) <= Blocks(Length(d, ino)) && length <= Length(d, ino)
    ensures Extending(d, u, d, u, files, ino, length, false, true) && SameTags(d, d, files)
  {
    NoneLacking(Length(d, ino), length, FreeCount(u));
    assert FileOk(d, ino);
    assert |Content(d, ino)| == Length(d, ino);
    hide Tree, Growing, OthersKeep, SameFile, SameOwn, FileOk, Content, FreeCount, Needed, SameTags, Length, Blocks, Target, Extra, Spends, ExtendPanics;
    SameIsGrowing(d, u, files, ino);
    NotGrown(d, d, u, files, ino, Blocks(Length(d, ino)));
    SameTagsSelf(d, files);
  }
}
