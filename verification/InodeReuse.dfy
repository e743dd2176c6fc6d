/** A new file of more than twelve blocks in a sector whose index pointers are not zero: the index
    sectors that are there are used again, with the words they hold.

    The proof keeps a shadow of the disk beside the disk, in which the old block pointers that
    have not been set anew are zero; in the shadow the growing file is one of the tree. */
module InodeReuse {
  import opened Arithmetic
  import opened Storage
  import opened InodeLayout
  import opened InodeTree
  import opened InodeFile
  import opened InodeGrowth
  import opened InodeInstall
  import opened InodeCreate
  import opened FreeMap

  // ---------- Old index sectors ----------

  predicate Bone(s: nat, p: Place) {
    PlaceOk(p) && p.ino == s && IsIndex(p)
  }

  /** Index places whose sectors hold block pointers. */
  predicate Leaf(s: nat, p: Place) {
    Bone(s, p) && !p.DoubleAt?
  }

  /** The inode sector `s` of nobody still leads to the index sectors of a file of `m` blocks,
      which are marked and belong to nobody either.  The block pointers in them are arbitrary. */
  ghost predicate Bones(disk: Disk, used: seq<bool>, files: set<nat>, s: nat, m: nat) {
    && Reserved(disk, used, files, s) && m <= MAX_BLOCKS
    && (forall p :: Bone(s, p) ==> (Ptr(disk, p) != 0 <==> First(p) < m))
    && (forall p :: Bone(s, p) && Ptr(disk, p) != 0 ==> Ptr(disk, p) != s && Reserved(disk, used, files, Ptr(disk, p)))
    && (forall p, q :: Bone(s, p) && Bone(s, q) && p != q && Ptr(disk, p) != 0 ==> Ptr(disk, p) != Ptr(disk, q))
  }

  ghost predicate OldLeaf(d0: Disk, s: nat, t: nat) {
    t != 0 && exists q :: Leaf(s, q) && Ptr(d0, q) == t
  }

  // ---------- The shadow ----------

  /** Word `w` of the old leaf `q`, when the blocks before `i` have been set anew. */
  ghost predicate ShadowWord(d0: Disk, d: Disk, e: Disk, i: nat, q: Place, w: nat)
    requires PlaceOk(q) && !q.InodeAt? && w < INDIRECT && Ptr(d0, q) < |d0| == |d| == |e|
  {
    var t := Ptr(d0, q);
    if First(q) + w < i then Word(d[t], 4 * w) == Word(e[t], 4 * w)
    else Word(e[t], 4 * w) == 0 && Word(d[t], 4 * w) == Word(d0[t], 4 * w)
  }

  ghost predicate Shadow(d0: Disk, d: Disk, e: Disk, s: nat, i: nat) {
    && |d0| == |d| == |e|
    && (forall t :: 0 <= t < |d| && !OldLeaf(d0, s, t) ==> d[t] == e[t])
    && (forall q :: Leaf(s, q) && Ptr(d0, q) != 0 ==> Ptr(d0, q) < |d0|)
    && (forall q, w :: Leaf(s, q) && Ptr(d0, q) != 0 && 0 <= w < INDIRECT ==> ShadowWord(d0, d, e, i, q, w))
  }

  /** A store outside the old leaves keeps it. */
  lemma ShadowStore(d0: Disk, d: Disk, e: Disk, s: nat, i: nat, t: nat, x: Data)
    requires Shadow(d0, d, e, s, i) && t < |d| && !OldLeaf(d0, s, t)
    ensures Shadow(d0, d[t := x], e[t := x], s, i)
  {
    hide Word;
    var d', e' := d[t := x], e[t := x];
    forall q, w | Leaf(s, q) && Ptr(d0, q) != 0 && 0 <= w < INDIRECT ensures ShadowWord(d0, d', e', i, q, w) {
      assert ShadowWord(d0, d, e, i, q, w);
      assert OldLeaf(d0, s, Ptr(d0, q));
    }
  }

  /** All old leaves are in use. */
  ghost predicate LeavesUsed(d0: Disk, s: nat, u: seq<bool>) {
    forall t: nat :: OldLeaf(d0, s, t) ==> t < |u| && u[t]
  }

  /** Looking up, or installing, an index sector through a word outside the old leaves. */
  lemma PutIndexShadow(d0: Disk, d: Disk, e: Disk, u: seq<bool>, s: nat, i: nat, at: nat, ofs: nat)
    requires Shadow(d0, d, e, s, i) && Sized(d, u) && at < |d| && !OldLeaf(d0, s, at) && ofs + 4 <= SECTOR_SIZE && LeavesUsed(d0, s, u)
    ensures var r, x := PutIndex(d, u, at, ofs), PutIndex(e, u, at, ofs);
      && (r.None? <==> x.None?)
      && (r.Some? ==>
        && r.value.used == x.value.used && r.value.at == x.value.at && Shadow(d0, r.value.disk, x.value.disk, s, i)
        && LeavesUsed(d0, s, r.value.used) && (OldLeaf(d0, s, r.value.at) ==> Word(e[at], ofs) == r.value.at != 0))
  {
    var w := FirstFree(u);
    assert d[at] == e[at];
    if Word(d[at], ofs) == 0 && w < |u| {
      assert !OldLeaf(d0, s, w);
      ShadowStore(d0, d, e, s, i, w, Zeros());
      var d1, e1 := d[w := Zeros()], e[w := Zeros()];
      assert d1[at] == e1[at];
      ShadowStore(d0, d1, e1, s, i, at, SetWord(d1[at], ofs, w));
    }
  }

  lemma WordsOf(d: Data, j: nat, x: nat)
    requires j < INDIRECT && x < WORD
    ensures Word(SetWord(d, 4 * j, x), 4 * j) == x
    ensures forall w :: 0 <= w < INDIRECT && w != j ==> Word(SetWord(d, 4 * j, x), 4 * w) == Word(d, 4 * w)
  {
    DecodeEncode(x);
    assert SetWord(d, 4 * j, x)[4 * j..4 * j + 4] == Encode(x);
    forall w | 0 <= w < INDIRECT && w != j ensures Word(SetWord(d, 4 * j, x), 4 * w) == Word(d, 4 * w) {
      OtherWordOfSetWord(d, 4 * j, x, 4 * w);
    }
  }

  /** `t` is the sector of leaf `q`, as far as old leaves go. */
  ghost predicate LeafAt(d0: Disk, s: nat, q: Place, t: nat)
    requires PlaceOk(q)
  {
    (OldLeaf(d0, s, t) || Ptr(d0, q) != 0) ==> t == Ptr(d0, q)
  }

  /** Setting the pointer of block `i` in its leaf `q`. */
  lemma ShadowBlock(d0: Disk, d: Disk, e: Disk, s: nat, i: nat, q: Place, t: nat, x: nat)
    requires Shadow(d0, d, e, s, i) && t < |d| && x < WORD && Leaf(s, q) && First(q) <= i < First(q) + INDIRECT && LeafAt(d0, s, q, t)
    requires forall p :: Leaf(s, p) && p != q && Ptr(d0, p) != 0 ==> Ptr(d0, p) != Ptr(d0, q)
    ensures Shadow(d0, StoreWord(d, t, 4 * (i - First(q)), x), StoreWord(e, t, 4 * (i - First(q)), x), s, i + 1)
  {
    var j := i - First(q);
    var d', e' := StoreWord(d, t, 4 * j, x), StoreWord(e, t, 4 * j, x);
    WordsOf(d[t], j, x);
    WordsOf(e[t], j, x);
    hide Word, SetWord;
    var i' := i + 1;
    forall p, w | Leaf(s, p) && Ptr(d0, p) != 0 && 0 <= w < INDIRECT ensures ShadowWord(d0, d', e', i', p, w) {
      assert ShadowWord(d0, d, e, i, p, w);
      assert OldLeaf(d0, s, Ptr(d0, p));
      if p != q { OtherLeaf(s, p, q, i, w); }
    }
  }

  /** No other leaf has the pointer of block `i`. */
  lemma OtherLeaf(s: nat, p: Place, q: Place, i: nat, w: nat)
    requires Leaf(s, p) && Leaf(s, q) && First(q) <= i < First(q) + INDIRECT && w < INDIRECT && p != q
    ensures First(p) + w != i
  {
  }

  // ---------- One block more ----------

  /** The old index sectors are where they were. */
  ghost predicate KeptBones(d0: Disk, e: Disk, s: nat) {
    forall p :: Bone(s, p) && Ptr(d0, p) != 0 ==> Ptr(e, p) == Ptr(d0, p)
  }

  /** Which sectors of the tree are old leaves. */
  lemma WhichLeaf(d0: Disk, e: Disk, u: seq<bool>, files: set<nat>, s: nat, p: Place)
    requires Tree(e, u, files) && s in files && KeptBones(d0, e, s) && PlaceOk(p) && p.ino == s && (p.InodeAt? || Ptr(e, p) != 0)
    ensures OldLeaf(d0, s, Ptr(e, p)) ==> Leaf(s, p) && Ptr(e, p) == Ptr(d0, p)
  {
    assert Live(e, files, p);
    if OldLeaf(d0, s, Ptr(e, p)) {
      var q :| Leaf(s, q) && Ptr(d0, q) == Ptr(e, p);
      assert Live(e, files, q);
    }
  }

  lemma OldLeavesUsed(d0: Disk, e: Disk, u: seq<bool>, files: set<nat>, s: nat)
    requires Tree(e, u, files) && s in files && KeptBones(d0, e, s)
    ensures LeavesUsed(d0, s, u)
    ensures forall p, q :: Leaf(s, p) && Leaf(s, q) && p != q && Ptr(d0, p) != 0 ==> Ptr(d0, p) != Ptr(d0, q)
  {
    forall t: nat | OldLeaf(d0, s, t) ensures t < |u| && u[t] {
      var q :| Leaf(s, q) && Ptr(d0, q) == t;
      assert Live(e, files, q);
    }
    forall p, q | Leaf(s, p) && Leaf(s, q) && p != q && Ptr(d0, p) != 0 ensures Ptr(d0, p) != Ptr(d0, q) {
      assert Live(e, files, p);
      if Ptr(d0, q) != 0 { assert Live(e, files, q); }
    }
  }

  /** Two lookups that have come to the same, one on the disk and one on its shadow. */
  ghost predicate Alike(d0: Disk, r: Option<Put>, x: Option<Put>, s: nat, i: nat) {
    && (r.None? <==> x.None?)
    && (r.Some? ==> r.value.used == x.value.used && r.value.at == x.value.at && Shadow(d0, r.value.disk, x.value.disk, s, i))
  }

  lemma PutSingleShadow(d0: Disk, d: Disk, e: Disk, u: seq<bool>, files: set<nat>, s: nat, i: nat)
    requires Shadow(d0, d, e, s, i) && Tree(e, u, files) && s in files && KeptBones(d0, e, s)
    requires Sized(d, u) && s < |d| && LeavesUsed(d0, s, u)
    ensures var r := PutIndex(d, u, s, SINGLE_OFS);
      Alike(d0, r, PutIndex(e, u, s, SINGLE_OFS), s, i) && (r.Some? ==> LeafAt(d0, s, SingleAt(s), r.value.at))
  {
    WhichLeaf(d0, e, u, files, s, InodeAt(s));
    PutIndexShadow(d0, d, e, u, s, i, s, SINGLE_OFS);
    assert Ptr(e, SingleAt(s)) == Word(e[s], SINGLE_OFS);
    if Ptr(e, SingleAt(s)) != 0 { WhichLeaf(d0, e, u, files, s, SingleAt(s)); }
  }

  lemma PutDoubleShadow(d0: Disk, d: Disk, e: Disk, u: seq<bool>, files: set<nat>, s: nat, i: nat)
    requires Shadow(d0, d, e, s, i) && Tree(e, u, files) && s in files && KeptBones(d0, e, s)
    requires Sized(d, u) && s < |d| && LeavesUsed(d0, s, u)
    ensures var r := PutIndex(d, u, s, DOUBLE_OFS);
      Alike(d0, r, PutIndex(e, u, s, DOUBLE_OFS), s, i)
      && (r.Some? ==> LeavesUsed(d0, s, r.value.used) && !OldLeaf(d0, s, r.value.at))
  {
    WhichLeaf(d0, e, u, files, s, InodeAt(s));
    PutIndexShadow(d0, d, e, u, s, i, s, DOUBLE_OFS);
    assert Ptr(e, DoubleAt(s)) == Word(e[s], DOUBLE_OFS);
    if Ptr(e, DoubleAt(s)) != 0 { WhichLeaf(d0, e, u, files, s, DoubleAt(s)); }
  }

  /** What the word of a second-level index sector is after the first level has been seen to. */
  lemma SecondWord(e: Disk, u: seq<bool>, files: set<nat>, s: nat, k: nat)
    requires Tree(e, u, files) && s in files && Sized(e, u) && s < |e| && k < INDIRECT
    ensures var x := PutIndex(e, u, s, DOUBLE_OFS);
      x.Some? ==> x.value.at < |e| && Word(x.value.disk[x.value.at], 4 * k) == Ptr(e, IndexAt(s, k))
  {
    assert Live(e, files, InodeAt(s));
    if Ptr(e, DoubleAt(s)) == 0 {
      NewIndexEmpty(e, u, s, DOUBLE_OFS, 4 * k);
    } else {
      assert Live(e, files, DoubleAt(s));
    }
  }

  lemma PutSecondShadow(d0: Disk, r: Put, x: Put, e: Disk, u: seq<bool>, files: set<nat>, s: nat, i: nat, k: nat)
    requires Alike(d0, Some(r), Some(x), s, i) && Tree(e, u, files) && s in files && KeptBones(d0, e, s)
    requires Sized(r.disk, r.used) && |r.disk| == |e| && r.at < |e| && LeavesUsed(d0, s, r.used) && !OldLeaf(d0, s, r.at)
    requires k < INDIRECT && Word(x.disk[x.at], 4 * k) == Ptr(e, IndexAt(s, k))
    ensures var y := PutIndex(r.disk, r.used, r.at, 4 * k);
      Alike(d0, y, PutIndex(x.disk, x.used, x.at, 4 * k), s, i) && (y.Some? ==> LeafAt(d0, s, IndexAt(s, k), y.value.at))
  {
    PutIndexShadow(d0, r.disk, x.disk, r.used, s, i, r.at, 4 * k);
    if Ptr(e, IndexAt(s, k)) != 0 { WhichLeaf(d0, e, u, files, s, IndexAt(s, k)); }
  }

  /** The leaf that holds the pointer of block `i` is found through the same words. */
  lemma PutPathShadow(d0: Disk, d: Disk, e: Disk, u: seq<bool>, files: set<nat>, s: nat, i: nat)
    requires Shadow(d0, d, e, s, i) && Tree(e, u, files) && s in files && KeptBones(d0, e, s)
    requires Sized(d, u) && Sized(e, u) && s < |d| && DIRECT <= i < MAX_BLOCKS && LeavesUsed(d0, s, u)
    ensures var r := PutPath(d, u, s, i);
      Alike(d0, r, PutPath(e, u, s, i), s, i) && (r.Some? ==> LeafAt(d0, s, Parent(BlockAt(s, i)), r.value.at))
  {
    hide Shadow, Tree, KeptBones, LeavesUsed, OldLeaf, LeafAt, PutIndex, Word, Ptr;
    if i < DIRECT + INDIRECT {
      PutSingleShadow(d0, d, e, u, files, s, i);
    } else {
      var k := (i - DIRECT - INDIRECT) / INDIRECT;
      PutDoubleShadow(d0, d, e, u, files, s, i);
      SecondWord(e, u, files, s, k);
      var r, x := PutIndex(d, u, s, DOUBLE_OFS), PutIndex(e, u, s, DOUBLE_OFS);
      if r.Some? { PutSecondShadow(d0, r.value, x.value, e, u, files, s, i, k); }
    }
  }

  /** An index sector that has just been installed holds no pointers. */
  lemma NewIndexEmpty(e: Disk, u: seq<bool>, at: nat, ofs: nat, other: nat)
    requires Sized(e, u) && at < |e| && ofs + 4 <= SECTOR_SIZE && other + 4 <= SECTOR_SIZE && u[at] && Word(e[at], ofs) == 0
    ensures var x := PutIndex(e, u, at, ofs); x.Some? ==> x.value.at < |e| && Word(x.value.disk[x.value.at], other) == 0
  {
    WordOfZeros(other);
  }

  lemma TakeShadow(d0: Disk, d: Disk, e: Disk, u: seq<bool>, files: set<nat>, s: nat, i: nat)
    requires Shadow(d0, d, e, s, i) && Tree(e, u, files) && s in files && KeptBones(d0, e, s) && FirstFree(u) < |u|
    ensures var w := FirstFree(u); var d1, e1, u1 := d[w := Zeros()], e[w := Zeros()], u[w := true];
      && Shadow(d0, d1, e1, s, i) && Tree(e1, u1, files) && KeptBones(d0, e1, s) && LeavesUsed(d0, s, u1)
  {
    var w := FirstFree(u);
    OldLeavesUsed(d0, e, u, files, s);
    ShadowStore(d0, d, e, s, i, w, Zeros());
    TakeKeepsTree(e, u, files, w);
  }

  lemma LeafOf(s: nat, i: nat)
    requires DIRECT <= i < MAX_BLOCKS
    ensures var q := Parent(BlockAt(s, i));
      Leaf(s, q) && First(q) <= i < First(q) + INDIRECT && PtrOfs(BlockAt(s, i)) == 4 * (i - First(q))
  {
  }

  /** install_sector does the same to the disk and to its shadow, and sets one pointer more. */
  lemma InstallShadow(d0: Disk, d: Disk, e: Disk, u: seq<bool>, files: set<nat>, s: nat, i: nat)
    requires Shadow(d0, d, e, s, i) && Tree(e, u, files) && s in files && KeptBones(d0, e, s)
    requires Sized(d, u) && Sized(e, u) && s < |d| && DIRECT <= i < MAX_BLOCKS
    ensures Alike(d0, Install(d, u, s, i), Install(e, u, s, i), s, i + 1)
  {
    hide Shadow, Tree, KeptBones, LeavesUsed, OldLeaf, PutPath, PutIndex, Word, Ptr, Zeros, StoreWord, FirstFree;
    var w := FirstFree(u);
    if w < |u| {
      TakeShadow(d0, d, e, u, files, s, i);
      var d1, e1, u1 := d[w := Zeros()], e[w := Zeros()], u[w := true];
      PutPathShadow(d0, d1, e1, u1, files, s, i);
      var r, x := PutPath(d1, u1, s, i), PutPath(e1, u1, s, i);
      if r.Some? && r.value.at < |d| {
        LeafOf(s, i);
        OldLeavesUsed(d0, e, u, files, s);
        ShadowBlock(d0, r.value.disk, x.value.disk, s, i, Parent(BlockAt(s, i)), r.value.at, w);
      }
    }
  }

  // ---------- The file in the shadow ----------

  /** In the shadow the file has its first `i` blocks, all zero, and the index sectors of a file
      of `m` or of `i` blocks. */
  ghost predicate Regrown(e: Disk, s: nat, m: nat, i: nat) {
    && i <= MAX_BLOCKS
    && (forall j :: 0 <= j < i ==> Ptr(e, BlockAt(s, j)) != 0 && ZeroBlock(e, s, j))
    && (forall j :: i <= j < MAX_BLOCKS ==> Ptr(e, BlockAt(s, j)) == 0)
    && (forall p :: Bone(s, p) ==> (Ptr(e, p) != 0 <==> First(p) < Max(i, m)))
  }

  /** The sectors that block `i` takes: index sectors only beyond those that are there. */
  function BlockCost(m: nat, i: nat): nat {
    1 + if i < m then 0 else FirstUses(i)
  }

  /** The sectors that the first `n` blocks take. */
  function Regrow(m: nat, n: nat): nat {
    if n == 0 then 0 else Regrow(m, n - 1) + BlockCost(m, n - 1)
  }

  lemma {:induction false} RegrowMonotone(m: nat, i: nat, n: nat)
    requires i <= n
    ensures Regrow(m, i) <= Regrow(m, n)
  {
    if i < n { RegrowMonotone(m, i, n - 1); }
  }

  lemma RegrowStep(m: nat, i: nat)
    ensures Regrow(m, i + 1) == Regrow(m, i) + BlockCost(m, i)
  {
  }

  lemma {:induction false} RegrowDirect(m: nat, n: nat)
    requires n <= DIRECT
    ensures Regrow(m, n) == n
  {
    if n > 0 { RegrowDirect(m, n - 1); }
  }

  /** Without old index sectors they are those of any growing file. */
  lemma {:induction false} RegrowFresh(m: nat, n: nat)
    requires m <= DIRECT
    ensures Regrow(m, n) == Needed(0, n)
  {
    if n > 0 { RegrowFresh(m, n - 1); }
  }

  /** Whether creating a file of `n` blocks fails an ASSERT: can_allocate has been satisfied and
      has kept one sector, and then the index is too small or the sectors do not suffice. */
  predicate CreatePanics(m: nat, n: nat, free: nat) {
    n > 0 && free >= n && (n > MAX_BLOCKS || free - 1 < Regrow(m, n))
  }

  lemma MissingBone(e: Disk, s: nat, m: nat, i: nat, p: Place)
    requires Regrown(e, s, m, i) && DIRECT <= i < MAX_BLOCKS && Bone(s, p)
    ensures p in Missing(e, s, i) <==> m <= i == First(p)
  {
    assert Ptr(e, p) != 0 <==> First(p) < Max(i, m);
  }

  lemma RegrowCount(e: Disk, s: nat, m: nat, i: nat)
    requires Regrown(e, s, m, i) && DIRECT <= i < MAX_BLOCKS
    ensures |Missing(e, s, i)| == BlockCost(m, i)
  {
    MissingSize(e, s, i);
    if i < DIRECT + INDIRECT {
      assert Ptr(e, SingleAt(s)) != 0 <==> DIRECT < Max(i, m);
    } else {
      var k := (i - DIRECT - INDIRECT) / INDIRECT;
      assert Ptr(e, IndexAt(s, k)) != 0 <==> DIRECT + INDIRECT * (1 + k) < Max(i, m);
      assert Ptr(e, DoubleAt(s)) != 0 <==> DIRECT + INDIRECT < Max(i, m);
      MissingIndexSize(e, s, i);
      AbsentCount(e, DoubleAt(s));
      AbsentCount(e, IndexAt(s, k));
      hide Ptr, Missing, MissingIndex, Absent, Regrown;
      FirstUsesIndex(i, k);
    }
  }

  lemma RegrowBlock(e: Disk, e': Disk, u: seq<bool>, files: set<nat>, s: nat, i: nat, j: nat)
    requires Tree(e, u, files) && s in files && j < i < MAX_BLOCKS && Grown(e, e', files, Missing(e, s, i))
    requires Ptr(e, BlockAt(s, j)) != 0 && ZeroBlock(e, s, j)
    ensures Ptr(e', BlockAt(s, j)) != 0 && ZeroBlock(e', s, j)
  {
    MissingIsOwn(e, s, i);
    var b := BlockAt(s, j);
    assert Live(e, files, b) && b !in Missing(e, s, i);
    assert Ptr(e', b) == Ptr(e, b) < |e| == |e'| && e'[Ptr(e, b)] == e[Ptr(e, b)];
    hide Missing, Ptr, Tree, Grown;
    forall o | 0 <= o < SECTOR_SIZE ensures BlockByte(e', s, j, o) == 0 {
      assert BlockByte(e, s, j, o) == 0;
    }
  }

  lemma RegrowBone(e: Disk, e': Disk, files: set<nat>, s: nat, m: nat, i: nat, p: Place)
    requires Regrown(e, s, m, i) && DIRECT <= i < MAX_BLOCKS && s in files && Grown(e, e', files, Missing(e, s, i)) && Bone(s, p)
    ensures Ptr(e', p) != 0 <==> First(p) < Max(i + 1, m)
  {
    MissingBone(e, s, m, i, p);
    hide Missing, Ptr;
  }

  lemma RegrowNext(e: Disk, e': Disk, u: seq<bool>, files: set<nat>, s: nat, m: nat, i: nat)
    requires Regrown(e, s, m, i) && DIRECT <= i < MAX_BLOCKS && Tree(e, u, files) && s in files
    requires Grown(e, e', files, Missing(e, s, i)) && Ptr(e', BlockAt(s, i)) < |e'| && e'[Ptr(e', BlockAt(s, i))] == Zeros()
    ensures Regrown(e', s, m, i + 1)
  {
    MissingIsOwn(e, s, i);
    assert Ptr(e', BlockAt(s, i)) != 0 && ZeroBlock(e', s, i);
    forall j | i + 1 <= j < MAX_BLOCKS ensures Ptr(e', BlockAt(s, j)) == 0 {
    }
    hide Missing, Tree, Ptr, ZeroBlock, Grown;
    forall j | 0 <= j < i + 1 ensures Ptr(e', BlockAt(s, j)) != 0 && ZeroBlock(e', s, j) {
      if j < i { RegrowBlock(e, e', u, files, s, i, j); }
    }
    forall p | Bone(s, p) ensures Ptr(e', p) != 0 <==> First(p) < Max(i + 1, m) {
      RegrowBone(e, e', files, s, m, i, p);
    }
  }

  // ---------- The whole argument ----------

  /** A new file on its way: `d` is the disk, `e` its shadow, `i` blocks have been set. */
  ghost predicate Rebuilding(d0: Disk, u0: seq<bool>, d: Disk, e: Disk, u: seq<bool>, files: set<nat>, s: nat, m: nat, length: nat, i: nat) {
    && Tree(e, u, files + {s}) && OthersSame(d0, e, files + {s}, s) && Shadow(d0, d, e, s, i) && KeptBones(d0, e, s)
    && Regrown(e, s, m, i) && DIRECT <= i && s < |e| && Length(e, s) == length && StillUsed(u0, u) && FromFree(u0, e, s, i)
  }

  lemma RebuildingGives(d0: Disk, u0: seq<bool>, d: Disk, e: Disk, u: seq<bool>, files: set<nat>, s: nat, m: nat, length: nat, i: nat)
    requires Rebuilding(d0, u0, d, e, u, files, s, m, length, i)
    ensures Sized(d, u) && Sized(e, u) && s < |d| && DIRECT <= i <= MAX_BLOCKS
  {
  }

  lemma FromFreeNext(u0: seq<bool>, u: seq<bool>, e: Disk, e': Disk, files: set<nat>, s: nat, i: nat)
    requires FromFree(u0, e, s, i) && StillUsed(u0, u) && s in files && i < MAX_BLOCKS && Grown(e, e', files, Missing(e, s, i))
    requires Ptr(e', BlockAt(s, i)) == FirstFree(u) < |u|
    ensures FromFree(u0, e', s, i + 1)
  {
    MissingIsOwn(e, s, i);
    assert Ptr(e', BlockAt(s, i)) != 0;
    hide Missing;
    forall j | 0 <= j < i + 1 ensures 0 < Ptr(e', BlockAt(s, j)) < |u0| && !u0[Ptr(e', BlockAt(s, j))] {
      if j < i { assert Ptr(e', BlockAt(s, j)) == Ptr(e, BlockAt(s, j)); }
    }
  }

  /** What is there is not missing. */
  lemma BoneThere(e: Disk, s: nat, i: nat, p: Place)
    requires i < MAX_BLOCKS && Bone(s, p) && Ptr(e, p) != 0
    ensures p !in Missing(e, s, i)
  {
  }

  lemma KeptNext(d0: Disk, e: Disk, e': Disk, files: set<nat>, s: nat, i: nat)
    requires KeptBones(d0, e, s) && s in files && i < MAX_BLOCKS && Grown(e, e', files, Missing(e, s, i))
    ensures KeptBones(d0, e', s)
  {
    forall p | Bone(s, p) && Ptr(d0, p) != 0 ensures Ptr(e', p) == Ptr(e, p) {
      assert Ptr(e, p) != 0;
      BoneThere(e, s, i, p);
    }
  }

  /** One round of the loop of inode_extend_start. */
  lemma RebuildNext(d0: Disk, u0: seq<bool>, d: Disk, e: Disk, u: seq<bool>, files: set<nat>, s: nat, m: nat, length: nat, i: nat)
    requires Rebuilding(d0, u0, d, e, u, files, s, m, length, i) && i < MAX_BLOCKS && Sized(d, u) && Sized(e, u) && s < |d| == |e|
    ensures var r, x := Install(d, u, s, i), Install(e, u, s, i);
      && (r.None? <==> FreeCount(u) < BlockCost(m, i))
      && (r.Some? ==>
        && x.Some? && Rebuilding(d0, u0, r.value.disk, x.value.disk, r.value.used, files, s, m, length, i + 1)
        && FreeCount(r.value.used) == FreeCount(u) - BlockCost(m, i))
  {
    var f := files + {s};
    InstallShadow(d0, d, e, u, f, s, i);
    InstallInTree(e, u, f, s, i);
    RegrowCount(e, s, m, i);
    var x := Install(e, u, s, i);
    if x.Some? {
      var e' := x.value.disk;
      RegrowNext(e, e', u, f, s, m, i);
      OthersByOne(d0, e, e', u, f, s, i);
      FromFreeNext(u0, u, e, e', f, s, i);
      KeptNext(d0, e, e', f, s, i);
      StillUsedTrans(u0, u, x.value.used);
      assert Length(e', s) == Length(e, s);
      hide *;
    }
  }

  // ---------- The start ----------

  /** The shadow when the direct blocks have been laid: the old leaves are empty. */
  ghost function Shade(d0: Disk, d: Disk, s: nat): (e: Disk)
    ensures |e| == |d|
  {
    seq(|d|, t requires 0 <= t < |d| => if OldLeaf(d0, s, t) then Zeros() else d[t])
  }

  /** Everything about the old leaves that the start needs. */
  lemma BonesGive(d0: Disk, u0: seq<bool>, files: set<nat>, s: nat, m: nat)
    requires Bones(d0, u0, files, s, m) && Tree(d0, u0, files)
    ensures s < |d0| == |u0| && u0[s] && LeavesUsed(d0, s, u0) && !OldLeaf(d0, s, s)
    ensures forall t :: 0 <= t < |d0| && OldLeaf(d0, s, t) ==> forall p :: Live(d0, files, p) ==> Ptr(d0, p) != t
    ensures Ptr(d0, DoubleAt(s)) != 0 ==> Ptr(d0, DoubleAt(s)) != s && Ptr(d0, DoubleAt(s)) < |d0| && u0[Ptr(d0, DoubleAt(s))] && !OldLeaf(d0, s, Ptr(d0, DoubleAt(s)))
  {
    assert Bone(s, DoubleAt(s));
  }

  lemma ShadeIsShadow(d0: Disk, u0: seq<bool>, d: Disk, u: seq<bool>, files: set<nat>, s: nat, m: nat, length: nat)
    requires Bones(d0, u0, files, s, m) && Tree(d0, u0, files) && Laid(d0, u0, d, u, s, length, DIRECT)
    ensures Shadow(d0, d, Shade(d0, d, s), s, DIRECT)
  {
    BonesGive(d0, u0, files, s, m);
    var e := Shade(d0, d, s);
    forall q, w | Leaf(s, q) && Ptr(d0, q) != 0 && 0 <= w < INDIRECT ensures Ptr(d0, q) < |d0| && ShadowWord(d0, d, e, DIRECT, q, w) {
      assert OldLeaf(d0, s, Ptr(d0, q));
      WordOfZeros(4 * w);
    }
  }

  /** The places of the new file in the shadow. */
  lemma ShadePtrs(d0: Disk, u0: seq<bool>, d: Disk, u: seq<bool>, files: set<nat>, s: nat, m: nat, length: nat, p: Place)
    requires Bones(d0, u0, files, s, m) && Tree(d0, u0, files) && Laid(d0, u0, d, u, s, length, DIRECT) && PlaceOk(p) && p.ino == s && !p.InodeAt?
    ensures var x := Ptr(Shade(d0, d, s), p);
      && (IsIndex(p) ==> x == Ptr(d0, p))
      && (p.BlockAt? && p.i < DIRECT ==> x == DirectWord(d[s], p.i))
      && (p.BlockAt? && p.i >= DIRECT ==> x == 0)
  {
    BonesGive(d0, u0, files, s, m);
    var e := Shade(d0, d, s);
    assert e[s] == d[s];
    OwnPtrs(e, s);
    OwnPtrs(d0, s);
    match p
    case IndexAt(_, k) =>
      var t := Ptr(d0, DoubleAt(s));
      if t != 0 { assert e[t] == d[t] == d0[t]; }
    case BlockAt(_, i) =>
      if i >= DIRECT { ShadeBlock(d0, u0, d, u, files, s, m, length, i); }
    case _ =>
  }

  lemma ShadeBlock(d0: Disk, u0: seq<bool>, d: Disk, u: seq<bool>, files: set<nat>, s: nat, m: nat, length: nat, i: nat)
    requires Bones(d0, u0, files, s, m) && Tree(d0, u0, files) && Laid(d0, u0, d, u, s, length, DIRECT) && DIRECT <= i < MAX_BLOCKS
    ensures Ptr(Shade(d0, d, s), BlockAt(s, i)) == 0
  {
    var e, q := Shade(d0, d, s), Parent(BlockAt(s, i));
    BonesGive(d0, u0, files, s, m);
    assert e[s] == d[s];
    OwnPtrs(e, s);
    OwnPtrs(d0, s);
    if q.IndexAt? {
      var t := Ptr(d0, DoubleAt(s));
      if t != 0 { assert e[t] == d[t] == d0[t]; }
    }
    assert Ptr(e, q) == Ptr(d0, q);
    if Ptr(e, q) != 0 {
      assert Leaf(s, q) && OldLeaf(d0, s, Ptr(d0, q));
      WordOfZeros(PtrOfs(BlockAt(s, i)));
    }
  }

  /** The other files are in the shadow what they were. */
  lemma ShadeOthers(d0: Disk, u0: seq<bool>, d: Disk, u: seq<bool>, files: set<nat>, s: nat, m: nat, length: nat)
    requires Bones(d0, u0, files, s, m) && Tree(d0, u0, files) && Laid(d0, u0, d, u, s, length, DIRECT)
    ensures var e := Shade(d0, d, s); Tree(e, u, files) && SamePtrs(d0, e, files) && OthersSame(d0, e, files + {s}, s)
  {
    BonesGive(d0, u0, files, s, m);
    var e := Shade(d0, d, s);
    forall t | 0 <= t < |d0| && u0[t] && t != s && !OldLeaf(d0, s, t) ensures e[t] == d0[t] {
    }
    UnownedChange(d0, u0, e, u, files, s);
  }

  /** A change of sectors that belong to no file, and of free ones. */
  lemma UnownedChange(d0: Disk, u0: seq<bool>, e: Disk, u: seq<bool>, files: set<nat>, s: nat)
    requires Tree(d0, u0, files) && |e| == |d0| && StillUsed(u0, u) && s !in files
    requires forall p :: Live(d0, files, p) && Ptr(d0, p) < |d0| ==> e[Ptr(d0, p)] == d0[Ptr(d0, p)]
    ensures Tree(e, u, files) && SamePtrs(d0, e, files) && OthersSame(d0, e, files + {s}, s)
  {
    forall q | Live(d0, files, q) && !q.BlockAt? ensures KeepsSector(d0, e, q, Ptr(d0, q)) {
    }
    KeptTree(d0, e, u0, files);
    assert forall p :: Live(e, files, p) <==> Live(d0, files, p);
    forall f | f in files ensures SameFile(d0, e, f) {
      UnownedFile(d0, u0, e, files, f);
    }
  }

  lemma UnownedFile(d0: Disk, u0: seq<bool>, e: Disk, files: set<nat>, f: nat)
    requires Tree(d0, u0, files) && |e| == |d0| && SamePtrs(d0, e, files) && f in files
    requires forall p :: Live(d0, files, p) && Ptr(d0, p) < |d0| ==> e[Ptr(d0, p)] == d0[Ptr(d0, p)]
    ensures SameFile(d0, e, f)
  {
    assert Live(d0, files, InodeAt(f)) && Ptr(d0, InodeAt(f)) == f;
    forall i, o | 0 <= i < MAX_BLOCKS && 0 <= o < SECTOR_SIZE && Ptr(d0, BlockAt(f, i)) != 0
      ensures BlockByte(e, f, i, o) == BlockByte(d0, f, i, o)
    {
      assert Live(d0, files, BlockAt(f, i));
    }
  }

  /** The sectors of the new file in the shadow are in use and nobody else's. */
  lemma ShadePlace(d0: Disk, u0: seq<bool>, d: Disk, u: seq<bool>, files: set<nat>, s: nat, m: nat, length: nat, p: Place)
    requires Bones(d0, u0, files, s, m) && Tree(d0, u0, files) && Laid(d0, u0, d, u, s, length, DIRECT)
    requires PlaceOk(p) && p.ino == s && (p.InodeAt? || Ptr(Shade(d0, d, s), p) != 0)
    ensures var x := Ptr(Shade(d0, d, s), p);
      && x < |d| && u[x] && (u0[x] <==> !p.BlockAt?)
      && (forall q :: Live(d0, files, q) ==> Ptr(d0, q) != x)
      && (p.BlockAt? ==> p.i < DIRECT && x == DirectWord(d[s], p.i))
      && (IsIndex(p) ==> x == Ptr(d0, p) != s)
  {
    if !p.InodeAt? { ShadePtrs(d0, u0, d, u, files, s, m, length, p); }
    if p.BlockAt? {
      assert NewBlock(u0, d, u, DirectWord(d[s], p.i));
    } else if IsIndex(p) {
      assert Bone(s, p);
    }
  }

  lemma ShadeApart(d0: Disk, u0: seq<bool>, d: Disk, u: seq<bool>, files: set<nat>, s: nat, m: nat, length: nat, p: Place, q: Place)
    requires Bones(d0, u0, files, s, m) && Tree(d0, u0, files) && Laid(d0, u0, d, u, s, length, DIRECT)
    requires SamePtrs(d0, Shade(d0, d, s), files) && p != q
    requires Live(Shade(d0, d, s), files + {s}, p) && Live(Shade(d0, d, s), files + {s}, q)
    ensures Ptr(Shade(d0, d, s), p) != Ptr(Shade(d0, d, s), q)
  {
    if p.ino == s { ShadePlace(d0, u0, d, u, files, s, m, length, p); } else { assert Live(d0, files, p); }
    if q.ino == s { ShadePlace(d0, u0, d, u, files, s, m, length, q); } else { assert Live(d0, files, q); }
    if p.ino == s && q.ino == s && IsIndex(p) && IsIndex(q) { assert Bone(s, p) && Bone(s, q); }
  }

  lemma ShadeTree(d0: Disk, u0: seq<bool>, d: Disk, u: seq<bool>, files: set<nat>, s: nat, m: nat, length: nat)
    requires Bones(d0, u0, files, s, m) && Tree(d0, u0, files) && Laid(d0, u0, d, u, s, length, DIRECT)
    ensures Tree(Shade(d0, d, s), u, files + {s})
  {
    ShadeOthers(d0, u0, d, u, files, s, m, length);
    var e := Shade(d0, d, s);
    hide Laid, Bones, Shade, Ptr;
    forall p | Live(e, files + {s}, p) ensures Ptr(e, p) < |e| && u[Ptr(e, p)] {
      if p.ino == s {
        ShadePlace(d0, u0, d, u, files, s, m, length, p);
      } else {
        assert Live(e, files, p);
      }
    }
    forall p, q | Live(e, files + {s}, p) && Live(e, files + {s}, q) && p != q ensures Ptr(e, p) != Ptr(e, q) {
      ShadeApart(d0, u0, d, u, files, s, m, length, p, q);
    }
  }

  lemma ShadeRegrown(d0: Disk, u0: seq<bool>, d: Disk, u: seq<bool>, files: set<nat>, s: nat, m: nat, length: nat)
    requires Bones(d0, u0, files, s, m) && Tree(d0, u0, files) && Laid(d0, u0, d, u, s, length, DIRECT)
    ensures var e := Shade(d0, d, s); Regrown(e, s, m, DIRECT) && KeptBones(d0, e, s) && FromFree(u0, e, s, DIRECT)
  {
    var e := Shade(d0, d, s);
    BonesGive(d0, u0, files, s, m);
    forall p | PlaceOk(p) && p.ino == s && !p.InodeAt?
      ensures (IsIndex(p) ==> Ptr(e, p) == Ptr(d0, p)) && (p.BlockAt? && p.i >= DIRECT ==> Ptr(e, p) == 0)
    {
      ShadePtrs(d0, u0, d, u, files, s, m, length, p);
    }
    forall j | 0 <= j < DIRECT
      ensures Ptr(e, BlockAt(s, j)) != 0 && ZeroBlock(e, s, j) && Ptr(e, BlockAt(s, j)) < |u0| && !u0[Ptr(e, BlockAt(s, j))]
    {
      ShadePtrs(d0, u0, d, u, files, s, m, length, BlockAt(s, j));
      ShadeZero(d0, u0, d, u, s, length, j);
    }
    forall p | Bone(s, p) ensures Ptr(e, p) != 0 <==> First(p) < Max(DIRECT, m) {
      assert First(p) >= DIRECT;
    }
  }

  lemma ShadeZero(d0: Disk, u0: seq<bool>, d: Disk, u: seq<bool>, s: nat, length: nat, j: nat)
    requires Laid(d0, u0, d, u, s, length, DIRECT) && LeavesUsed(d0, s, u0) && j < DIRECT
    requires Ptr(Shade(d0, d, s), BlockAt(s, j)) == DirectWord(d[s], j)
    ensures var e := Shade(d0, d, s); Ptr(e, BlockAt(s, j)) != 0 && ZeroBlock(e, s, j) && Ptr(e, BlockAt(s, j)) < |u0| && !u0[Ptr(e, BlockAt(s, j))]
  {
    assert NewBlock(u0, d, u, DirectWord(d[s], j));
    var t := DirectWord(d[s], j);
    assert !OldLeaf(d0, s, t);
    assert Shade(d0, d, s)[t] == Zeros();
  }

  /** After the direct blocks the shadow is ready. */
  lemma RebuildStart(d0: Disk, u0: seq<bool>, d: Disk, u: seq<bool>, files: set<nat>, s: nat, m: nat, length: nat)
    requires Bones(d0, u0, files, s, m) && Valid(d0, u0, files) && Laid(d0, u0, d, u, s, length, DIRECT)
    ensures Rebuilding(d0, u0, d, Shade(d0, d, s), u, files, s, m, length, DIRECT)
  {
    BonesGive(d0, u0, files, s, m);
    var e := Shade(d0, d, s);
    assert Length(e, s) == length && StillUsed(u0, u) && s < |e|;
    ShadeTree(d0, u0, d, u, files, s, m, length);
    ShadeOthers(d0, u0, d, u, files, s, m, length);
    ShadeIsShadow(d0, u0, d, u, files, s, m, length);
    ShadeRegrown(d0, u0, d, u, files, s, m, length);
    hide Tree, OthersSame, Shadow, KeptBones, Regrown, FromFree, StillUsed, Shade;
  }

  // ---------- The end ----------

  /** Off the leaves the disk and its shadow lead to the same sectors. */
  lemma SameBones(d0: Disk, d: Disk, e: Disk, u: seq<bool>, files: set<nat>, s: nat, i: nat, p: Place)
    requires Shadow(d0, d, e, s, i) && Tree(e, u, files) && s in files && KeptBones(d0, e, s) && s < |e|
    requires PlaceOk(p) && p.ino == s && (IsIndex(p) || (p.BlockAt? && p.i < DIRECT))
    ensures Ptr(d, p) == Ptr(e, p)
  {
    WhichLeaf(d0, e, u, files, s, InodeAt(s));
    assert !OldLeaf(d0, s, s) && d[s] == e[s];
    OwnPtrs(d, s);
    OwnPtrs(e, s);
    if p.IndexAt? {
      var t := Ptr(e, DoubleAt(s));
      if t != 0 {
        WhichLeaf(d0, e, u, files, s, DoubleAt(s));
        assert Live(e, files, DoubleAt(s));
        assert !OldLeaf(d0, s, t) && t < |e| && d[t] == e[t];
      }
      SamePtr(d, e, s, p.k);
    }
  }

  lemma SamePtr(d: Disk, e: Disk, s: nat, k: nat)
    requires |d| == |e| && k < INDIRECT && var t := Ptr(e, DoubleAt(s)); t == Ptr(d, DoubleAt(s)) && (t == 0 || (t < |e| && d[t] == e[t]))
    ensures Ptr(d, IndexAt(s, k)) == Ptr(e, IndexAt(s, k))
  {
  }

  /** Blocks that have been set anew are the same, all others are the old ones. */
  lemma BlocksAfter(d0: Disk, d: Disk, e: Disk, u: seq<bool>, files: set<nat>, s: nat, m: nat, i: nat, j: nat)
    requires Shadow(d0, d, e, s, i) && Tree(e, u, files) && s in files && KeptBones(d0, e, s) && s < |e|
    requires Regrown(e, s, m, i) && DIRECT <= j < MAX_BLOCKS
    ensures Ptr(d, BlockAt(s, j)) == if j < i then Ptr(e, BlockAt(s, j)) else Ptr(d0, BlockAt(s, j))
  {
    LeafOf(s, j);
    var q := Parent(BlockAt(s, j));
    SameBones(d0, d, e, u, files, s, i, q);
    var w := j - First(q);
    if Ptr(d0, q) != 0 {
      assert ShadowWord(d0, d, e, i, q, w);
    } else if Ptr(e, q) != 0 {
      WhichLeaf(d0, e, u, files, s, q);
      assert Live(e, files, q);
    }
  }

  /** When the old pointers fit, the disk is its shadow, as far as pointers go. */
  lemma FitsIsShadow(d0: Disk, d: Disk, e: Disk, u: seq<bool>, files: set<nat>, s: nat, m: nat, n: nat)
    requires Shadow(d0, d, e, s, n) && Tree(e, u, files + {s}) && KeptBones(d0, e, s) && s < |e| && Regrown(e, s, m, n) && DIRECT <= n
    requires forall j :: n <= j < MAX_BLOCKS ==> Ptr(d0, BlockAt(s, j)) == 0
    ensures forall p :: PlaceOk(p) && p.ino == s ==> Ptr(d, p) == Ptr(e, p)
  {
    forall p | PlaceOk(p) && p.ino == s ensures Ptr(d, p) == Ptr(e, p) {
      if p.BlockAt? && p.i >= DIRECT {
        BlocksAfter(d0, d, e, u, files + {s}, s, m, n, p.i);
      } else if !p.InodeAt? {
        SameBones(d0, d, e, u, files + {s}, s, n, p);
      }
    }
  }

  /** The first `n` blocks are on the disk what they are in the shadow. */
  lemma BlocksThere(d0: Disk, d: Disk, e: Disk, u: seq<bool>, files: set<nat>, s: nat, m: nat, n: nat, j: nat)
    requires Shadow(d0, d, e, s, n) && Tree(e, u, files) && s in files && KeptBones(d0, e, s) && s < |e| && Regrown(e, s, m, n)
    requires j < n
    ensures Ptr(d, BlockAt(s, j)) == Ptr(e, BlockAt(s, j)) != 0 && ZeroBlock(d, s, j)
  {
    var b := BlockAt(s, j);
    if j < DIRECT { SameBones(d0, d, e, u, files, s, n, b); } else { BlocksAfter(d0, d, e, u, files, s, m, n, j); }
    WhichLeaf(d0, e, u, files, s, b);
    assert Live(e, files, b) && ZeroBlock(e, s, j);
    assert d[Ptr(e, b)] == e[Ptr(e, b)];
    hide Shadow, Tree, Ptr;
    forall o | 0 <= o < SECTOR_SIZE ensures BlockByte(d, s, j, o) == 0 {
      assert BlockByte(e, s, j, o) == 0;
    }
  }

  /** The inode is well formed exactly when the old pointers fit. */
  lemma RebuiltBlocks(d0: Disk, u0: seq<bool>, d: Disk, e: Disk, u: seq<bool>, files: set<nat>, s: nat, m: nat, length: nat, n: nat)
    requires Rebuilding(d0, u0, d, e, u, files, s, m, length, n) && Bones(d0, u0, files, s, m) && n > DIRECT
    ensures BlocksOk(d, s, n) <==> OldFits(d0, s, n)
    ensures forall j :: 0 <= j < n ==> Ptr(d, BlockAt(s, j)) == Ptr(e, BlockAt(s, j)) && ZeroBlock(d, s, j)
  {
    var f := files + {s};
    forall j | 0 <= j < n ensures Ptr(d, BlockAt(s, j)) == Ptr(e, BlockAt(s, j)) != 0 && ZeroBlock(d, s, j) {
      BlocksThere(d0, d, e, u, f, s, m, n, j);
    }
    forall j | n <= j < MAX_BLOCKS ensures Ptr(d, BlockAt(s, j)) == Ptr(d0, BlockAt(s, j)) {
      BlocksAfter(d0, d, e, u, f, s, m, n, j);
    }
    forall p | Bone(s, p) ensures Ptr(d, p) != 0 <==> First(p) < Max(n, m) {
      SameBones(d0, d, e, u, f, s, n, p);
    }
    forall p | Bone(s, p) ensures Ptr(d0, p) != 0 <==> First(p) < m {
    }
    hide Rebuilding, Bones, Ptr;
    BonesFit(d0, d, s, m, n);
  }

  lemma BonesFit(d0: Disk, d: Disk, s: nat, m: nat, n: nat)
    requires DIRECT < n <= MAX_BLOCKS
    requires forall j :: 0 <= j < n ==> Ptr(d, BlockAt(s, j)) != 0
    requires forall j :: n <= j < MAX_BLOCKS ==> Ptr(d, BlockAt(s, j)) == Ptr(d0, BlockAt(s, j))
    requires forall p :: Bone(s, p) ==> (Ptr(d, p) != 0 <==> First(p) < Max(n, m))
    requires forall p :: Bone(s, p) ==> (Ptr(d0, p) != 0 <==> First(p) < m)
    ensures BlocksOk(d, s, n) <==> OldFits(d0, s, n)
  {
    hide Ptr;
    if BlocksOk(d, s, n) {
      forall p | PlaceOk(p) && p.ino == s && !p.InodeAt? && Ptr(d0, p) != 0 ensures First(p) < n {
        if IsIndex(p) { assert Bone(s, p) && Ptr(d, p) != 0; }
      }
    }
    if OldFits(d0, s, n) {
      forall j | n <= j < MAX_BLOCKS ensures Ptr(d, BlockAt(s, j)) == 0 {
        assert First(BlockAt(s, j)) == j;
      }
      forall p | Bone(s, p) ensures Ptr(d, p) != 0 <==> First(p) < n {
        if Ptr(d0, p) != 0 { assert First(p) < Max(1, n); }
      }
      assert Bone(s, SingleAt(s)) && Bone(s, DoubleAt(s));
      forall k | 0 <= k < INDIRECT ensures Ptr(d, IndexAt(s, k)) != 0 <==> n > DIRECT + INDIRECT * (1 + k) {
        assert Bone(s, IndexAt(s, k));
      }
    }
  }

  /** The other files do not see the difference between the disk and its shadow. */
  lemma RebuiltOthers(d0: Disk, u0: seq<bool>, d: Disk, e: Disk, u: seq<bool>, files: set<nat>, s: nat, m: nat, length: nat, n: nat)
    requires Rebuilding(d0, u0, d, e, u, files, s, m, length, n) && s !in files
    ensures Tree(d, u, files) && SamePtrs(e, d, files) && OthersSame(d0, d, files, s) && |d| == |e| && s < |d| && d[s] == e[s]
  {
    var f := files + {s};
    assert forall p :: Live(e, files, p) ==> Live(e, f, p);
    forall p | Live(e, files, p) && Ptr(e, p) < |e| ensures d[Ptr(e, p)] == e[Ptr(e, p)] {
      NotALeaf(d0, e, u, f, s, p);
    }
    WhichLeaf(d0, e, u, f, s, InodeAt(s));
    UnownedChange(e, u, d, u, files, s);
    OthersTrans(d0, e, d, f, s);
  }

  lemma NotALeaf(d0: Disk, e: Disk, u: seq<bool>, files: set<nat>, s: nat, p: Place)
    requires Tree(e, u, files) && s in files && KeptBones(d0, e, s) && Live(e, files, p) && p.ino != s
    ensures !OldLeaf(d0, s, Ptr(e, p))
  {
    forall q | Leaf(s, q) && Ptr(d0, q) != 0 ensures Ptr(d0, q) != Ptr(e, p) {
      assert Live(e, files, q);
    }
  }

  lemma SameTree(e: Disk, d: Disk, u: seq<bool>, files: set<nat>)
    requires Tree(e, u, files) && SamePtrs(e, d, files) && |d| == |e|
    ensures Tree(d, u, files)
  {
    assert forall p :: Live(d, files, p) <==> Live(e, files, p);
  }

  lemma RebuiltTree(d0: Disk, u0: seq<bool>, d: Disk, e: Disk, u: seq<bool>, files: set<nat>, s: nat, m: nat, length: nat, n: nat)
    requires Rebuilding(d0, u0, d, e, u, files, s, m, length, n) && SamePtrs(e, d, files) && OldFits(d0, s, n) && n > DIRECT
    ensures Tree(d, u, files + {s})
  {
    forall j | n <= j < MAX_BLOCKS ensures Ptr(d0, BlockAt(s, j)) == 0 {
      assert First(BlockAt(s, j)) == j;
    }
    FitsIsShadow(d0, d, e, u, files, s, m, n);
    SameTree(e, d, u, files + {s});
  }

  /** A file of new blocks is well formed exactly when its pointers are. */
  lemma NewBlocksFile(d: Disk, s: nat, n: nat)
    requires s < |d| && n == Blocks(Length(d, s)) <= MAX_BLOCKS && forall j :: 0 <= j < n ==> ZeroBlock(d, s, j)
    ensures FileOk(d, s) <==> BlocksOk(d, s, n)
    ensures FileOk(d, s) ==> Content(d, s) == Padded([], Length(d, s))
  {
    if BlocksOk(d, s, n) {
      assert Extended(d, d, s, 0, n);
      NewFile(d, d, s);
    }
  }

  /** The free map, the old pointers and the length. */
  lemma RebuiltRest(d0: Disk, u0: seq<bool>, d: Disk, e: Disk, u: seq<bool>, files: set<nat>, s: nat, m: nat, length: nat, n: nat)
    requires Rebuilding(d0, u0, d, e, u, files, s, m, length, n) && |d| == |e| && s < |d| && d[s] == e[s]
    requires forall j :: 0 <= j < n && j < MAX_BLOCKS ==> Ptr(d, BlockAt(s, j)) == Ptr(e, BlockAt(s, j))
    ensures |d0| == |d| && n <= MAX_BLOCKS && StillUsed(u0, u) && FromFree(u0, d, s, n) && Length(d, s) == length
  {
  }

  lemma RebuiltValid(d0: Disk, d: Disk, u: seq<bool>, files: set<nat>, s: nat)
    requires Tree(d, u, files + {s}) && FileOk(d, s) && OthersKeep(d0, d, files, s) && s !in files
    ensures Valid(d, u, files + {s})
  {
    forall f | f in files + {s} ensures FileOk(d, f) {
    }
  }

  /** All of the new file's blocks laid: what has been created, for any size. */
  lemma RebuildEnds(d0: Disk, u0: seq<bool>, d: Disk, e: Disk, u: seq<bool>, files: set<nat>, s: nat, m: nat, length: nat)
    requires Rebuilding(d0, u0, d, e, u, files, s, m, length, Blocks(length)) && Bones(d0, u0, files, s, m) && Valid(d0, u0, files)
    requires Blocks(length) > DIRECT
    ensures Created(d0, u0, d, u, files, s, length)
  {
    var n := Blocks(length);
    assert s !in files && forall f :: f in files ==> FileOk(d0, f);
    hide Rebuilding, Bones, Ptr, OldFits, Tree, FileOk, Content, BlocksOk, OthersSame, OthersKeep, SamePtrs, ZeroBlock, StillUsed, FromFree, Padded, Blocks;
    RebuiltBlocks(d0, u0, d, e, u, files, s, m, length, n);
    RebuiltOthers(d0, u0, d, e, u, files, s, m, length, n);
    OthersContent(d0, d, files, s);
    RebuiltRest(d0, u0, d, e, u, files, s, m, length, n);
    NewBlocksFile(d, s, n);
    OthersValid(d0, d, u, files, s);
    if OldFits(d0, s, n) {
      RebuiltTree(d0, u0, d, e, u, files, s, m, length, n);
      RebuiltValid(d0, d, u, files, s);
    }
  }

  lemma OthersValid(d0: Disk, d: Disk, u: seq<bool>, files: set<nat>, s: nat)
    requires Tree(d, u, files) && OthersKeep(d0, d, files, s) && s !in files
    ensures Valid(d, u, files)
  {
  }
}
