/** Files as byte sequences over the sector tree. */
module InodeFile {
  import opened Storage
  import opened InodeLayout
  import opened InodeTree
  import opened FreeMap

  function Blocks(length: nat): nat {
    (length + SECTOR_SIZE - 1) / SECTOR_SIZE
  }

  function Length(disk: Disk, ino: nat): nat
    requires ino < |disk|
  {
    Word(disk[ino], LENGTH_OFS)
  }

  function BlockByte(disk: Disk, ino: nat, i: nat, o: nat): Byte
    requires i < MAX_BLOCKS && o < SECTOR_SIZE
  {
    if Ptr(disk, BlockAt(ino, i)) < |disk| then disk[Ptr(disk, BlockAt(ino, i))][o] else 0
  }

  /** The byte at position `pos` of the file. */
  function ByteOf(disk: Disk, ino: nat, pos: nat): Byte
    requires pos < MAX_BYTES
  {
    BlockByte(disk, ino, pos / SECTOR_SIZE, pos % SECTOR_SIZE)
  }

  /** Where byte_to_sector finds block `i`: in one of the twelve words of the inode from byte 8
      on, or through the word at byte 56 in one index sector, or through the word at byte 60 in
      two of them. */
  lemma BlockPtrExactly(disk: Disk, ino: nat, i: nat)
    requires ino < |disk| && i < MAX_BLOCKS
    ensures var single, double := Word(disk[ino], 56), Word(disk[ino], 60);
      && (i < 12 ==> Ptr(disk, BlockAt(ino, i)) == Word(disk[ino], 8 + 4 * i))
      && (12 <= i < 140 && 0 < single < |disk| ==> Ptr(disk, BlockAt(ino, i)) == Word(disk[single], 4 * (i - 12)))
      && (140 <= i && 0 < double < |disk| ==>
            var second := Word(disk[double], 4 * ((i - 140) / 128));
            0 < second < |disk| ==> Ptr(disk, BlockAt(ino, i)) == Word(disk[second], 4 * ((i - 140) % 128)))
  {
    hide Word;
    assert Ptr(disk, InodeAt(ino)) == ino;
    assert Ptr(disk, SingleAt(ino)) == Word(disk[ino], 56) && Ptr(disk, DoubleAt(ino)) == Word(disk[ino], 60);
    if i >= 140 {
      var k := (i - 140) / 128;
      assert Parent(BlockAt(ino, i)) == IndexAt(ino, k);
      assert 0 < Ptr(disk, DoubleAt(ino)) < |disk| ==> Ptr(disk, IndexAt(ino, k)) == Word(disk[Ptr(disk, DoubleAt(ino))], 4 * k);
    }
  }

  /** The file with inode sector `ino` as a byte sequence. */
  function Content(disk: Disk, ino: nat): (c: seq<Byte>)
    requires ino < |disk| && Length(disk, ino) <= MAX_BYTES
    ensures |c| == Length(disk, ino)
  {
    seq(Length(disk, ino), pos requires 0 <= pos < Length(disk, ino) => ByteOf(disk, ino, pos))
  }

  /** Exactly the index sectors that `n` blocks need are there, all `n` blocks, and no others
      but perhaps block 0: an empty write to an empty file installs it and keeps the length 0. */
  ghost predicate BlocksOk(disk: Disk, ino: nat, n: nat) {
    && n <= MAX_BLOCKS
    && (forall i :: 0 <= i < n ==> Ptr(disk, BlockAt(ino, i)) != 0)
    && (forall i :: n <= i < MAX_BLOCKS && i > 0 ==> Ptr(disk, BlockAt(ino, i)) == 0)
    && (Ptr(disk, SingleAt(ino)) != 0 <==> n > DIRECT)
    && (Ptr(disk, DoubleAt(ino)) != 0 <==> n > DIRECT + INDIRECT)
    && (forall k :: 0 <= k < INDIRECT ==> (Ptr(disk, IndexAt(ino, k)) != 0 <==> n > DIRECT + INDIRECT * (1 + k)))
  }

  /** Bytes of installed blocks beyond the end of the file are zero. */
  ghost predicate ZeroTail(disk: Disk, ino: nat, length: nat)
  {
    forall i, o :: 0 <= i < Blocks(length) && i < MAX_BLOCKS && 0 <= o < SECTOR_SIZE && length <= SECTOR_SIZE * i + o
      ==> BlockByte(disk, ino, i, o) == 0
  }

  ghost predicate FileOk(disk: Disk, ino: nat) {
    && ino < |disk|
    && Length(disk, ino) <= MAX_BYTES
    && BlocksOk(disk, ino, Blocks(Length(disk, ino)))
    && ZeroTail(disk, ino, Length(disk, ino))
  }

  ghost predicate Valid(disk: Disk, used: seq<bool>, files: set<nat>) {
    Tree(disk, used, files) && forall f :: f in files ==> FileOk(disk, f)
  }

  // ---------- Files whose sectors a change leaves alone ----------

  /** The pointers, the length and the bytes of file `f` are the same on both disks. */
  ghost predicate SameFile(disk: Disk, disk': Disk, f: nat) {
    && f < |disk| && |disk'| == |disk|
    && (forall p :: PlaceOk(p) && p.ino == f ==> Ptr(disk', p) == Ptr(disk, p))
    && Length(disk', f) == Length(disk, f)
    && (forall i, o :: 0 <= i < MAX_BLOCKS && 0 <= o < SECTOR_SIZE && Ptr(disk, BlockAt(f, i)) != 0 ==>
          BlockByte(disk', f, i, o) == BlockByte(disk, f, i, o))
  }

  // ---------- Growing a tree ----------

  /** What adding the places `added` may do: their pointers become set, no other
      pointer, no length and no byte of another data block changes. */
  ghost predicate Grown(disk: Disk, disk': Disk, files: set<nat>, added: set<Place>) {
    && |disk'| == |disk|
    && (forall p :: PlaceOk(p) && p.ino in files && p !in added ==> Ptr(disk', p) == Ptr(disk, p))
    && (forall p :: PlaceOk(p) && p.ino in files && p in added ==> Ptr(disk', p) != 0)
    && (forall f :: f in files && f < |disk| ==> Length(disk', f) == Length(disk, f))
    && (forall p :: Live(disk, files, p) && p.BlockAt? && p !in added && Ptr(disk, p) < |disk|
          ==> disk'[Ptr(disk, p)] == disk[Ptr(disk, p)])
  }

  lemma GrownTrans(d0: Disk, d1: Disk, d2: Disk, files: set<nat>, a1: set<Place>, a2: set<Place>)
    requires Grown(d0, d1, files, a1) && Grown(d1, d2, files, a2)
    ensures Grown(d0, d2, files, a1 + a2)
  {
    forall p | Live(d0, files, p) && p.BlockAt? && p !in a1 + a2 && Ptr(d0, p) < |d0|
      ensures d2[Ptr(d0, p)] == d0[Ptr(d0, p)]
    {
      assert Live(d1, files, p);
    }
  }

  /** get_sector takes a free sector and clears it. */
  lemma TakeKeepsTree(disk: Disk, used: seq<bool>, files: set<nat>, w: nat)
    requires Tree(disk, used, files) && w < |used| && !used[w]
    ensures var disk', used' := disk[w := Zeros()], used[w := true];
      && Tree(disk', used', files) && Grown(disk, disk', files, {})
      && SamePtrs(disk, disk', files) && Spare(disk', files, w)
  {
    var disk', used' := disk[w := Zeros()], used[w := true];
    forall q | Live(disk, files, q) && !q.BlockAt? ensures KeepsSector(disk, disk', q, Ptr(disk, q)) {
    }
    KeptTree(disk, disk', used, files);
    assert forall p :: Live(disk', files, p) <==> Live(disk, files, p);
    assert Tree(disk', used', files);
    forall f | f in files && f < |disk| ensures Length(disk', f) == Length(disk, f) {
      assert Live(disk, files, InodeAt(f));
    }
  }

  /** A sector that was spare stays so when another one is taken. */
  lemma TakeKeepsSpare(disk: Disk, used: seq<bool>, files: set<nat>, w: nat, v: nat)
    requires Tree(disk, used, files) && w < |used| && !used[w] && Spare(disk, files, v) && used[v]
    ensures Spare(disk[w := Zeros()], files, v)
  {
    TakeKeepsTree(disk, used, files, w);
    assert forall p :: Live(disk[w := Zeros()], files, p) <==> Live(disk, files, p);
  }

  /** Setting the pointer of one place. */
  lemma StoreGrows(disk: Disk, used: seq<bool>, files: set<nat>, p0: Place, w: nat)
    requires CanStore(disk, files, p0, w) && Tree(disk, used, files) && used[w]
    ensures var disk' := StorePtr(disk, p0, w);
      Tree(disk', used, files) && Ptr(disk', p0) == w && Grown(disk, disk', files, {p0}) && disk'[w] == Zeros()
  {
    var disk' := StorePtr(disk, p0, w);
    StoreKeepsTree(disk, used, files, p0, w);
    var q := Parent(p0);
    forall f | f in files && f < |disk| ensures Length(disk', f) == Length(disk, f) {
      if f == Ptr(disk, q) {
        assert Live(disk, files, InodeAt(f));
        assert q == InodeAt(f);
        OtherWordOfSetWord(disk[f], PtrOfs(p0), w, LENGTH_OFS);
      }
    }
  }

  lemma StoreKeepsSpare(disk: Disk, used: seq<bool>, files: set<nat>, p0: Place, w: nat, v: nat)
    requires CanStore(disk, files, p0, w) && Tree(disk, used, files) && used[w] && Spare(disk, files, v) && v != w
    ensures Spare(StorePtr(disk, p0, w), files, v)
  {
    var disk' := StorePtr(disk, p0, w);
    StoreKeepsTree(disk, used, files, p0, w);
    forall p | Live(disk', files, p) ensures Ptr(disk', p) != v {
      assert p != p0 ==> Live(disk, files, p);
    }
  }

  /** Taking a free sector for an index place while sector `v` waits for its turn. */
  lemma IndexAdded(disk: Disk, used: seq<bool>, files: set<nat>, p0: Place, v: nat)
    requires Tree(disk, used, files) && Spare(disk, files, v) && used[v] && FirstFree(used) < |used|
    requires PlaceOk(p0) && !p0.InodeAt? && !p0.BlockAt? && p0.ino in files
    requires Live(disk, files, Parent(p0)) && Ptr(disk, p0) == 0
    ensures var w := FirstFree(used);
      var disk1, used' := disk[w := Zeros()], used[w := true];
      && Ptr(disk1, Parent(p0)) == Ptr(disk, Parent(p0)) < |disk1| && w < WORD
      && Tree(StorePtr(disk1, p0, w), used', files)
      && Grown(disk, StorePtr(disk1, p0, w), files, {p0})
      && Spare(StorePtr(disk1, p0, w), files, v) && used'[v]
      && Ptr(StorePtr(disk1, p0, w), p0) == w
  {
    var w := FirstFree(used);
    var disk1, used' := disk[w := Zeros()], used[w := true];
    TakeKeepsTree(disk, used, files, w);
    TakeKeepsSpare(disk, used, files, w, v);
    assert Live(disk1, files, Parent(p0));
    StoreGrows(disk1, used', files, p0, w);
    StoreKeepsSpare(disk1, used', files, p0, w, v);
    GrownTrans(disk, disk1, StorePtr(disk1, p0, w), files, {}, {p0});
    assert {} + {p0} == {p0};
  }

  /** The places install_sector sets for block `i`: the block itself and the index
      sectors on the way to it that are not there yet. */
  ghost function Missing(disk: Disk, ino: nat, i: nat): set<Place>
    requires i < MAX_BLOCKS
  {
    {BlockAt(ino, i)} + MissingIndex(disk, ino, i)
  }

  ghost function MissingIndex(disk: Disk, ino: nat, i: nat): set<Place>
    requires i < MAX_BLOCKS
  {
    if i < DIRECT then {}
    else if i < DIRECT + INDIRECT then Absent(disk, SingleAt(ino))
    else Absent(disk, DoubleAt(ino)) + Absent(disk, IndexAt(ino, (i - DIRECT - INDIRECT) / INDIRECT))
  }

  ghost function Absent(disk: Disk, p: Place): set<Place>
    requires PlaceOk(p)
  {
    if Ptr(disk, p) == 0 then {p} else {}
  }

  /** Taking the data sector, adding index sectors and storing the block pointer,
      put together. */
  lemma InstallGrows(d0: Disk, d1: Disk, d2: Disk, d3: Disk, files: set<nat>, ino: nat, i: nat, added: set<Place>)
    requires i < MAX_BLOCKS && ino in files && added == MissingIndex(d0, ino, i)
    requires Grown(d0, d1, files, {}) && Grown(d1, d2, files, added) && Grown(d2, d3, files, {BlockAt(ino, i)})
    ensures Grown(d0, d3, files, Missing(d0, ino, i))
  {
    GrownTrans(d0, d1, d2, files, {}, added);
    GrownTrans(d0, d2, d3, files, {} + added, {BlockAt(ino, i)});
    assert {} + added + {BlockAt(ino, i)} == Missing(d0, ino, i);
  }

  lemma MissingSize(d0: Disk, ino: nat, i: nat)
    requires i < MAX_BLOCKS
    ensures |Missing(d0, ino, i)| == 1 + |MissingIndex(d0, ino, i)|
  {
  }

  lemma DirectMissing(d: Disk, ino: nat, i: nat)
    requires i < DIRECT
    ensures |Missing(d, ino, i)| == 1
  {
    MissingSize(d, ino, i);
  }

  lemma MissingIndexSize(d0: Disk, ino: nat, i: nat)
    requires DIRECT + INDIRECT <= i < MAX_BLOCKS
    ensures |MissingIndex(d0, ino, i)| ==
      |Absent(d0, DoubleAt(ino))| + |Absent(d0, IndexAt(ino, (i - DIRECT - INDIRECT) / INDIRECT))|
  {
  }

  lemma SameMissing(d0: Disk, d1: Disk, files: set<nat>, ino: nat, i: nat)
    requires i < MAX_BLOCKS && ino in files && SamePtrs(d0, d1, files)
    ensures MissingIndex(d1, ino, i) == MissingIndex(d0, ino, i)
  {
  }

  /** Sector `v` has been taken for file `ino` and is not part of the tree yet. */
  ghost predicate Pending(disk: Disk, used: seq<bool>, files: set<nat>, ino: nat, v: nat) {
    Tree(disk, used, files) && Spare(disk, files, v) && used[v] && ino in files
  }

  ghost predicate StillUsed(used: seq<bool>, used': seq<bool>) {
    |used'| == |used| && forall t :: 0 <= t < |used| && used[t] ==> used'[t]
  }

  lemma StillUsedTrans(u0: seq<bool>, u1: seq<bool>, u2: seq<bool>)
    requires StillUsed(u0, u1) && StillUsed(u1, u2)
    ensures StillUsed(u0, u2)
  {
  }

  /** The block pointer is stored last, into an index sector that is now there. */
  lemma BlockStored(d0: Disk, d1: Disk, d2: Disk, used: seq<bool>, files: set<nat>, ino: nat, i: nat, sec: nat)
    requires i < MAX_BLOCKS && Pending(d2, used, files, ino, sec)
    requires Grown(d0, d1, files, {}) && Grown(d1, d2, files, MissingIndex(d0, ino, i))
    requires Live(d2, files, Parent(BlockAt(ino, i)))
    ensures Ptr(d2, Parent(BlockAt(ino, i))) < |d2|
    ensures var d3 := StorePtr(d2, BlockAt(ino, i), sec);
      Tree(d3, used, files) && Grown(d0, d3, files, Missing(d0, ino, i))
      && Ptr(d3, BlockAt(ino, i)) == sec && d3[sec] == Zeros()
  {
    var b := BlockAt(ino, i);
    StoreGrows(d2, used, files, b, sec);
    InstallGrows(d0, d1, d2, StorePtr(d2, b, sec), files, ino, i, MissingIndex(d0, ino, i));
  }

  /** A direct block needs no index sector. */
  lemma DirectReady(d: Disk, used: seq<bool>, files: set<nat>, ino: nat, i: nat, sec: nat)
    requires Tree(d, used, files) && Spare(d, files, sec) && used[sec] && ino in files && i < DIRECT
    ensures Pending(d, used, files, ino, sec) && Grown(d, d, files, MissingIndex(d, ino, i))
    ensures Live(d, files, Parent(BlockAt(ino, i))) && Ptr(d, Parent(BlockAt(ino, i))) == ino
  {
    hide Tree, Spare;
    forall p | Live(d, files, p) && p.BlockAt? ensures p !in MissingIndex(d, ino, i) {
    }
  }

  /** The second-level index sector is looked up in a double indirect sector that
      has just been found or added. */
  lemma DoubleReady(d0: Disk, d1: Disk, files: set<nat>, ino: nat, i: nat)
    requires ino in files && DIRECT + INDIRECT <= i < MAX_BLOCKS && Grown(d0, d1, files, Absent(d0, DoubleAt(ino)))
    ensures Live(d1, files, DoubleAt(ino))
    ensures Absent(d1, Parent(BlockAt(ino, i))) == Absent(d0, Parent(BlockAt(ino, i)))
  {
    assert DoubleAt(ino) !in Absent(d0, DoubleAt(ino)) ==> Ptr(d0, DoubleAt(ino)) != 0;
  }

  lemma DoubleGrown(d0: Disk, d1: Disk, d2: Disk, files: set<nat>, ino: nat, i: nat)
    requires DIRECT + INDIRECT <= i < MAX_BLOCKS
    requires Grown(d0, d1, files, Absent(d0, DoubleAt(ino)))
    requires Grown(d1, d2, files, Absent(d0, Parent(BlockAt(ino, i))))
    ensures Grown(d0, d2, files, MissingIndex(d0, ino, i))
  {
    GrownTrans(d0, d1, d2, files, Absent(d0, DoubleAt(ino)), Absent(d0, Parent(BlockAt(ino, i))));
  }
}
