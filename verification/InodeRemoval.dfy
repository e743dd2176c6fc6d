/** What closing a removed file gives back to the free map, and what it keeps. */
module InodeRemoval {
  import opened Arithmetic
  import opened Storage
  import opened InodeLayout
  import opened InodeTree
  import opened InodeFile
  import opened InodeGrowth
  import opened InodeCreate
  import opened InodeReuse
  import opened FreeMap

  // ---------- The blocks below a place ----------

  function Span(p: Place): nat {
    match p
    case BlockAt(_, _) => 1
    case DoubleAt(_) => INDIRECT * INDIRECT
    case _ => INDIRECT
  }

  /** The level clear_data is called with for `p`. */
  function Level(p: Place): nat {
    match p
    case BlockAt(_, _) => 1
    case DoubleAt(_) => 3
    case _ => 2
  }

  /** What word `j` of an index sector points to. */
  function Child(p: Place, j: nat): (q: Place)
    requires PlaceOk(p) && IsIndex(p) && j < INDIRECT
    ensures PlaceOk(q) && !q.InodeAt? && q.ino == p.ino && Parent(q) == p && PtrOfs(q) == 4 * j
    ensures First(q) == First(p) + j * Span(q) && Level(q) == Level(p) - 1
  {
    match p
    case SingleAt(ino) => BlockAt(ino, DIRECT + j)
    case DoubleAt(ino) => IndexAt(ino, j)
    case IndexAt(ino, k) => BlockAt(ino, DIRECT + INDIRECT * (1 + k) + j)
  }

  // ---------- Installed blocks ----------

  /** How many blocks a file has. */
  ghost function Installed(disk: Disk, ino: nat): nat
    requires ino < |disk|
  {
    if Ptr(disk, BlockAt(ino, 0)) == 0 then 0 else Max(1, Blocks(Length(disk, ino)))
  }

  /** They are the first ones, and index sectors are there just for them. */
  lemma InstalledPrefix(disk: Disk, ino: nat, p: Place)
    requires FileOk(disk, ino) && PlaceOk(p) && p.ino == ino && !p.InodeAt?
    ensures Ptr(disk, p) != 0 <==> First(p) < Installed(disk, ino)
  {
    assert BlocksOk(disk, ino, Blocks(Length(disk, ino)));
  }

  /** The number of blocks among the first `n` that are there. */
  ghost function Upto(disk: Disk, ino: nat, n: nat): (m: nat)
    requires FileOk(disk, ino)
    ensures m <= MAX_BLOCKS
  {
    if n < Installed(disk, ino) then n else Installed(disk, ino)
  }

  /** The block that word `j` of an index sector leads to first. */
  ghost function Reach(p: Place, j: nat): nat
    requires PlaceOk(p) && !p.InodeAt?
  {
    if p.DoubleAt? then First(p) + INDIRECT * j else First(p) + j
  }

  lemma ReachChild(p: Place, j: nat)
    requires PlaceOk(p) && IsIndex(p) && j < INDIRECT
    ensures First(Child(p, j)) == Reach(p, j) && First(Child(p, j)) + Span(Child(p, j)) == Reach(p, j + 1)
  {
  }

  lemma ReachGrows(p: Place, j: nat)
    requires PlaceOk(p) && IsIndex(p) && j <= INDIRECT
    ensures First(p) <= Reach(p, j) <= First(p) + Span(p)
    ensures (j == 0 ==> Reach(p, j) == First(p)) && (j == INDIRECT ==> Reach(p, j) == First(p) + Span(p))
  {
  }

  lemma UptoNext(disk: Disk, ino: nat, n: nat)
    requires FileOk(disk, ino)
    ensures ino < |disk|
    ensures Upto(disk, ino, n) == if n < Installed(disk, ino) then n else Installed(disk, ino)
  {
  }

  lemma LevelCases(p: Place)
    requires PlaceOk(p) && !p.InodeAt?
    ensures Span(p) >= 1
    ensures if Level(p) == 1 then p == BlockAt(p.ino, First(p)) && Span(p) == 1 else IsIndex(p) && Level(p) >= 2
  {
  }

  lemma AllInstalled(disk: Disk, ino: nat)
    requires FileOk(disk, ino)
    ensures ino < |disk| && Upto(disk, ino, First(DoubleAt(ino)) + Span(DoubleAt(ino))) == Installed(disk, ino)
  {
  }

  /** The inode sector and the sectors of the first `n` blocks. */
  ghost function SectorsOf(disk: Disk, ino: nat, n: nat): seq<nat>
    requires n <= MAX_BLOCKS
  {
    [ino] + seq(n, i requires 0 <= i < n => Ptr(disk, BlockAt(ino, i)))
  }

  lemma OneMoreBlock(disk: Disk, ino: nat, n: nat)
    requires n < MAX_BLOCKS
    ensures SectorsOf(disk, ino, n + 1) == SectorsOf(disk, ino, n) + [Ptr(disk, BlockAt(ino, n))]
  {
  }

  // ---------- Releasing sectors ----------

  /** `used` is `base` with the sectors of `freed`, all in use there, released. */
  ghost predicate Cleared(base: seq<bool>, freed: seq<nat>, used: seq<bool>) {
    && |used| == |base|
    && (forall s :: 0 <= s < |base| ==> (used[s] <==> base[s] && s !in freed))
    && FreeCount(used) == FreeCount(base) + |freed|
  }

  lemma ClearOne(base: seq<bool>, freed: seq<nat>, used: seq<bool>, s: nat)
    requires Cleared(base, freed, used) && s < |used| && used[s]
    ensures Cleared(base, freed + [s], used[s := false])
  {
    FreeCountMark(used, s, false);
  }

  /** The next block has not been released yet, so its release is no double one. */
  lemma NextStillUsed(disk: Disk, base: seq<bool>, files: set<nat>, used: seq<bool>, ino: nat, n: nat)
    requires Tree(disk, base, files) && FileOk(disk, ino) && ino in files
    requires n < Installed(disk, ino) && Cleared(base, SectorsOf(disk, ino, n), used)
    ensures var s := Ptr(disk, BlockAt(ino, n)); s < |used| && used[s]
  {
    var b := BlockAt(ino, n);
    InstalledPrefix(disk, ino, b);
    assert Live(disk, files, b) && Live(disk, files, InodeAt(ino));
    forall i | 0 <= i < n ensures Ptr(disk, BlockAt(ino, i)) != Ptr(disk, b) {
      InstalledPrefix(disk, ino, BlockAt(ino, i));
      assert Live(disk, files, BlockAt(ino, i));
    }
  }

  /** The inode sector and the first `n` blocks of file `ino` have been released. */
  ghost predicate Freeing(disk: Disk, base: seq<bool>, files: set<nat>, used: seq<bool>, ino: nat, n: nat) {
    && Tree(disk, base, files) && ino in files && FileOk(disk, ino)
    && n <= Installed(disk, ino) && Cleared(base, SectorsOf(disk, ino, n), used)
  }

  lemma FreeInode(disk: Disk, used: seq<bool>, files: set<nat>, ino: nat)
    requires Tree(disk, used, files) && ino in files && FileOk(disk, ino)
    ensures ino < |used| && used[ino] && Freeing(disk, used, files, used[ino := false], ino, 0)
  {
    assert Live(disk, files, InodeAt(ino));
    ClearOne(used, [], used, ino);
    assert SectorsOf(disk, ino, 0) == [] + [ino];
  }

  lemma FreeNext(disk: Disk, base: seq<bool>, files: set<nat>, used: seq<bool>, ino: nat, n: nat)
    requires Freeing(disk, base, files, used, ino, n) && ino < |disk| && n < Installed(disk, ino)
    ensures n < MAX_BLOCKS
    ensures var s := Ptr(disk, BlockAt(ino, n)); s < |used| && used[s] && Freeing(disk, base, files, used[s := false], ino, n + 1)
  {
    NextStillUsed(disk, base, files, used, ino, n);
    ClearOne(base, SectorsOf(disk, ino, n), used, Ptr(disk, BlockAt(ino, n)));
    OneMoreBlock(disk, ino, n);
  }

  /** Word `j` of an index sector is the pointer to its child. */
  lemma ChildWord(disk: Disk, base: seq<bool>, files: set<nat>, p: Place, j: nat)
    requires Tree(disk, base, files) && p.ino in files && PlaceOk(p) && IsIndex(p) && Ptr(disk, p) != 0 && j < INDIRECT
    ensures Ptr(disk, p) < |disk| && Word(disk[Ptr(disk, p)], 4 * j) == Ptr(disk, Child(p, j))
  {
    assert Live(disk, files, p);
  }

  // ---------- What is left ----------

  /** The other files and their sectors are as before. */
  lemma OthersStay(disk: Disk, base: seq<bool>, files: set<nat>, used: seq<bool>, ino: nat)
    requires Valid(disk, base, files) && ino in files && ino != 0 && FileOk(disk, ino)
    requires Cleared(base, SectorsOf(disk, ino, Installed(disk, ino)), used)
    ensures Valid(disk, used, files - {ino})
  {
    var rest, freed := files - {ino}, SectorsOf(disk, ino, Installed(disk, ino));
    forall p | Live(disk, rest, p) ensures Live(disk, files, p) && Ptr(disk, p) < |disk| && used[Ptr(disk, p)] {
      assert Live(disk, files, p);
      FreedAreOwn(disk, base, files, ino, p);
    }
    assert 0 !in freed by {
      forall i | 0 <= i < Installed(disk, ino) ensures Ptr(disk, BlockAt(ino, i)) != 0 {
        InstalledPrefix(disk, ino, BlockAt(ino, i));
      }
    }
  }

  /** No sector of another place is released. */
  lemma FreedAreOwn(disk: Disk, base: seq<bool>, files: set<nat>, ino: nat, p: Place)
    requires Tree(disk, base, files) && ino in files && FileOk(disk, ino)
    requires Live(disk, files, p) && (p.ino != ino || IsIndex(p))
    ensures Ptr(disk, p) !in SectorsOf(disk, ino, Installed(disk, ino))
  {
    assert Live(disk, files, InodeAt(ino));
    assert Ptr(disk, InodeAt(ino)) == ino != Ptr(disk, p);
    hide Tree, Live, FileOk, Installed, Ptr;
    forall i | 0 <= i < Installed(disk, ino) && i < MAX_BLOCKS ensures Ptr(disk, BlockAt(ino, i)) != Ptr(disk, p) {
      BlockIsOwn(disk, base, files, ino, p, i);
    }
  }

  lemma BlockIsOwn(disk: Disk, base: seq<bool>, files: set<nat>, ino: nat, p: Place, i: nat)
    requires Tree(disk, base, files) && ino in files && FileOk(disk, ino)
    requires Live(disk, files, p) && p != BlockAt(ino, i) && i < MAX_BLOCKS && ino < |disk| && i < Installed(disk, ino)
    ensures Ptr(disk, BlockAt(ino, i)) != Ptr(disk, p)
  {
    InstalledPrefix(disk, ino, BlockAt(ino, i));
    hide FileOk, Installed, Ptr;
    assert Live(disk, files, BlockAt(ino, i));
  }

  /** Exactly the index sectors of a removed file stay marked. */
  lemma IndexStaysMarked(disk: Disk, base: seq<bool>, files: set<nat>, used: seq<bool>, ino: nat, p: Place)
    requires Valid(disk, base, files) && ino in files && FileOk(disk, ino)
    requires Cleared(base, SectorsOf(disk, ino, Installed(disk, ino)), used)
    requires Live(disk, files, p) && p.ino == ino
    ensures Ptr(disk, p) < |used| && (used[Ptr(disk, p)] <==> IsIndex(p))
  {
    assert Ptr(disk, p) < |base| && base[Ptr(disk, p)];
    hide Valid, FileOk, SectorsOf, Installed, Ptr, Live;
    if IsIndex(p) {
      FreedAreOwn(disk, base, files, ino, p);
    } else {
      FreedHas(disk, ino, p);
    }
  }

  /** The inode sector and all blocks that are there are released. */
  lemma FreedHas(disk: Disk, ino: nat, p: Place)
    requires FileOk(disk, ino) && PlaceOk(p) && p.ino == ino && !IsIndex(p) && (p.InodeAt? || Ptr(disk, p) != 0)
    ensures Ptr(disk, p) in SectorsOf(disk, ino, Installed(disk, ino))
  {
    FirstSector(disk, ino, Installed(disk, ino));
    if p.BlockAt? {
      InstalledPrefix(disk, ino, p);
      hide SectorsOf, Ptr, Installed, BlocksOk, ZeroTail;
      SectorAt(disk, ino, Installed(disk, ino), p.i);
    }
  }

  lemma FirstSector(disk: Disk, ino: nat, n: nat)
    requires n <= MAX_BLOCKS
    ensures ino in SectorsOf(disk, ino, n)
  {
    assert SectorsOf(disk, ino, n)[0] == ino;
  }

  lemma SectorAt(disk: Disk, ino: nat, n: nat, i: nat)
    requires i < n <= MAX_BLOCKS
    ensures Ptr(disk, BlockAt(ino, i)) in SectorsOf(disk, ino, n)
  {
    hide Ptr;
    assert SectorsOf(disk, ino, n)[i + 1] == Ptr(disk, BlockAt(ino, i));
  }

  /** So removing a file gives back all its sectors if and only if it fits the direct
      pointers. */
  lemma RemovalFreesAll(disk: Disk, base: seq<bool>, files: set<nat>, used: seq<bool>, ino: nat)
    requires Valid(disk, base, files) && ino in files && FileOk(disk, ino)
    requires Cleared(base, SectorsOf(disk, ino, Installed(disk, ino)), used) && |used| == |disk|
    ensures (forall p :: Live(disk, files, p) && p.ino == ino ==> Ptr(disk, p) < |used| && !used[Ptr(disk, p)])
      <==> Length(disk, ino) <= DIRECT * SECTOR_SIZE
  {
    forall p | Live(disk, files, p) && p.ino == ino
      ensures Ptr(disk, p) < |used| && (used[Ptr(disk, p)] <==> IsIndex(p))
    {
      IndexStaysMarked(disk, base, files, used, ino, p);
    }
    if Length(disk, ino) <= DIRECT * SECTOR_SIZE {
      forall p | Live(disk, files, p) && p.ino == ino ensures !IsIndex(p) {
        if IsIndex(p) { InstalledPrefix(disk, ino, p); }
      }
    } else {
      InstalledPrefix(disk, ino, BlockAt(ino, 0));
      InstalledPrefix(disk, ino, SingleAt(ino));
      assert Live(disk, files, SingleAt(ino));
    }
  }

  // ---------- A new file in the sector of a removed one ----------

  /** Closing a removed file leaves its words on the disk; the old pointers fit a new file of `n`
      blocks in its sector if and only if it had no more blocks than that, or just one, ... */
  lemma RemovedFits(disk: Disk, ino: nat, n: nat)
    requires FileOk(disk, ino)
    ensures OldFits(disk, ino, n) <==> Installed(disk, ino) <= Max(1, n)
  {
    forall p | PlaceOk(p) && p.ino == ino && !p.InodeAt? ensures Ptr(disk, p) != 0 <==> First(p) < Installed(disk, ino) {
      InstalledPrefix(disk, ino, p);
    }
    var k := Max(1, n);
    if k < Installed(disk, ino) {
      assert First(BlockAt(ino, k)) == k;
    }
  }

  /** ... its index sectors are there to be used again, ... */
  lemma RemovedBones(disk: Disk, base: seq<bool>, files: set<nat>, used: seq<bool>, ino: nat)
    requires Valid(disk, base, files) && ino in files && ino != 0 && FileOk(disk, ino)
    requires Cleared(base, SectorsOf(disk, ino, Installed(disk, ino)), used)
    ensures ino < |used| && Bones(disk, used[ino := true], files - {ino}, ino, Installed(disk, ino))
  {
    var rest, u := files - {ino}, used[ino := true];
    assert Live(disk, files, InodeAt(ino));
    RemovedReserved(disk, base, files, ino, InodeAt(ino));
    forall p | Bone(ino, p)
      ensures Ptr(disk, p) != 0 <==> First(p) < Installed(disk, ino)
      ensures Ptr(disk, p) != 0 ==> Ptr(disk, p) != ino && Reserved(disk, u, rest, Ptr(disk, p))
    {
      InstalledPrefix(disk, ino, p);
      if Ptr(disk, p) != 0 {
        assert Live(disk, files, p);
        IndexStaysMarked(disk, base, files, used, ino, p);
        RemovedReserved(disk, base, files, ino, p);
      }
    }
    forall p, q | Bone(ino, p) && Bone(ino, q) && p != q && Ptr(disk, p) != 0 ensures Ptr(disk, p) != Ptr(disk, q) {
      assert Live(disk, files, p);
      if Ptr(disk, q) != 0 { assert Live(disk, files, q); }
    }
  }

  /** No other file has a sector of the removed one. */
  lemma RemovedReserved(disk: Disk, base: seq<bool>, files: set<nat>, ino: nat, p: Place)
    requires Tree(disk, base, files) && Live(disk, files, p) && p.ino == ino
    ensures Ptr(disk, p) !in files - {ino} && forall q :: Live(disk, files - {ino}, q) ==> Ptr(disk, q) != Ptr(disk, p)
  {
    forall q | Live(disk, files - {ino}, q) ensures Ptr(disk, q) != Ptr(disk, p) {
      assert Live(disk, files, q);
    }
    assert Ptr(disk, p) in files - {ino} <==> Live(disk, files - {ino}, InodeAt(Ptr(disk, p)));
  }

  /** ... and the new one is a file of its own if and only if it has at least as many blocks, for
      the first pointer would lead an empty one to a free sector. */
  lemma RecreateExact(disk: Disk, base: seq<bool>, files: set<nat>, used: seq<bool>, ino: nat, n: nat)
    requires Valid(disk, base, files) && ino in files && ino != 0 && FileOk(disk, ino)
    requires Cleared(base, SectorsOf(disk, ino, Installed(disk, ino)), used)
    ensures ino < |used|
    ensures Fits(disk, used[ino := true], files - {ino}, ino, n) <==> Installed(disk, ino) <= n
  {
    var freed := SectorsOf(disk, ino, Installed(disk, ino));
    assert Live(disk, files, InodeAt(ino));
    RemovedFits(disk, ino, n);
    OwnPtrs(disk, ino);
    InstalledPrefix(disk, ino, BlockAt(ino, 0));
    if Installed(disk, ino) == 1 {
      assert freed[1] == DirectWord(disk[ino], 0) != 0;
      assert Live(disk, files, BlockAt(ino, 0));
    }
  }

  // ---------- How many sectors are lost ----------

  /** The index sectors of a file of `n` blocks. */
  function IndexSectors(n: nat): nat {
    if n <= DIRECT then 0
    else if n <= DIRECT + INDIRECT then 1
    else 2 + (n - DIRECT - 1) / INDIRECT
  }

  /** Growing to `n` blocks takes those and one sector for each block, so creating a file and
      removing it again loses them. */
  lemma {:induction false} NeededIsIndex(n: nat)
    ensures Needed(0, n) == n + IndexSectors(n)
  {
    if n > 0 {
      NeededIsIndex(n - 1);
      IndexStep(n - 1);
    }
  }

  lemma {:induction false} NeededFrom(n: nat, m: nat)
    requires n <= m
    ensures Needed(n, m) == Needed(0, m) - Needed(0, n)
  {
    if n < m { NeededFrom(n, m - 1); }
  }

  /** What a file of `now` blocks lacks to `next`. */
  lemma Lacks(now: nat, next: nat)
    requires now <= next
    ensures Needed(now, next) == next + IndexSectors(next) - now - IndexSectors(now)
  {
    hide Needed, IndexSectors;
    NeededFrom(now, next);
    NeededIsIndex(now);
    NeededIsIndex(next);
  }

  /** The sectors that a write takes out of the free map, and exactly when it fails an ASSERT:
      either the file grows, which takes the blocks and index sectors it lacks and one that
      can_allocate keeps, and the index cannot reach the end of the write or the free map runs
      out; or it cannot grow and the loop asks for the block behind the largest possible file. */
  lemma WriteCost(length: nat, free: nat, size: nat, offset: nat, deny: bool)
    requires length <= MAX_BYTES
    ensures var end, now := offset + size, (length + 511) / 512;
      var next := Max(1, (end + 511) / 512);
      var lacks := next + IndexSectors(next) - now - IndexSectors(now);
      && Spends(length, free, end) ==
           (if next <= now then 0 else if Grows(length, free, end) then 1 + lacks else Min(free, 1))
      && (WritePanics(length, free, size, offset, deny) <==>
            if Grows(length, free, end) then next > now && (end > MAX_BYTES || free < 1 + lacks)
            else !deny && size > 0 && Max(offset, length) >= MAX_BYTES)
  {
    var now, next := Blocks(length), Target(offset + size);
    assert next > MAX_BLOCKS <==> offset + size > MAX_BYTES;
    hide Needed, IndexSectors;
    if now < next { Lacks(now, next); }
  }

  /** A file in the sector of one of `m` blocks takes only the index sectors beyond those. */
  lemma {:induction false} RegrowIsIndex(m: nat, n: nat)
    ensures Regrow(m, n) == n + IndexSectors(Max(m, n)) - IndexSectors(m)
  {
    if n > 0 {
      RegrowIsIndex(m, n - 1);
      if n > m { IndexStep(n - 1); }
    }
  }

  lemma IndexStep(n: nat)
    ensures IndexSectors(n + 1) == IndexSectors(n) + FirstUses(n)
  {
  }
}
