/** inode.c over the logical disk that the buffer cache provides. */
module Inode {
  import opened Arithmetic
  import opened Storage
  import opened InodeLayout
  import opened InodeTree
  import opened InodeFile
  import opened InodeGrowth
  import opened InodeInstall
  import opened InodeCreate
  import opened InodeReuse
  import opened InodeRemoval
  import opened InodeTags
  import opened FreeMap

  class FileSystem {
    var disk: Disk
    var used: seq<bool>
    ghost var files: set<nat>          // the inode sectors of all well-formed files

    const INODE_MAGIC: nat := 0x494e4f44

    /** free_map_init: a disk with any contents on which only the inode sectors of the free map
        and of the root directory are taken. */
    constructor (contents: Disk)
      requires 2 <= |contents| < WORD
      ensures disk == contents && files == {} && |used| == |disk| && Valid(disk, used, files)
      ensures FreeCount(used) == |disk| - 2 && forall t :: 0 <= t < |used| ==> (used[t] <==> t < 2)
    {
      disk := contents;
      used := seq(|contents|, t => t < 2);
      files := {};
      new;
      FreshCount(used);
    }

    /** The state is what `r` says, or `panic` when that is nothing. */
    ghost predicate Does(r: Option<Put>, panic: bool, s: nat)
      reads this
    {
      (panic <==> r.None?) && (r.Some? ==> disk == r.value.disk && used == r.value.used && s == r.value.at)
    }

    // ---------- Sector allocation ----------

    /** free_map_allocate for one sector: the lowest free one, as it is. */
    method Allocate() returns (r: Option<nat>)
      modifies this`used
      ensures FreeCount(old(used)) == 0 ==> r.None? && used == old(used)
      ensures FreeCount(old(used)) > 0 ==>
        && r == Some(FirstFree(old(used))) && r.value < |old(used)| && used == old(used)[r.value := true]
        && FreeCount(used) == FreeCount(old(used)) - 1
    {
      FreeExists(used);
      var w := FirstFree(used);
      if w == |used| {
        return None;
      }
      FreeCountMark(used, w, true);
      used := used[w := true];
      r := Some(w);
    }

    /** get_sector: takes the lowest free sector and clears it. */
    method GetSector() returns (r: Option<nat>)
      requires |used| == |disk|
      modifies this`disk, this`used
      ensures FreeCount(old(used)) == 0 ==> r.None? && disk == old(disk) && used == old(used)
      ensures FreeCount(old(used)) > 0 ==>
        && r == Some(FirstFree(old(used))) && r.value < |old(used)|
        && used == old(used)[r.value := true] && disk == old(disk)[r.value := Zeros()]
        && FreeCount(used) == FreeCount(old(used)) - 1
    {
      r := Allocate();
      if r.Some? {
        disk := disk[r.value := Zeros()];
      }
    }

    /** The release loops of can_allocate: they stop before the first sector. */
    method ReleaseButFirst(sectors: seq<nat>, ghost base: seq<bool>)
      requires Marked(base, sectors, used)
      requires sectors != [] ==> sectors[0] == FirstFree(base)
      modifies this`used
      ensures used == Leaked(base, |sectors|)
    {
      var j := |sectors| - 1;
      while j > 0
        invariant -1 <= j < |sectors| && (sectors != [] ==> j >= 0)
        invariant Marked(base, sectors[..j + 1], used)
      {
        assert sectors[..j + 1][..j] == sectors[..j];
        used := used[sectors[j] := false];
        j := j - 1;
      }
      if sectors != [] {
        assert sectors[..j + 1] == [FirstFree(base)];
        assert used == base[FirstFree(base) := true];
      } else {
        assert used == base;
      }
    }

    /** can_allocate: tells whether `num` sectors are free by taking and releasing
        them, but keeps one.  Taking them clears sectors that were free. */
    method CanAllocate(num: nat) returns (ok: bool)
      requires |used| == |disk|
      modifies this`disk, this`used
      ensures ok <==> FreeCount(old(used)) >= num
      ensures used == Leaked(old(used), num) && |disk| == |old(disk)|
      ensures forall s :: 0 <= s < |disk| && old(used)[s] ==> disk[s] == old(disk)[s]
    {
      var sectors: seq<nat> := [];
      FreeExists(used);
      for i := 0 to num
        invariant |sectors| == i && |used| == |disk| == |old(disk)|
        invariant Marked(old(used), sectors, used)
        invariant i > 0 ==> sectors[0] == FirstFree(old(used))
        invariant FreeCount(used) == FreeCount(old(used)) - i
        invariant forall s :: 0 <= s < |disk| && old(used)[s] ==> disk[s] == old(disk)[s]
      {
        ghost var before := used;
        if i == 0 { assert used == old(used); }
        var r := GetSector();
        if r.None? {
          ReleaseButFirst(sectors, old(used));
          return false;
        }
        MarkOne(old(used), sectors, before, r.value);
        sectors := sectors + [r.value];
      }
      ReleaseButFirst(sectors, old(used));
      ok := true;
    }

    /** The sector whose pointer is the word at byte `ofs` of sector `at`, installed if there is
        none; the ASSERT around get_sector fails when the free map is out. */
    method EnsureIndex(at: nat, ofs: nat) returns (panic: bool, s: nat)
      requires Sized(disk, used) && at < |disk| && ofs + 4 <= SECTOR_SIZE
      modifies this`disk, this`used
      ensures Does(PutIndex(old(disk), old(used), at, ofs), panic, s)
    {
      hide FreeCount, Zeros, Word, StoreWord, FirstFree;
      panic := false;
      s := Word(disk[at], ofs);
      if s == 0 {
        FreeExists(used);
        var r := GetSector();
        if r.None? {
          return true, 0;
        }
        s := r.value;
        disk := StoreWord(disk, at, ofs, s);
      }
    }

    /** The index sectors that block `i` needs, and the one that holds its pointer; a pointer
        that leads off the disk stops the device. */
    method EnsurePath(ino: nat, i: nat) returns (panic: bool, s: nat)
      requires Sized(disk, used) && ino < |disk| && DIRECT <= i < MAX_BLOCKS
      modifies this`disk, this`used
      ensures Does(PutPath(old(disk), old(used), ino, i), panic, s)
    {
      hide PutIndex;
      if i < DIRECT + INDIRECT {
        panic, s := EnsureIndex(ino, SINGLE_OFS);
      } else {
        panic, s := EnsureIndex(ino, DOUBLE_OFS);
        if panic { return; }
        if s >= |disk| { return true, 0; }
        panic, s := EnsureIndex(s, 4 * ((i - DIRECT - INDIRECT) / INDIRECT));
      }
    }

    /** install_sector: a fresh zeroed sector becomes block `i` of the inode at `ino`; the
        index sectors on the way are installed as needed. */
    method InstallSector(ino: nat, i: nat) returns (panic: bool)
      requires Sized(disk, used) && ino < |disk| && i < MAX_BLOCKS
      modifies this`disk, this`used
      ensures panic <==> Install(old(disk), old(used), ino, i).None?
      ensures !panic ==>
        var x := Install(old(disk), old(used), ino, i).value;
        disk == x.disk && used == x.used
    {
      hide FreeCount, Zeros, StoreWord, FirstFree, PutPath;
      FreeExists(used);
      var r := GetSector();
      if r.None? { return true; }
      var s := ino;
      panic := false;
      if i >= DIRECT {
        panic, s := EnsurePath(ino, i);
        if panic { return; }
        if s >= |disk| { return true; }
      }
      disk := StoreWord(disk, s, PtrOfs(BlockAt(ino, i)), r.value);
    }

    /** One round of the loop in inode_extend. */
    method AddBlock(ino: nat, i: nat, ghost d0: Disk, ghost n: nat) returns (panic: bool)
      requires Growing(d0, disk, used, files, ino, n, i)
      modifies this`disk, this`used
      ensures panic <==> i >= MAX_BLOCKS || FreeCount(old(used)) < 1 + FirstUses(i)
      ensures !panic ==>
        && Growing(d0, disk, used, files, ino, n, i + 1) && SameTags(old(disk), disk, files)
        && FreeCount(used) == FreeCount(old(used)) - (1 + FirstUses(i))
    {
      if i >= MAX_BLOCKS { return true; }
      FilesUsed(disk, used, files);
      TreeApart(disk, used, files, ino, i);
      InstallTags(disk, used, ino, i, files);
      InstallInTree(disk, used, files, ino, i);
      MissingCount(disk, ino, i);
      panic := InstallSector(ino, i);
      if !panic {
        ExtendedByOne(d0, old(disk), disk, old(used), files, ino, n, i);
        OthersByOne(d0, old(disk), disk, old(used), files, ino, i);
      }
    }

    /** The loop of inode_extend. */
    method AddBlocks(ino: nat, n: nat, cnt: nat, ghost d0: Disk) returns (panic: bool)
      requires Growing(d0, disk, used, files, ino, n, n) && n <= MAX_BLOCKS
      modifies this`disk, this`used
      ensures panic <==> n + cnt > MAX_BLOCKS || FreeCount(old(used)) < Needed(n, n + cnt)
      ensures !panic ==> Growing(d0, disk, used, files, ino, n, n + cnt) && SameTags(old(disk), disk, files)
      ensures !panic ==> FreeCount(used) == FreeCount(old(used)) - Needed(n, n + cnt)
    {
      hide Growing, FreeCount, FirstUses, TypeOf, MagicOf;
      ghost var free, spent, total := FreeCount(used), 0, Needed(n, n + cnt);
      var i := n;
      while i < n + cnt
        invariant n <= i <= n + cnt && i <= MAX_BLOCKS
        invariant Growing(d0, disk, used, files, ino, n, i) && SameTags(old(disk), disk, files)
        invariant spent == Needed(n, i) && FreeCount(used) == free - spent
      {
        NeededMonotone(n, i + 1, n + cnt);
        spent := spent + 1 + FirstUses(i);
        assert spent == Needed(n, i + 1) <= total;
        panic := AddBlock(ino, i, d0, n);
        if panic { return; }
        i := i + 1;
      }
      panic := false;
    }

    /** inode_extend: `cnt` more blocks for file `ino`. */
    method Extend(ino: nat, cnt: nat) returns (panic: bool, ok: bool)
      requires Valid(disk, used, files) && ino in files && FileOk(disk, ino)
      requires ino < |disk| == |used| && Blocks(Length(disk, ino)) <= MAX_BLOCKS
      modifies this`disk, this`used
      ensures var n := Blocks(Length(old(disk), ino));
        && (panic <==> ExtendPanics(n, cnt, FreeCount(old(used))))
        && (!panic ==> (ok <==> FreeCount(old(used)) >= cnt))
        && (!panic ==> Growing(old(disk), disk, used, files, ino, n, if ok then n + cnt else n))
        && (!panic && !ok ==> SameFile(old(disk), disk, ino))
        && (!panic && ok && cnt > 0 ==> FreeCount(used) == FreeCount(old(used)) - 1 - Needed(n, n + cnt))
      ensures !ok && !panic ==> used == Leaked(old(used), cnt)
      ensures !panic ==> SameTags(old(disk), disk, files)
    {
      hide Valid, FileOk, Growing, SameFile, FreeCount, Leaked, Needed, Blocks, SameTags, AllUsed;
      ValidUsed(disk, used, files);
      var n := Blocks(Length(disk, ino));
      ok := CanAllocate(cnt);
      UsedTags(old(disk), disk, old(used), files);
      ReadyToGrow(old(disk), old(used), disk, files, ino, cnt);
      panic := false;
      if !ok { return; }
      ghost var d := disk;
      if cnt > 0 { LeakedCount(old(used), cnt); } else { NothingAsked(old(used), n); }
      panic := AddBlocks(ino, n, cnt, old(disk));
      if !panic { SameTagsTrans(old(disk), d, disk, files); }
    }

    /** inode_extend and, when it succeeds, inode_set_length: two of the branches of
        inode_extend_to_bytes. */
    method ExtendAndSet(ino: nat, length: nat) returns (panic: bool, ok: bool)
      requires Valid(disk, used, files) && ino in files && FileOk(disk, ino)
      requires ino < |disk| == |used| && var now := Length(disk, ino); Blocks(now) <= MAX_BLOCKS && now <= MAX_BYTES && (now == 0 || Blocks(now) < Target(length))
      modifies this`disk, this`used
      ensures Extending(old(disk), old(used), disk, used, files, ino, length, panic, ok)
      ensures !panic ==> SameTags(old(disk), disk, files)
    {
      hide TypeOf, MagicOf, Tree, Growing, OthersKeep, SameFile, SameOwn, FileOk, Content, StoreWord, FreeCount, Needed, Blocks;
      var now := Length(disk, ino);
      var n := Blocks(now);
      TargetFits(now, length);
      panic, ok := Extend(ino, Extra(n, length));
      if panic { return; }
      if !ok {
        NotGrown(old(disk), disk, used, files, ino, n);
        KeptOne(old(used), Extra(n, length));
        return;
      }
      LengthSet(old(disk), disk, used, files, ino, n + Extra(n, length), length);
      StoreTags(disk, ino, LENGTH_OFS, length, files);
      disk := StoreWord(disk, ino, LENGTH_OFS, length);
    }

    /** inode_extend_to_bytes. */
    method ExtendToBytes(ino: nat, length: nat) returns (panic: bool, ok: bool)
      requires Valid(disk, used, files) && ino in files
      modifies this`disk, this`used
      ensures Extending(old(disk), old(used), disk, used, files, ino, length, panic, ok)
      ensures !panic ==> SameTags(old(disk), disk, files)
    {
      assert FileOk(disk, ino);
      var now := Length(disk, ino);
      assert now <= MAX_BYTES && Blocks(now) <= MAX_BLOCKS;
      if now == 0 || Blocks(now) < Target(length) {
        panic, ok := ExtendAndSet(ino, length);
        return;
      }
      hide Extending, SameTags, StoreWord, Valid;
      if now < length {
        LengthOnly(disk, used, files, ino, length);
        disk := StoreWord(disk, ino, LENGTH_OFS, length);
      } else {
        NothingToDo(disk, used, files, ino, length);
      }
      return false, true;
    }

    /** The head of a transfer loop: the ASSERT of byte_to_sector and the size of the
        next chunk, 0 at the end of the file. */
    method NextChunk(length: nat, offset: nat, size: nat, done: nat) returns (panic: bool, n: nat)
      requires length <= MAX_BYTES && done <= InFile(length, offset, size) && done < size
      ensures panic ==> LoopPanics(length, offset, size)
      ensures !panic && n == 0 ==> done == InFile(length, offset, size) && !LoopPanics(length, offset, size)
      ensures !panic && n > 0 ==>
        && done + n <= InFile(length, offset, size) && offset + done + n <= length
        && (offset + done) % SECTOR_SIZE + n <= SECTOR_SIZE
    {
      if (offset + done) / SECTOR_SIZE >= MAX_BLOCKS { return true, 0; }
      var chunk := Chunk(length, offset + done, size - done);
      return false, if chunk <= 0 then 0 else chunk;
    }

    /** One round of the loop in inode_read_at. */
    method ReadChunk(ino: nat, pos: nat, n: nat) returns (b: seq<Byte>)
      requires Valid(disk, used, files) && ino in files && FileOk(disk, ino)
      requires 0 < n && pos + n <= Length(disk, ino) && pos % SECTOR_SIZE + n <= SECTOR_SIZE
      ensures b == Content(disk, ino)[pos..pos + n]
    {
      var i, ofs := pos / SECTOR_SIZE, pos % SECTOR_SIZE;
      ChunkRead(disk, used, files, ino, pos, i, ofs, n);
      var s := Ptr(disk, BlockAt(ino, i));
      b := disk[s][ofs..ofs + n];
    }

    /** The loop of inode_read_at. */
    method ReadInside(ino: nat, size: nat, offset: nat, length: nat) returns (panic: bool, data: seq<Byte>)
      requires Valid(disk, used, files) && ino in files && FileOk(disk, ino)
      requires ino < |disk| && length == Length(disk, ino) <= MAX_BYTES
      ensures panic <==> LoopPanics(length, offset, size)
      ensures !panic ==> |data| == InFile(length, offset, size)
      ensures data != [] ==> offset + |data| <= length && data == Content(disk, ino)[offset..offset + |data|]
    {
      hide *;
      data := [];
      ghost var c := Content(disk, ino);
      while |data| < size
        invariant |data| <= InFile(length, offset, size)
        invariant data != [] ==> data == c[offset..offset + |data|]
        decreases size - |data|
      {
        var n;
        panic, n := NextChunk(length, offset, size, |data|);
        if panic || n == 0 { return; }
        var b := ReadChunk(ino, offset + |data|, n);
        JoinedSlice(c, offset, |data|, n);
        data := data + b;
      }
      AllMoved(length, offset, size);
      panic := false;
    }

    /** inode_read_at: the bytes of the file from `offset` on, at most `size` of them
        and none beyond its end. */
    method ReadAt(ino: nat, size: nat, offset: nat) returns (panic: bool, data: seq<Byte>)
      requires Valid(disk, used, files) && ino in files
      ensures var c := Content(disk, ino);
        && (panic <==> size > 0 && offset + size > |c| && Max(offset, |c|) >= MAX_BYTES)
        && (!panic ==> data == c[Min(offset, |c|)..Min(offset + size, |c|)])
    {
      assert FileOk(disk, ino);
      panic, data := ReadInside(ino, size, offset, Length(disk, ino));
    }

    /** One round of the loop in inode_write_at. */
    method WriteChunk(ino: nat, buf: seq<Byte>, offset: nat, done: nat, n: nat, ghost d0: Disk)
      requires Writing(d0, disk, used, files, ino, offset, buf, done) && done + n <= |buf| && 0 < n
      requires offset + done + n <= Length(d0, ino) && (offset + done) % SECTOR_SIZE + n <= SECTOR_SIZE
      modifies this`disk
      ensures Writing(d0, disk, used, files, ino, offset, buf, done + n) && SameTags(old(disk), disk, files)
    {
      hide Writing, Ptr, Patched, Length, TypeOf, MagicOf;
      var i, ofs := (offset + done) / SECTOR_SIZE, (offset + done) % SECTOR_SIZE;
      WritingGives(d0, disk, used, files, ino, offset, buf, done);
      WritingNext(d0, disk, used, files, ino, offset, buf, done, n, i, ofs);
      ChunkTags(disk, used, files, ino, offset + done, i, ofs, buf[done..done + n]);
      disk := Patched(disk, Ptr(disk, BlockAt(ino, i)), ofs, buf[done..done + n]);
    }

    /** The loop of inode_write_at: overwrites what lies inside the file. */
    method WriteInside(ino: nat, buf: seq<Byte>, offset: nat) returns (panic: bool, done: nat)
      requires Writing(disk, disk, used, files, ino, offset, buf, 0)
      requires ino < |disk| && Length(disk, ino) <= MAX_BYTES
      modifies this`disk
      ensures panic <==> LoopPanics(Length(old(disk), ino), offset, |buf|)
      ensures !panic ==> done == InFile(Length(old(disk), ino), offset, |buf|)
      ensures Writing(old(disk), disk, used, files, ino, offset, buf, done) && SameTags(old(disk), disk, files)
    {
      hide Writing, TypeOf, MagicOf;
      done := 0;
      var length := Length(disk, ino);
      while done < |buf|
        invariant done <= InFile(length, offset, |buf|)
        invariant Writing(old(disk), disk, used, files, ino, offset, buf, done) && SameTags(old(disk), disk, files)
      {
        var n;
        panic, n := NextChunk(length, offset, |buf|, done);
        if panic || n == 0 { return; }
        WriteChunk(ino, buf, offset, done, n, old(disk));
        done := done + n;
      }
      AllMoved(length, offset, |buf|);
      panic := false;
    }

    /** inode_write_at after the extension. */
    method WriteExtended(ino: nat, buf: seq<Byte>, offset: nat) returns (panic: bool, written: nat)
      requires Valid(disk, used, files) && ino in files && FileOk(disk, ino)
      modifies this`disk
      ensures panic <==> LoopPanics(|Content(old(disk), ino)|, offset, |buf|)
      ensures !panic ==>
        && Valid(disk, used, files) && OthersKeep(old(disk), disk, files, ino) && FileOk(disk, ino)
        && SameOwn(old(disk), disk, ino) && SameTags(old(disk), disk, files)
        && written == InFile(|Content(old(disk), ino)|, offset, |buf|)
        && Content(disk, ino) == (if written == 0 then Content(old(disk), ino)
                                  else Overwritten(Content(old(disk), ino), offset, buf[..written]))
    {
      panic, written := WriteInside(ino, buf, offset);
      if !panic { WritingEnds(old(disk), disk, used, files, ino, offset, buf, written); }
    }

    /** The body of inode_write_at under the inode's lock. */
    method WriteFile(ino: nat, buf: seq<Byte>, offset: nat, deny: bool) returns (panic: bool, written: nat)
      requires Valid(disk, used, files) && ino in files && FileOk(disk, ino)
      requires ino < |disk| && Length(disk, ino) <= MAX_BYTES
      modifies this`disk, this`used
      ensures var c, free := Content(old(disk), ino), FreeCount(old(used));
        && (panic <==> WritePanics(|c|, free, |buf|, offset, deny))
        && (!panic ==>
          && Valid(disk, used, files) && OthersKeep(old(disk), disk, files, ino) && FileOk(disk, ino)
          && SameTags(old(disk), disk, files)
          && written == WriteCount(|c|, free, |buf|, offset, deny)
          && Content(disk, ino) == WriteContent(c, free, buf, offset, deny)
          && FreeCount(used) == free - Spends(|c|, free, offset + |buf|)
          && (Spends(|c|, free, offset + |buf|) == 0 ==> used == old(used) && SameOwn(old(disk), disk, ino)))
    {
      hide Valid, FileOk, OthersKeep, SameOwn, Content, WriteContent, WriteCount, WritePanics, LoopPanics, Padded,
           Overwritten, FreeCount, TypeOf, MagicOf, Spends, Extra, Blocks, ExtendPanics, InFile;
      NothingSpent(Length(disk, ino), FreeCount(used), offset + |buf|);
      WriteComposes(Content(disk, ino), FreeCount(used), buf, offset, deny);
      var ok;
      panic, ok := ExtendToBytes(ino, offset + |buf|);
      if panic || deny { return panic, 0; }
      ghost var d1 := disk;
      panic, written := WriteExtended(ino, buf, offset);
      if !panic {
        OthersKeepTrans(old(disk), d1, disk, files, ino);
        if SameOwn(old(disk), d1, ino) { SameOwnTrans(old(disk), d1, disk, ino); }
      }
    }

    /** inode_write_at.  The file is extended first, also when writing is denied; if the
        free map cannot satisfy can_allocate the write goes on inside the old length. */
    method WriteAt(ino: nat, buf: seq<Byte>, offset: nat, deny: bool) returns (panic: bool, written: nat)
      requires Valid(disk, used, files) && ino in files
      modifies this`disk, this`used
      ensures var c, free := Content(old(disk), ino), FreeCount(old(used));
        && (panic <==> WritePanics(|c|, free, |buf|, offset, deny))
        && (!panic ==>
          && Valid(disk, used, files) && OthersKeep(old(disk), disk, files, ino) && SameTags(old(disk), disk, files)
          && written == WriteCount(|c|, free, |buf|, offset, deny)
          && Content(disk, ino) == WriteContent(c, free, buf, offset, deny)
          && FreeCount(used) == free - Spends(|c|, free, offset + |buf|)
          && (Spends(|c|, free, offset + |buf|) == 0 ==> used == old(used) && SameOwn(old(disk), disk, ino)))
      ensures var c, grows := Content(old(disk), ino), Grows(|Content(old(disk), ino)|, FreeCount(old(used)), offset + |buf|);
        && (!panic && deny ==> written == 0)
        && (!panic && !deny && grows ==> written == |buf|)
        && (!panic && !deny && !grows ==> written == Min(|buf|, |c| - Min(offset, |c|)))
    {
      assert FileOk(disk, ino);
      hide Valid, FileOk, OthersKeep, SameOwn, SameTags, Content, WriteContent, WriteCount, WritePanics, FreeCount, Spends, Grows;
      WriteExactly(Content(disk, ino), FreeCount(used), buf, offset, deny);
      panic, written := WriteFile(ino, buf, offset, deny);
    }

    // ---------- inode_create ----------

    /** The rounds of inode_extend_start for direct blocks. */
    method LayDirect(sector: nat, cnt: nat, ghost d0: Disk, ghost u0: seq<bool>, ghost length: nat) returns (panic: bool)
      requires cnt <= DIRECT && Laid(d0, u0, disk, used, sector, length, 0) && AllUsed(used, files + {sector})
      modifies this`disk, this`used
      ensures panic <==> FreeCount(old(used)) < cnt
      ensures !panic ==> Laid(d0, u0, disk, used, sector, length, cnt) && FreeCount(used) == FreeCount(old(used)) - cnt
      ensures cnt == 0 ==> disk == old(disk) && used == old(used)
      ensures !panic ==> SameTags(old(disk), disk, files + {sector}) && AllUsed(used, files + {sector})
    {
      hide Laid, FreeCount, StoreWord, Zeros, FirstFree, SameTags, AllUsed;
      SameTagsSelf(disk, files + {sector});
      var i := 0;
      while i < cnt
        invariant 0 <= i <= cnt && Laid(d0, u0, disk, used, sector, length, i)
        invariant FreeCount(used) == FreeCount(old(used)) - i
        invariant i == 0 ==> disk == old(disk) && used == old(used)
        invariant SameTags(old(disk), disk, files + {sector}) && AllUsed(used, files + {sector})
      {
        ghost var d, u := disk, used;
        LaidBounds(d0, u0, d, u, sector, length, i);
        InstallTags(d, u, sector, i, files + {sector});
        FreeExists(used);
        panic := InstallSector(sector, i);
        if panic { return; }
        FreeCountMark(u, FirstFree(u), true);
        LaidNext(d0, u0, d, u, sector, length, i);
        SameTagsTrans(old(disk), d, disk, files + {sector});
        i := i + 1;
      }
      panic := false;
    }

    /** The rounds of inode_extend_start for all other blocks, in a sector that leads to the
        index sectors of an old file of `m` blocks. */
    method LayBeyond(sector: nat, sectors: nat, ghost d0: Disk, ghost u0: seq<bool>, ghost m: nat, ghost length: nat) returns (panic: bool)
      requires Laid(d0, u0, disk, used, sector, length, DIRECT) && Valid(d0, u0, files) && Bones(d0, u0, files, sector, m)
      requires sectors == Blocks(length) > DIRECT && AllUsed(used, files + {sector})
      modifies this`disk, this`used
      ensures panic <==> sectors > MAX_BLOCKS || FreeCount(old(used)) + DIRECT < Regrow(m, sectors)
      ensures !panic ==>
        && FreeCount(used) == FreeCount(old(used)) + DIRECT - Regrow(m, sectors)
        && Created(d0, u0, disk, used, files, sector, length) && SameTags(old(disk), disk, files + {sector})
    {
      hide Laid, Valid, Bones, Rebuilding, Created, FreeCount, Install, BlockCost, Shade, Blocks, SameTags, AllUsed;
      SameTagsSelf(disk, files + {sector});
      RebuildStart(d0, u0, disk, used, files, sector, m, length);
      RegrowDirect(m, DIRECT);
      ghost var e, free, spent := Shade(d0, disk, sector), FreeCount(used) + DIRECT, DIRECT;
      ghost var total := Regrow(m, sectors);
      hide Regrow;
      var i := DIRECT;
      while i < sectors
        invariant DIRECT <= i <= sectors && i <= MAX_BLOCKS
        invariant Rebuilding(d0, u0, disk, e, used, files, sector, m, length, i)
        invariant spent == Regrow(m, i) && FreeCount(used) == free - spent
        invariant SameTags(old(disk), disk, files + {sector}) && AllUsed(used, files + {sector})
      {
        RegrowMonotone(m, i, sectors);
        if i >= MAX_BLOCKS { return true; }
        RegrowStep(m, i);
        RegrowMonotone(m, i + 1, sectors);
        RebuildingGives(d0, u0, disk, e, used, files, sector, m, length, i);
        RebuildNext(d0, u0, disk, e, used, files, sector, m, length, i);
        RebuildTags(d0, u0, disk, e, used, files, sector, m, length, i);
        ghost var d := disk;
        ghost var x := Install(e, used, sector, i);
        panic := InstallSector(sector, i);
        if panic { return; }
        SameTagsTrans(old(disk), d, disk, files + {sector});
        e := x.value.disk;
        spent := spent + BlockCost(m, i);
        i := i + 1;
      }
      panic := false;
      RebuildEnds(d0, u0, disk, e, used, files, sector, m, length);
    }

    /** inode_extend_start for the new inode. */
    method ExtendStart(sector: nat, sectors: nat, ghost d0: Disk, ghost u0: seq<bool>, ghost m: nat, ghost length: nat) returns (panic: bool)
      requires Laid(d0, u0, disk, used, sector, length, 0) && Valid(d0, u0, files) && Reserved(d0, u0, files, sector)
      requires sectors == Blocks(length) && (sectors <= DIRECT || Bones(d0, u0, files, sector, m))
      requires (sectors == 0 ==> used == u0) && AllUsed(used, files + {sector})
      modifies this`disk, this`used
      ensures panic <==> sectors > MAX_BLOCKS || FreeCount(old(used)) < Regrow(m, sectors)
      ensures sectors == 0 ==> used == old(used)
      ensures !panic ==>
        && FreeCount(used) == FreeCount(old(used)) - Regrow(m, sectors)
        && Created(d0, u0, disk, used, files, sector, length) && SameTags(old(disk), disk, files + {sector})
    {
      hide Laid, Valid, Reserved, Bones, Created, FreeCount, Regrow, Blocks, SameTags, AllUsed;
      if sectors <= DIRECT {
        RegrowDirect(m, sectors);
        panic := LayDirect(sector, sectors, d0, u0, length);
        if panic { return; }
        CreatedExactly(d0, u0, disk, used, files, sector, length);
      } else {
        RegrowDirect(m, DIRECT);
        RegrowMonotone(m, DIRECT, sectors);
        panic := LayDirect(sector, DIRECT, d0, u0, length);
        if panic { return; }
        ghost var d := disk;
        panic := LayBeyond(sector, sectors, d0, u0, m, length);
        if !panic { SameTagsTrans(old(disk), d, disk, files + {sector}); }
      }
    }

    /** inode_create_wild: `length` zero bytes in a new file at `sector`.  Nothing here clears
        the pointer words that the sector held before: the inode is well formed exactly when
        the old pointers that are not set anew are zero, and the file is one of its own exactly
        when moreover an old first pointer, if it stays, leads to no sector in other use.  No
        other file changes.  Beyond twelve blocks index sectors that the old words lead to, as
        many as a file of `m` blocks has, are used again. */
    method Create(sector: nat, length: nat, isDir: bool, ghost m: nat) returns (panic: bool, ok: bool)
      requires Valid(disk, used, files) && Reserved(disk, used, files, sector) && length < 0x8000_0000
      requires Blocks(length) <= DIRECT || Bones(disk, used, files, sector, m)
      modifies this`disk, this`used, this`files
      ensures panic <==> CreatePanics(m, Blocks(length), FreeCount(old(used)))
      ensures !panic ==> (ok <==> FreeCount(old(used)) >= Blocks(length))
      ensures !panic && !ok ==>
        && files == old(files) && Valid(disk, used, files) && OthersKeep(old(disk), disk, files, sector)
      ensures !panic ==> SameTags(old(disk), disk, old(files))
      ensures !panic && ok ==>
        && sector < |disk| && TypeOf(disk, sector) == (if isDir then 1 else 0) && MagicOf(disk, sector) == 0x494e4f44
        && Created(old(disk), old(used), disk, used, old(files), sector, length) && sector < |old(disk)|
        && files == (if Fits(old(disk), old(used), old(files), sector, Blocks(length)) then old(files) + {sector} else old(files))
        && FreeCount(used) == FreeCount(old(used)) - (if length > 0 then 1 + Regrow(m, Blocks(length)) else 0)
        && (length == 0 ==> used == old(used))
    {
      assert |used| == |disk| && sector < |disk| < WORD && used[0] && used[sector];
      hide Valid, Reserved, Fits, Bones, Laid, Created, OthersKeep, FreeCount, Regrow, Leaked, SameTags, AllUsed, TypeOf, MagicOf;
      ValidUsed(disk, used, files);
      var n := Blocks(length);
      ok := CanAllocate(n);
      UsedTags(old(disk), disk, old(used), files);
      LeakedStill(old(used), n);
      panic := false;
      if !ok {
        CreateFails(old(disk), old(used), disk, used, files, sector);
        return;
      }
      HeaderLaid(old(disk), old(used), disk, used, sector, length, if isDir then 1 else 0, INODE_MAGIC);
      HeaderTags(disk, sector, length, if isDir then 1 else 0, INODE_MAGIC, files);
      ghost var d := disk;
      disk := Header(disk, sector, length, if isDir then 1 else 0, INODE_MAGIC);
      ghost var h := disk;
      StillAllUsed(old(used), used, files, sector);
      NothingAsked(old(used), 0);
      if n > 0 { LeakedCount(old(used), n); } else { RegrowDirect(m, 0); }
      panic := ExtendStart(sector, n, old(disk), old(used), m, length);
      if !panic { HeaderStays(old(disk), d, h, disk, files, sector); }
      if !panic && Fits(old(disk), old(used), files, sector, n) { files := files + {sector}; }
    }

    // ---------- inode_close ----------

    /** free_map_release of one sector; its ASSERT fails when the sector is not in use. */
    method Release(s: nat) returns (panic: bool)
      modifies this`used
      ensures panic <==> s >= |old(used)| || !old(used)[s]
      ensures used == if panic then old(used) else old(used)[s := false]
    {
      if s >= |used| || !used[s] {
        return true;
      }
      used := used[s := false];
      panic := false;
    }

    /** clear_data: releases the blocks below a pointer up to the first one that is not there,
        but no index sector. */
    method ClearData(sector: nat, level: nat, ghost p: Place, ghost base: seq<bool>) returns (panic: bool, hole: bool)
      requires PlaceOk(p) && !p.InodeAt? && sector == Ptr(disk, p) && level == Level(p) && FileOk(disk, p.ino)
      requires Tree(disk, base, files) && p.ino in files
      requires p.ino < |disk| && Freeing(disk, base, files, used, p.ino, Upto(disk, p.ino, First(p)))
      modifies this`used
      ensures !panic && (hole <==> Installed(disk, p.ino) < First(p) + Span(p))
      ensures Freeing(disk, base, files, used, p.ino, Upto(disk, p.ino, First(p) + Span(p)))
      decreases level, 2
    {
      hide *;
      LevelCases(p);
      InstalledPrefix(disk, p.ino, p);
      UptoNext(disk, p.ino, First(p));
      UptoNext(disk, p.ino, First(p) + Span(p));
      if sector == 0 {
        return false, true;
      }
      if level == 1 {
        FreeNext(disk, base, files, used, p.ino, First(p));
        panic := Release(sector);
        return panic, false;
      }
      panic, hole := ClearIndex(sector, level, p, base);
    }

    /** One round of the loop of clear_data over the words of an index sector. */
    method ClearWord(sector: nat, level: nat, j: nat, ghost p: Place, ghost base: seq<bool>) returns (panic: bool, hole: bool)
      requires PlaceOk(p) && !p.InodeAt? && IsIndex(p) && sector == Ptr(disk, p) != 0 && 2 <= level == Level(p) && FileOk(disk, p.ino)
      requires j < INDIRECT && p.ino < |disk| && Reach(p, j) <= Installed(disk, p.ino)
      requires Tree(disk, base, files) && p.ino in files && Freeing(disk, base, files, used, p.ino, Reach(p, j))
      modifies this`used
      ensures !panic && (hole <==> Installed(disk, p.ino) < Reach(p, j + 1))
      ensures Freeing(disk, base, files, used, p.ino, Upto(disk, p.ino, Reach(p, j + 1)))
      decreases level, 0
    {
      hide *;
      ReachChild(p, j);
      ChildWord(disk, base, files, p, j);
      UptoNext(disk, p.ino, Reach(p, j));
      var below := Word(disk[sector], 4 * j);
      panic, hole := ClearData(below, level - 1, Child(p, j), base);
    }

    /** That loop. */
    method ClearIndex(sector: nat, level: nat, ghost p: Place, ghost base: seq<bool>) returns (panic: bool, hole: bool)
      requires PlaceOk(p) && !p.InodeAt? && IsIndex(p) && sector == Ptr(disk, p) != 0 && 2 <= level == Level(p) && FileOk(disk, p.ino)
      requires p.ino < |disk| && First(p) < Installed(disk, p.ino)
      requires Tree(disk, base, files) && p.ino in files && Freeing(disk, base, files, used, p.ino, First(p))
      modifies this`used
      ensures !panic && (hole <==> Installed(disk, p.ino) < First(p) + Span(p))
      ensures Freeing(disk, base, files, used, p.ino, Upto(disk, p.ino, First(p) + Span(p)))
      decreases level, 1
    {
      hide *;
      var j := 0;
      ReachGrows(p, j);
      UptoNext(disk, p.ino, First(p) + Span(p));
      while j < INDIRECT
        invariant 0 <= j <= INDIRECT && Reach(p, j) <= Installed(disk, p.ino)
        invariant Freeing(disk, base, files, used, p.ino, Reach(p, j))
      {
        ReachGrows(p, j + 1);
        UptoNext(disk, p.ino, Reach(p, j + 1));
        panic, hole := ClearWord(sector, level, j, p, base);
        if hole {
          return;
        }
        j := j + 1;
      }
      ReachGrows(p, j);
      return false, false;
    }

    /** The loop over the direct pointers in inode_close. */
    method ClearDirect(ino: nat, ghost base: seq<bool>) returns (panic: bool)
      requires FileOk(disk, ino) && ino < |disk| && Freeing(disk, base, files, used, ino, 0)
      modifies this`used
      ensures !panic && Freeing(disk, base, files, used, ino, Upto(disk, ino, DIRECT))
    {
      hide Freeing, FileOk, Installed, Ptr;
      OwnPtrs(disk, ino);
      var i := 0;
      while i < DIRECT
        invariant 0 <= i <= DIRECT && i <= Installed(disk, ino) && Freeing(disk, base, files, used, ino, i)
      {
        var s := Word(disk[ino], DIRECT_OFS + 4 * i);
        assert s == DirectWord(disk[ino], i);
        InstalledPrefix(disk, ino, BlockAt(ino, i));
        if s == 0 { break; }
        FreeNext(disk, base, files, used, ino, i);
        panic := Release(s);
        assert !panic;
        i := i + 1;
      }
      panic := false;
    }

    /** The releases of inode_close: the inode sector, the direct blocks, and what clear_data
        finds below the two indirect pointers. */
    method ReleaseFile(ino: nat) returns (panic: bool)
      requires Tree(disk, used, files) && ino in files && FileOk(disk, ino) && ino < |disk|
      modifies this`used
      ensures !panic && Freeing(disk, old(used), files, used, ino, Installed(disk, ino))
    {
      hide FileOk, Installed, Tree, Freeing, Ptr;
      ghost var base := used;
      OwnPtrs(disk, ino);
      FreeInode(disk, used, files, ino);
      panic := Release(ino);
      assert !panic;
      panic := ClearDirect(ino, base);
      var hole;
      panic, hole := ClearData(Word(disk[ino], SINGLE_OFS), 2, SingleAt(ino), base);
      panic, hole := ClearData(Word(disk[ino], DOUBLE_OFS), 3, DoubleAt(ino), base);
      AllInstalled(disk, ino);
    }

    /** inode_close by the last opener of a removed file: its inode sector and all its blocks are
        released, each once; its index sectors are not, and no other file changes.  Sector 0 is
        the free map's own inode, which is never removed. */
    method CloseRemoved(ino: nat) returns (panic: bool)
      requires Valid(disk, used, files) && ino in files && ino != 0 && FileOk(disk, ino)
      modifies this`used, this`files
      ensures !panic && files == old(files) - {ino} && Valid(disk, used, files)
      ensures Cleared(old(used), SectorsOf(disk, ino, Installed(disk, ino)), used)
    {
      panic := ReleaseFile(ino);
      OthersStay(disk, old(used), files, used, ino);
      files := files - {ino};
    }
  }

  // ---------- Create, remove, create ----------

  /** A sector of zeros leads nowhere. */
  lemma ZeroSector(d: Disk, used: seq<bool>, s: nat, n: nat)
    requires 2 < |d| == |used| < WORD && s == 2 && used[0] && used[s] && d[s] == Zeros()
    ensures Valid(d, used, {}) && Reserved(d, used, {}, s) && Bones(d, used, {}, s, 0) && Fits(d, used, {}, s, n)
    ensures Ptr(d, BlockAt(s, 0)) == 0
  {
    ZeroPtrs(d, s);
    ZeroWords(d[s]);
    hide Ptr, Word, Zeros;
  }

  lemma ZeroWords(x: Data)
    requires x == Zeros()
    ensures forall ofs: nat :: ofs + 4 <= SECTOR_SIZE ==> Word(x, ofs) == 0
  {
    forall ofs: nat | ofs + 4 <= SECTOR_SIZE ensures Word(x, ofs) == 0 {
      WordOfZeros(ofs);
    }
  }

  lemma ZeroPtrs(d: Disk, s: nat)
    requires s < |d| && d[s] == Zeros()
    ensures forall p :: PlaceOk(p) && p.ino == s && !p.InodeAt? ==> Ptr(d, p) == 0
    ensures Ptr(d, InodeAt(s)) == s
  {
    ZeroWords(d[s]);
    OwnPtrs(d, s);
    hide Word;
  }

  lemma CreatedInstalled(d0: Disk, u0: seq<bool>, d: Disk, u: seq<bool>, s: nat, length: nat)
    requires Created(d0, u0, d, u, {}, s, length) && FileOk(d, s) && Ptr(d0, BlockAt(s, 0)) == 0
    ensures s < |d| && Installed(d, s) == Blocks(length)
  {
    InstalledPrefix(d, s, BlockAt(s, 0));
    assert BlocksOk(d, s, Blocks(length));
  }

  /** After the removal the inode sector is the lowest free one, and the blocks are free. */
  lemma LowestAgain(u0: seq<bool>, d: Disk, base: seq<bool>, used: seq<bool>, s: nat, n: nat)
    requires s == 2 && n <= MAX_BLOCKS && Cleared(base, SectorsOf(d, s, n), used) && StillUsed(u0, base) && FromFree(u0, d, s, n)
    requires 2 < |u0| && u0[0] && u0[1]
    ensures s < |used| && FirstFree(used) == s && FreeCount(used) == FreeCount(base) + 1 + n
    ensures forall i :: 0 <= i < n ==> Ptr(d, BlockAt(s, i)) < |used| && !used[Ptr(d, BlockAt(s, i))]
  {
    hide FreeCount;
    var freed := SectorsOf(d, s, n);
    assert freed[0] == s && |freed| == n + 1;
    forall i | 0 <= i < n ensures freed[i + 1] == Ptr(d, BlockAt(s, i)) && freed[i + 1] != 0 && freed[i + 1] != 1 {
    }
    assert 0 !in freed && 1 !in freed;
    assert used[0] && used[1] && !used[s];
  }

  lemma {:induction false} RegrowAtMost(m: nat, n: nat)
    ensures n <= Regrow(m, n) <= Needed(0, n)
  {
    if n > 0 { RegrowAtMost(m, n - 1); }
  }

  /** A file of `first` bytes alone on a disk of zeros. */
  method CreateFirst(sectors: nat, first: nat) returns (fs: FileSystem, s: nat, ghost d0: Disk, ghost u0: seq<bool>)
    requires sectors < WORD && first <= MAX_BYTES && sectors >= 6 + Needed(0, Blocks(first))
    ensures fresh(fs) && s == 2 < |fs.disk| && FileOk(fs.disk, s) && fs.files == {s} && Valid(fs.disk, fs.used, fs.files)
    ensures |u0| == |fs.used| && 2 < |u0| && u0[0] && u0[1] && u0[2] && StillUsed(u0, fs.used) && FromFree(u0, fs.disk, s, Blocks(first))
    ensures Installed(fs.disk, s) == Blocks(first) <= MAX_BLOCKS
    ensures FreeCount(fs.used) == sectors - 3 - (if first > 0 then 1 + Needed(0, Blocks(first)) else 0)
  {
    hide Valid, Reserved, Bones, Fits, OldFits, FileOk, OthersKeep, FreeCount, Needed, Regrow, Blocks, Installed, FromFree, StillUsed, Ptr,
         Created, CreatePanics, SameTags, TypeOf, MagicOf, Zeros;
    FirstFits(first, sectors - 3);
    fs, s := FreshDisk(sectors);
    d0, u0 := fs.disk, fs.used;
    ZeroSector(d0, u0, s, Blocks(first));
    var panic, ok := fs.Create(s, first, false, 0);
    assert {} + {s} == {s};
    FirstCreated(d0, u0, fs.disk, fs.used, s, first);
  }

  lemma FirstFits(length: nat, free: nat)
    requires length <= MAX_BYTES && free >= 3 + Needed(0, Blocks(length))
    ensures Blocks(length) <= MAX_BLOCKS && Blocks(length) <= free && !CreatePanics(0, Blocks(length), free)
    ensures Regrow(0, Blocks(length)) == Needed(0, Blocks(length))
  {
    assert Blocks(length) <= MAX_BLOCKS;
    hide Blocks, Needed, Regrow;
    NeededCovers(0, Blocks(length));
    RegrowFresh(0, Blocks(length));
  }

  /** A disk of zeros on which one more sector has been taken. */
  method FreshDisk(sectors: nat) returns (fs: FileSystem, s: nat)
    requires 6 <= sectors < WORD
    ensures fresh(fs) && s == 2 && fs.files == {} && |fs.disk| == |fs.used| == sectors && fs.disk[s] == Zeros()
    ensures fs.used[0] && fs.used[1] && fs.used[2] && FreeCount(fs.used) == sectors - 3
  {
    hide Zeros;
    fs := new FileSystem(seq(sectors, _ => Zeros()));
    assert fs.used[0] && fs.used[1] && !fs.used[2];
    var r := fs.Allocate();
    s := r.value;
  }

  lemma FirstCreated(d0: Disk, u0: seq<bool>, d: Disk, u: seq<bool>, s: nat, length: nat)
    requires Created(d0, u0, d, u, {}, s, length) && s < |d0| && Fits(d0, u0, {}, s, Blocks(length)) && Ptr(d0, BlockAt(s, 0)) == 0
    ensures s < |d| && FileOk(d, s) && Installed(d, s) == Blocks(length) && StillUsed(u0, u) && FromFree(u0, d, s, Blocks(length))
    ensures Valid(d, u, {s})
  {
    FitsOk(d0, u0, {}, s, Blocks(length));
    assert {} + {s} == {s};
    CreatedInstalled(d0, u0, d, u, s, length);
  }

  lemma FitsOk(d: Disk, u: seq<bool>, files: set<nat>, s: nat, n: nat)
    requires s < |d| && Fits(d, u, files, s, n)
    ensures OldFits(d, s, n)
  {
  }

  lemma BonesReserved(d: Disk, u: seq<bool>, files: set<nat>, s: nat, m: nat)
    requires Bones(d, u, files, s, m)
    ensures Reserved(d, u, files, s) && s < |d| == |u|
  {
  }

  lemma MarkedValid(d: Disk, used: seq<bool>, s: nat)
    requires Valid(d, used, {}) && s < |used|
    ensures Valid(d, used[s := true], {})
  {
  }

  /** Removing the only file, of `m` blocks, and asking the free map for a sector. */
  method RemoveAndAllocate(fs: FileSystem, s: nat, ghost u0: seq<bool>, ghost m: nat, ghost n: nat) returns (t: nat)
    requires s == 2 < |fs.disk| && FileOk(fs.disk, s) && fs.files == {s} && Valid(fs.disk, fs.used, fs.files) && Installed(fs.disk, s) == m
    requires |u0| == |fs.used| && 2 < |u0| && u0[0] && u0[1] && u0[2] && StillUsed(u0, fs.used) && m <= MAX_BLOCKS && FromFree(u0, fs.disk, s, m)
    modifies fs
    ensures t == s < |fs.used| == |fs.disk| && fs.disk == old(fs.disk) && fs.files == {} && Valid(fs.disk, fs.used, {})
    ensures Reserved(fs.disk, fs.used, {}, s) && Bones(fs.disk, fs.used, {}, s, m)
    ensures Fits(fs.disk, fs.used, {}, s, n) <==> m <= n
    ensures OldFits(fs.disk, s, n) <==> m <= Max(1, n)
    ensures FreeCount(fs.used) == FreeCount(old(fs.used)) + m
    ensures m >= 2 ==> var w := Ptr(fs.disk, BlockAt(s, 1)); 0 < w < |fs.used| && !fs.used[w]
  {
    hide Valid, Reserved, Bones, Fits, OldFits, FileOk, FreeCount, FirstFree, Installed, StillUsed, Cleared, SectorsOf, Ptr;
    ghost var d, u1 := fs.disk, fs.used;
    var panic := fs.CloseRemoved(s);
    ghost var u2 := fs.used;
    assert {s} - {s} == {};
    LowestAgain(u0, d, u1, u2, s, m);
    RemovedBones(d, u1, {s}, u2, s);
    RecreateExact(d, u1, {s}, u2, s, n);
    RemovedFits(d, s, n);
    BonesReserved(d, u2[s := true], {}, s, m);
    MarkedValid(d, u2, s);
    FreeExists(u2);
    if m >= 2 { FreshApart(u0, d, u1, s, m); }
    var r := fs.Allocate();
    t := r.value;
  }

  lemma FreshApart(u0: seq<bool>, d: Disk, used: seq<bool>, s: nat, m: nat)
    requires 2 <= m <= MAX_BLOCKS && FromFree(u0, d, s, m) && |u0| == |used|
    ensures 0 < Ptr(d, BlockAt(s, 1)) < |u0| && !u0[Ptr(d, BlockAt(s, 1))]
  {
  }

  /** Creating a file of `first` bytes on an empty disk, removing it and creating one of `second`
      bytes: the free map hands out the same inode sector.  The new inode is well formed if and
      only if the old file had no more blocks, or just one, and the new file is one of its own if
      and only if it had no more; `free` is what the removal has left free. */
  method CreateRemoveCreate(sectors: nat, first: nat, second: nat) returns (fs: FileSystem, s: nat, ghost free: nat)
    requires sectors < WORD && first <= MAX_BYTES && second <= MAX_BYTES
    requires sectors >= 6 + Needed(0, Blocks(first)) + Needed(0, Blocks(second)) && second < 0x8000_0000
    ensures s < |fs.disk| == |fs.used| && Length(fs.disk, s) == second
    ensures FileOk(fs.disk, s) <==> Blocks(first) <= Max(1, Blocks(second))
    ensures Valid(fs.disk, fs.used, {s}) <==> Blocks(first) <= Blocks(second)
    ensures free == sectors - 3 - (if first > 0 then 1 + IndexSectors(Blocks(first)) else 0)
    ensures second == 0 && Blocks(first) >= 2 ==> var w := Ptr(fs.disk, BlockAt(s, 1)); 0 < w < |fs.disk| && !fs.used[w]
  {
    ghost var d0, u0;
    fs, s, d0, u0 := CreateFirst(sectors, first);
    ghost var d1, m, n := fs.disk, Blocks(first), Blocks(second);
    NeededIsIndex(m);
    assert n <= MAX_BLOCKS && (first > 0 <==> m > 0) && (m == 0 ==> IndexSectors(m) == 0);
    hide Valid, Reserved, Bones, Fits, OldFits, FileOk, FreeCount, Needed, Regrow, Blocks, Installed, FromFree, StillUsed, Ptr,
         IndexSectors, Created, CreatePanics, Length;
    s := RemoveAndAllocate(fs, s, u0, m, n);
    free := FreeCount(fs.used);
    RoomEnough(m, n, free);
    ghost var u1 := fs.used;
    var panic, ok := fs.Create(s, second, false, m);
    CreatedGives(d1, u1, fs.disk, fs.used, s, second);
  }

  lemma RoomEnough(m: nat, n: nat, free: nat)
    requires n <= MAX_BLOCKS && free >= 1 + Needed(0, n)
    ensures free >= n && !CreatePanics(m, n, free)
  {
    RegrowAtMost(m, n);
  }

  lemma CreatedGives(d0: Disk, u0: seq<bool>, d: Disk, u: seq<bool>, s: nat, length: nat)
    requires Created(d0, u0, d, u, {}, s, length) && s < |d0|
    ensures s < |d| == |d0| && Length(d, s) == length && |u| == |u0|
    ensures FileOk(d, s) <==> OldFits(d0, s, Blocks(length))
    ensures Valid(d, u, {s}) <==> Fits(d0, u0, {}, s, Blocks(length))
    ensures length == 0 ==> Ptr(d, BlockAt(s, 1)) == Ptr(d0, BlockAt(s, 1))
  {
    assert {} + {s} == {s};
    assert length == 0 ==> Blocks(length) == 0;
  }

  /** Thirteen blocks after thirteen are a file again, with the same index sector; thirteen after
      twenty are not one.  With the inode sector marked again, removing the twenty has left 59 of
      the 61 other sectors free: their index sector is lost, and the one can_allocate keeps. */
  method ThirteenBlocks() returns (good: FileSystem, bad: FileSystem, s: nat, t: nat, ghost free: nat)
    ensures s < |good.disk| && FileOk(good.disk, s) && Valid(good.disk, good.used, {s})
    ensures t < |bad.disk| && !FileOk(bad.disk, t)
    ensures free == 59
  {
    NeededIsIndex(13);
    NeededIsIndex(20);
    hide FileOk, Valid, Needed;
    good, s, free := CreateRemoveCreate(64, 13 * SECTOR_SIZE, 13 * SECTOR_SIZE);
    bad, t, free := CreateRemoveCreate(64, 20 * SECTOR_SIZE, 13 * SECTOR_SIZE);
  }
}
