/** What growing and writing a file does to its bytes and to those of all others. */
module InodeGrowth {
  import opened Arithmetic
  import opened Storage
  import opened InodeLayout
  import opened InodeTree
  import opened InodeFile
  import opened FreeMap

  // ---------- Specifications ----------

  /** `c` followed by zeros up to length `n`, or `c` itself when it is long enough. */
  function Padded(c: seq<Byte>, n: nat): (r: seq<Byte>)
    ensures |r| == if n <= |c| then |c| else n
  {
    if n <= |c| then c else c + seq(n - |c|, _ => 0)
  }

  function Overwritten(c: seq<Byte>, ofs: nat, b: seq<Byte>): (r: seq<Byte>)
    requires ofs + |b| <= |c|
    ensures |r| == |c|
  {
    c[..ofs] + b + c[ofs + |b|..]
  }

  /** The index sectors that block `i` is the first to need. */
  function FirstUses(i: nat): nat {
    (if i == DIRECT then 1 else 0) +
    (if i == DIRECT + INDIRECT then 1 else 0) +
    (if i >= DIRECT + INDIRECT && (i - DIRECT) % INDIRECT == 0 then 1 else 0)
  }

  /** The data and index sectors it takes to grow a file from `n` to `m` blocks. */
  function Needed(n: nat, m: nat): nat
    decreases m
  {
    if m <= n then 0 else Needed(n, m - 1) + 1 + FirstUses(m - 1)
  }

  // ---------- SameFile ----------

  /** Sectors in use keep their contents, so every file is the same. */
  lemma UsedKept(disk: Disk, used: seq<bool>, disk': Disk, used': seq<bool>, files: set<nat>)
    requires Tree(disk, used, files) && |disk'| == |disk| && StillUsed(used, used')
    requires forall s :: 0 <= s < |disk| && used[s] ==> disk'[s] == disk[s]
    ensures Tree(disk', used', files)
    ensures forall f :: f in files ==> SameFile(disk, disk', f)
  {
    forall q | Live(disk, files, q) && !q.BlockAt? ensures KeepsSector(disk, disk', q, Ptr(disk, q)) {
    }
    KeptTree(disk, disk', used, files);
    assert forall p :: Live(disk', files, p) <==> Live(disk, files, p);
    forall f | f in files ensures SameFile(disk, disk', f) {
      assert Live(disk, files, InodeAt(f));
      forall i, o | 0 <= i < MAX_BLOCKS && 0 <= o < SECTOR_SIZE && Ptr(disk, BlockAt(f, i)) != 0
        ensures BlockByte(disk', f, i, o) == BlockByte(disk, f, i, o)
      {
        assert Live(disk, files, BlockAt(f, i));
      }
    }
  }

  // ---------- Adding blocks ----------

  /** Every other file is as before. */
  ghost predicate OthersSame(d0: Disk, d: Disk, files: set<nat>, ino: nat) {
    forall f :: f in files && f != ino ==> SameFile(d0, d, f)
  }

  /** File `ino` has grown from `n` to `m` blocks; the new ones are all zero and its
      old bytes are as before. */
  ghost predicate Extended(d0: Disk, d: Disk, ino: nat, n: nat, m: nat) {
    && ino < |d0| && |d| == |d0| && n <= m
    && Length(d, ino) == Length(d0, ino)
    && BlocksOk(d, ino, m)
    && (forall i, o :: 0 <= i < n && 0 <= o < SECTOR_SIZE ==> BlockByte(d, ino, i, o) == BlockByte(d0, ino, i, o))
    && (forall i :: n <= i < m ==> ZeroBlock(d, ino, i))
  }

  ghost predicate ZeroBlock(d: Disk, ino: nat, i: nat)
    requires i < MAX_BLOCKS
  {
    forall o :: 0 <= o < SECTOR_SIZE ==> BlockByte(d, ino, i, o) == 0
  }


  lemma IndexGrows(d1: Disk, d2: Disk, files: set<nat>, ino: nat, n: nat, k: nat)
    requires ino in files && n < MAX_BLOCKS && BlocksOk(d1, ino, n) && Grown(d1, d2, files, Missing(d1, ino, n))
    requires k < INDIRECT
    ensures Ptr(d2, IndexAt(ino, k)) != 0 <==> n + 1 > DIRECT + INDIRECT * (1 + k)
  {
    var added := Missing(d1, ino, n);
    assert Ptr(d1, IndexAt(ino, k)) != 0 <==> n > DIRECT + INDIRECT * (1 + k);
    assert IndexAt(ino, k) in added <==>
      n >= DIRECT + INDIRECT && k == (n - DIRECT - INDIRECT) / INDIRECT && Ptr(d1, IndexAt(ino, k)) == 0;
  }

  lemma BlocksGrow(d1: Disk, d2: Disk, files: set<nat>, ino: nat, n: nat)
    requires ino in files && n < MAX_BLOCKS && BlocksOk(d1, ino, n) && Grown(d1, d2, files, Missing(d1, ino, n))
    ensures BlocksOk(d2, ino, n + 1)
  {
    MissingIsOwn(d1, ino, n);
    forall k | 0 <= k < INDIRECT
      ensures Ptr(d2, IndexAt(ino, k)) != 0 <==> n + 1 > DIRECT + INDIRECT * (1 + k)
    {
      IndexGrows(d1, d2, files, ino, n, k);
    }
  }

  lemma MissingCount(d1: Disk, ino: nat, n: nat)
    requires n < MAX_BLOCKS && BlocksOk(d1, ino, n)
    ensures |Missing(d1, ino, n)| == 1 + FirstUses(n)
  {
    MissingSize(d1, ino, n);
    if n >= DIRECT + INDIRECT {
      MissingIndexSize(d1, ino, n);
      var k := (n - DIRECT - INDIRECT) / INDIRECT;
      assert Ptr(d1, IndexAt(ino, k)) != 0 <==> n > DIRECT + INDIRECT * (1 + k);
      assert Ptr(d1, DoubleAt(ino)) != 0 <==> n > DIRECT + INDIRECT;
      hide *;
      AbsentCount(d1, DoubleAt(ino));
      AbsentCount(d1, IndexAt(ino, k));
      FirstUsesIndex(n, k);
    }
  }

  lemma AbsentCount(d: Disk, p: Place)
    requires PlaceOk(p)
    ensures |Absent(d, p)| == if Ptr(d, p) == 0 then 1 else 0
  {
  }

  lemma FirstUsesIndex(n: nat, k: nat)
    requires DIRECT + INDIRECT <= n && k == (n - DIRECT - INDIRECT) / INDIRECT
    ensures FirstUses(n) == (if n > DIRECT + INDIRECT then 0 else 1) + (if n > DIRECT + INDIRECT * (1 + k) then 0 else 1)
  {
  }

  /** A file none of whose places is added stays the same. */
  lemma GrownSameFile(d1: Disk, d2: Disk, used: seq<bool>, files: set<nat>, added: set<Place>, f: nat)
    requires Tree(d1, used, files) && Grown(d1, d2, files, added) && f in files
    requires forall p :: p in added ==> p.ino != f
    ensures SameFile(d1, d2, f)
  {
    assert Live(d1, files, InodeAt(f));
    forall i, o | 0 <= i < MAX_BLOCKS && 0 <= o < SECTOR_SIZE && Ptr(d1, BlockAt(f, i)) != 0
      ensures BlockByte(d2, f, i, o) == BlockByte(d1, f, i, o)
    {
      assert Live(d1, files, BlockAt(f, i));
    }
  }

  lemma MissingIsOwn(d: Disk, ino: nat, i: nat)
    requires i < MAX_BLOCKS
    ensures forall p :: p in Missing(d, ino, i) ==> p.ino == ino
    ensures forall j :: BlockAt(ino, j) in Missing(d, ino, i) <==> j == i
  {
  }

  lemma OldBlocksKept(d1: Disk, d2: Disk, used: seq<bool>, files: set<nat>, ino: nat, n: nat, i: nat, o: nat)
    requires Tree(d1, used, files) && ino in files && n < MAX_BLOCKS && BlocksOk(d1, ino, n)
    requires Grown(d1, d2, files, Missing(d1, ino, n)) && i < n && o < SECTOR_SIZE
    ensures BlockByte(d2, ino, i, o) == BlockByte(d1, ino, i, o)
  {
    MissingIsOwn(d1, ino, n);
    assert Live(d1, files, BlockAt(ino, i));
  }

  lemma OthersKept(d0: Disk, d1: Disk, d2: Disk, used: seq<bool>, files: set<nat>, ino: nat, m: nat, f: nat)
    requires Tree(d1, used, files) && m < MAX_BLOCKS && f in files && f != ino && SameFile(d0, d1, f)
    requires Grown(d1, d2, files, Missing(d1, ino, m))
    ensures SameFile(d0, d2, f)
  {
    MissingIsOwn(d1, ino, m);
    GrownSameFile(d1, d2, used, files, Missing(d1, ino, m), f);
  }

  lemma OthersByOne(d0: Disk, d1: Disk, d2: Disk, used: seq<bool>, files: set<nat>, ino: nat, m: nat)
    requires Tree(d1, used, files) && m < MAX_BLOCKS && OthersSame(d0, d1, files, ino)
    requires Grown(d1, d2, files, Missing(d1, ino, m))
    ensures OthersSame(d0, d2, files, ino)
  {
    forall f | f in files && f != ino ensures SameFile(d0, d2, f) {
      OthersKept(d0, d1, d2, used, files, ino, m, f);
    }
  }

  lemma ZeroBlockKept(d1: Disk, d2: Disk, used: seq<bool>, files: set<nat>, ino: nat, n: nat, i: nat)
    requires Tree(d1, used, files) && ino in files && n < MAX_BLOCKS && BlocksOk(d1, ino, n)
    requires Grown(d1, d2, files, Missing(d1, ino, n)) && i < n && ZeroBlock(d1, ino, i)
    ensures ZeroBlock(d2, ino, i)
  {
    forall o | 0 <= o < SECTOR_SIZE ensures BlockByte(d2, ino, i, o) == 0 {
      OldBlocksKept(d1, d2, used, files, ino, n, i, o);
    }
  }

  lemma BytesKept(d0: Disk, d1: Disk, d2: Disk, used: seq<bool>, files: set<nat>, ino: nat, n: nat, m: nat)
    requires Tree(d1, used, files) && ino in files && m < MAX_BLOCKS && Extended(d0, d1, ino, n, m)
    requires Grown(d1, d2, files, Missing(d1, ino, m))
    ensures forall i, o :: 0 <= i < n && 0 <= o < SECTOR_SIZE ==> BlockByte(d2, ino, i, o) == BlockByte(d0, ino, i, o)
  {
    forall i, o | 0 <= i < n && 0 <= o < SECTOR_SIZE ensures BlockByte(d2, ino, i, o) == BlockByte(d0, ino, i, o) {
      OldBlocksKept(d1, d2, used, files, ino, m, i, o);
    }
  }

  lemma ZerosKept(d1: Disk, d2: Disk, used: seq<bool>, files: set<nat>, ino: nat, n: nat, m: nat)
    requires Tree(d1, used, files) && ino in files && m < MAX_BLOCKS && BlocksOk(d1, ino, m)
    requires forall i :: n <= i < m ==> ZeroBlock(d1, ino, i)
    requires Grown(d1, d2, files, Missing(d1, ino, m))
    ensures forall i :: n <= i < m ==> ZeroBlock(d2, ino, i)
  {
    forall i | n <= i < m ensures ZeroBlock(d2, ino, i) {
      ZeroBlockKept(d1, d2, used, files, ino, m, i);
    }
  }

  lemma OneMoreZeroBlock(d: Disk, ino: nat, n: nat, m: nat)
    requires m < MAX_BLOCKS && (forall i :: n <= i < m ==> ZeroBlock(d, ino, i)) && ZeroBlock(d, ino, m)
    ensures forall i :: n <= i < m + 1 ==> ZeroBlock(d, ino, i)
  {
    forall i | n <= i < m + 1 ensures ZeroBlock(d, ino, i) {
      if i == m { assert ZeroBlock(d, ino, i); }
    }
  }

  lemma ExtendedByOne(d0: Disk, d1: Disk, d2: Disk, used: seq<bool>, files: set<nat>, ino: nat, n: nat, m: nat)
    requires Tree(d1, used, files) && ino in files && m < MAX_BLOCKS && Extended(d0, d1, ino, n, m)
    requires Grown(d1, d2, files, Missing(d1, ino, m)) && ZeroBlock(d2, ino, m)
    ensures Extended(d0, d2, ino, n, m + 1)
  {
    BlocksGrow(d1, d2, files, ino, m);
    BytesKept(d0, d1, d2, used, files, ino, n, m);
    ZerosKept(d1, d2, used, files, ino, n, m);
    OneMoreZeroBlock(d2, ino, n, m);
  }

  // ---------- Setting the length ----------

  lemma LengthStored(d: Disk, used: seq<bool>, files: set<nat>, ino: nat, n: nat)
    requires Tree(d, used, files) && ino in files && ino < |d| && n < WORD
    ensures var d' := StoreWord(d, ino, LENGTH_OFS, n);
      Tree(d', used, files) && SamePtrs(d, d', files) && Length(d', ino) == n
  {
    var d' := StoreWord(d, ino, LENGTH_OFS, n);
    assert Live(d, files, InodeAt(ino));
    forall q | Live(d, files, q) && !q.BlockAt? ensures KeepsSector(d, d', q, Ptr(d, q)) {
      if Ptr(d, q) == ino {
        assert q == InodeAt(ino);
        assert d'[ino][DIRECT_OFS..] == d[ino][DIRECT_OFS..];
      }
    }
    KeptTree(d, d', used, files);
  }

  /** A change to the inode sector alone leaves data blocks and other files alone. */
  lemma InodeOnly(d: Disk, d': Disk, used: seq<bool>, files: set<nat>, ino: nat)
    requires Tree(d, used, files) && ino in files && |d'| == |d| && SamePtrs(d, d', files)
    requires forall s :: 0 <= s < |d| && s != ino ==> d'[s] == d[s]
    ensures forall f :: f in files && f != ino ==> SameFile(d, d', f)
    ensures forall i, o :: 0 <= i < MAX_BLOCKS && 0 <= o < SECTOR_SIZE && Ptr(d, BlockAt(ino, i)) != 0 ==>
      BlockByte(d', ino, i, o) == BlockByte(d, ino, i, o)
  {
    assert Live(d, files, InodeAt(ino));
    forall f, i, o | f in files && 0 <= i < MAX_BLOCKS && 0 <= o < SECTOR_SIZE && Ptr(d, BlockAt(f, i)) != 0
      ensures BlockByte(d', f, i, o) == BlockByte(d, f, i, o)
    {
      assert Live(d, files, BlockAt(f, i));
    }
    forall f | f in files && f != ino ensures SameFile(d, d', f) {
      assert Live(d, files, InodeAt(f));
    }
  }

  /** File `ino` has the same sector at every place. */
  ghost predicate SameOwn(d: Disk, d': Disk, ino: nat) {
    forall p :: PlaceOk(p) && p.ino == ino ==> Ptr(d', p) == Ptr(d, p)
  }

  lemma SameOwnTrans(d0: Disk, d1: Disk, d2: Disk, ino: nat)
    requires SameOwn(d0, d1, ino) && SameOwn(d1, d2, ino)
    ensures SameOwn(d0, d2, ino)
  {
  }

  /** `d'` is `d` with a new length of file `ino`. */
  ghost predicate Resized(d: Disk, d': Disk, ino: nat, length: nat) {
    && ino < |d| && |d'| == |d| && Length(d', ino) == length && SameOwn(d, d', ino)
    && (forall i, o :: 0 <= i < MAX_BLOCKS && 0 <= o < SECTOR_SIZE && Ptr(d, BlockAt(ino, i)) != 0 ==>
          BlockByte(d', ino, i, o) == BlockByte(d, ino, i, o))
  }

  lemma LengthResizes(d: Disk, used: seq<bool>, files: set<nat>, ino: nat, length: nat)
    requires Tree(d, used, files) && ino in files && ino < |d| && length < WORD
    ensures var d' := StoreWord(d, ino, LENGTH_OFS, length);
      Tree(d', used, files) && Resized(d, d', ino, length) && OthersSame(d, d', files, ino)
  {
    LengthStored(d, used, files, ino, length);
    InodeOnly(d, StoreWord(d, ino, LENGTH_OFS, length), used, files, ino);
  }

  /** The number of blocks inode_extend_to_bytes aims for: at least one. */
  function Target(length: nat): nat {
    if length == 0 then 1 else Blocks(length)
  }

  /** A byte of the resized file: an old one, or zero. */
  lemma GrownByte(d0: Disk, d: Disk, d': Disk, ino: nat, length: nat, m: nat, i: nat, o: nat)
    requires FileOk(d0, ino) && Extended(d0, d, ino, Blocks(Length(d0, ino)), m) && Resized(d, d', ino, length)
    requires i < m && o < SECTOR_SIZE
    ensures BlockByte(d', ino, i, o) ==
      if SECTOR_SIZE * i + o < Length(d0, ino) then BlockByte(d0, ino, i, o) else 0
  {
    assert Ptr(d, BlockAt(ino, i)) != 0;
    assert BlockByte(d', ino, i, o) == BlockByte(d, ino, i, o);
    if i < Blocks(Length(d0, ino)) {
      assert BlockByte(d, ino, i, o) == BlockByte(d0, ino, i, o);
    } else {
      assert ZeroBlock(d, ino, i);
    }
  }

  /** Growing and then setting the length pads the file with zeros. */
  lemma GrownFile(d0: Disk, d: Disk, d': Disk, ino: nat, length: nat, m: nat)
    requires FileOk(d0, ino) && Length(d0, ino) <= length <= MAX_BYTES
    requires Extended(d0, d, ino, Blocks(Length(d0, ino)), m) && Resized(d, d', ino, length)
    requires m == Blocks(length) || (m == 1 && length == 0)
    ensures FileOk(d', ino) && Content(d', ino) == Padded(Content(d0, ino), length)
  {
    forall i, o | 0 <= i < Blocks(length) && i < MAX_BLOCKS && 0 <= o < SECTOR_SIZE && length <= SECTOR_SIZE * i + o
      ensures BlockByte(d', ino, i, o) == 0
    {
      GrownByte(d0, d, d', ino, length, m, i, o);
    }
    GrownContent(d0, d, d', ino, length, m);
  }

  lemma GrownContent(d0: Disk, d: Disk, d': Disk, ino: nat, length: nat, m: nat)
    requires FileOk(d0, ino) && Length(d0, ino) <= length <= MAX_BYTES
    requires Extended(d0, d, ino, Blocks(Length(d0, ino)), m) && Resized(d, d', ino, length)
    requires m == Blocks(length) || (m == 1 && length == 0)
    ensures Content(d', ino) == Padded(Content(d0, ino), length)
  {
    var c, c' := Padded(Content(d0, ino), length), Content(d', ino);
    forall pos | 0 <= pos < length ensures c'[pos] == c[pos] {
      GrownByte(d0, d, d', ino, length, m, pos / SECTOR_SIZE, pos % SECTOR_SIZE);
      assert c'[pos] == ByteOf(d', ino, pos);
      if pos < Length(d0, ino) { assert c[pos] == ByteOf(d0, ino, pos); }
    }
  }

  lemma SameIsExtended(d: Disk, ino: nat)
    requires FileOk(d, ino)
    ensures Extended(d, d, ino, Blocks(Length(d, ino)), Blocks(Length(d, ino)))
  {
  }

  lemma OthersTrans(d0: Disk, d1: Disk, d2: Disk, files: set<nat>, ino: nat)
    requires OthersSame(d0, d1, files, ino) && OthersSame(d1, d2, files, ino)
    ensures OthersSame(d0, d2, files, ino)
  {
    forall f | f in files && f != ino ensures SameFile(d0, d2, f) {
    }
  }

  /** What "no other file changes" means for a caller. */
  ghost predicate OthersKeep(d0: Disk, d: Disk, files: set<nat>, ino: nat) {
    forall f :: f in files && f != ino ==> FileOk(d0, f) && FileOk(d, f) && Content(d, f) == Content(d0, f)
  }

  lemma SameContent(d0: Disk, d: Disk, f: nat)
    requires FileOk(d0, f) && SameFile(d0, d, f)
    ensures FileOk(d, f) && Content(d, f) == Content(d0, f)
  {
  }

  lemma OthersContent(d0: Disk, d: Disk, files: set<nat>, ino: nat)
    requires OthersSame(d0, d, files, ino) && forall f :: f in files ==> FileOk(d0, f)
    ensures OthersKeep(d0, d, files, ino)
  {
    hide SameFile, Content, BlocksOk, ZeroTail;
    forall f | f in files && f != ino ensures FileOk(d, f) && Content(d, f) == Content(d0, f) {
      SameContent(d0, d, f);
    }
  }

  // ---------- Writing bytes in place ----------

  /** Storing into the data sector of block `i` of file `ino`. */
  lemma DataStored(d: Disk, used: seq<bool>, files: set<nat>, ino: nat, i: nat, data: Data)
    requires Tree(d, used, files) && ino in files && i < MAX_BLOCKS && Ptr(d, BlockAt(ino, i)) != 0
    ensures Ptr(d, BlockAt(ino, i)) < |d|
    ensures var d' := d[Ptr(d, BlockAt(ino, i)) := data];
      Tree(d', used, files) && SamePtrs(d, d', files) && OthersSame(d, d', files, ino)
      && Length(d', ino) == Length(d, ino)
  {
    var b := BlockAt(ino, i);
    var s := Ptr(d, b);
    assert Live(d, files, b) && Live(d, files, InodeAt(ino));
    var d' := d[s := data];
    forall q | Live(d, files, q) && !q.BlockAt? ensures KeepsSector(d, d', q, Ptr(d, q)) {
    }
    KeptTree(d, d', used, files);
    forall f | f in files && f != ino ensures SameFile(d, d', f) {
      DataStoredOther(d, d', used, files, ino, i, f);
    }
  }

  lemma DataStoredOther(d: Disk, d': Disk, used: seq<bool>, files: set<nat>, ino: nat, i: nat, f: nat)
    requires Tree(d, used, files) && ino in files && i < MAX_BLOCKS && Ptr(d, BlockAt(ino, i)) != 0
    requires |d'| == |d| && SamePtrs(d, d', files) && f in files && f != ino
    requires forall s :: 0 <= s < |d| && s != Ptr(d, BlockAt(ino, i)) ==> d'[s] == d[s]
    ensures SameFile(d, d', f)
  {
    assert Live(d, files, BlockAt(ino, i)) && Live(d, files, InodeAt(f));
    forall j, o | 0 <= j < MAX_BLOCKS && 0 <= o < SECTOR_SIZE && Ptr(d, BlockAt(f, j)) != 0
      ensures BlockByte(d', f, j, o) == BlockByte(d, f, j, o)
    {
      assert Live(d, files, BlockAt(f, j));
    }
  }

  /** write_buffered into one sector. */
  function Patched(d: Disk, s: nat, ofs: nat, b: seq<Byte>): (d': Disk)
    requires s < |d| && ofs + |b| <= SECTOR_SIZE
    ensures |d'| == |d|
  {
    d[s := Patch(d[s], ofs, b)]
  }

  /** `d'` differs from `d` just in the bytes from `ofs` on of sector `s`. */
  ghost predicate PatchedAt(d: Disk, d': Disk, s: nat, ofs: nat, b: seq<Byte>) {
    && s < |d| && |d'| == |d| && ofs + |b| <= SECTOR_SIZE
    && (forall t :: 0 <= t < |d| && t != s ==> d'[t] == d[t])
    && (forall o :: 0 <= o < SECTOR_SIZE ==>
          d'[s][o] == if ofs <= o < ofs + |b| then b[o - ofs] else d[s][o])
  }

  lemma PatchedIs(d: Disk, s: nat, ofs: nat, b: seq<Byte>)
    requires s < |d| && ofs + |b| <= SECTOR_SIZE
    ensures PatchedAt(d, Patched(d, s, ofs, b), s, ofs, b)
  {
    forall o | 0 <= o < SECTOR_SIZE
      ensures Patched(d, s, ofs, b)[s][o] == if ofs <= o < ofs + |b| then b[o - ofs] else d[s][o]
    {
    }
  }

  /** The bytes of the file after the store into its block `i`. */
  lemma PatchedByte(d: Disk, d': Disk, used: seq<bool>, files: set<nat>, ino: nat, i: nat, ofs: nat, b: seq<Byte>, j: nat, o: nat)
    requires Tree(d, used, files) && ino in files && i < MAX_BLOCKS && Ptr(d, BlockAt(ino, i)) != 0
    requires PatchedAt(d, d', Ptr(d, BlockAt(ino, i)), ofs, b) && SamePtrs(d, d', files)
    requires j < MAX_BLOCKS && o < SECTOR_SIZE && Ptr(d, BlockAt(ino, j)) != 0
    ensures BlockByte(d', ino, j, o) ==
      if j == i && ofs <= o < ofs + |b| then b[o - ofs] else BlockByte(d, ino, j, o)
  {
    assert Live(d, files, BlockAt(ino, i)) && Live(d, files, BlockAt(ino, j));
    assert Ptr(d', BlockAt(ino, j)) == Ptr(d, BlockAt(ino, j));
  }

  /** The block and the offset in it that hold position `pos`. */
  predicate Locates(pos: nat, i: nat, ofs: nat) {
    pos == SECTOR_SIZE * i + ofs && ofs < SECTOR_SIZE
  }

  lemma SameBlock(pos: nat, i: nat, ofs: nat, len: nat, q: nat, j: nat, o: nat)
    requires Locates(pos, i, ofs) && Locates(q, j, o) && ofs + len <= SECTOR_SIZE
    ensures pos <= q < pos + len <==> j == i && ofs <= o < ofs + len
  {
  }

  lemma OverwrittenAt(c: seq<Byte>, ofs: nat, b: seq<Byte>, q: nat)
    requires ofs + |b| <= |c| && q < |c|
    ensures Overwritten(c, ofs, b)[q] == if ofs <= q < ofs + |b| then b[q - ofs] else c[q]
  {
  }

  lemma ChunkFileOk(d: Disk, d': Disk, used: seq<bool>, files: set<nat>, ino: nat, pos: nat, i: nat, ofs: nat, b: seq<Byte>)
    requires Tree(d, used, files) && ino in files && FileOk(d, ino)
    requires Locates(pos, i, ofs) && pos + |b| <= Length(d, ino) && i < MAX_BLOCKS && Ptr(d, BlockAt(ino, i)) != 0
    requires PatchedAt(d, d', Ptr(d, BlockAt(ino, i)), ofs, b) && SamePtrs(d, d', files)
    requires Length(d', ino) == Length(d, ino)
    ensures FileOk(d', ino)
  {
    var n := Length(d, ino);
    assert BlocksOk(d', ino, Blocks(n));
    forall j, o | 0 <= j < Blocks(n) && j < MAX_BLOCKS && 0 <= o < SECTOR_SIZE && n <= SECTOR_SIZE * j + o
      ensures BlockByte(d', ino, j, o) == 0
    {
      PatchedByte(d, d', used, files, ino, i, ofs, b, j, o);
    }
  }

  /** Every byte of a file lies in a block that is there. */
  lemma ByteInBlock(d: Disk, ino: nat, q: nat)
    requires FileOk(d, ino) && q < Length(d, ino)
    ensures var j, o := q / SECTOR_SIZE, q % SECTOR_SIZE;
      Locates(q, j, o) && j < MAX_BLOCKS && Ptr(d, BlockAt(ino, j)) != 0
  {
    assert q / SECTOR_SIZE < Blocks(Length(d, ino));
  }

  lemma ChunkByteAt(d: Disk, d': Disk, used: seq<bool>, files: set<nat>, ino: nat, pos: nat, i: nat, ofs: nat, b: seq<Byte>, q: nat, j: nat, o: nat)
    requires Tree(d, used, files) && ino in files
    requires Locates(pos, i, ofs) && i < MAX_BLOCKS && Ptr(d, BlockAt(ino, i)) != 0
    requires Locates(q, j, o) && j < MAX_BLOCKS && Ptr(d, BlockAt(ino, j)) != 0
    requires PatchedAt(d, d', Ptr(d, BlockAt(ino, i)), ofs, b) && SamePtrs(d, d', files)
    ensures BlockByte(d', ino, j, o) == if pos <= q < pos + |b| then b[q - pos] else BlockByte(d, ino, j, o)
  {
    assert ofs + |b| <= SECTOR_SIZE;
    hide Tree, SamePtrs, PatchedAt, BlockByte, Ptr;
    PatchedByte(d, d', used, files, ino, i, ofs, b, j, o);
    SameBlock(pos, i, ofs, |b|, q, j, o);
  }

  lemma ChunkByte(d: Disk, d': Disk, used: seq<bool>, files: set<nat>, ino: nat, pos: nat, i: nat, ofs: nat, b: seq<Byte>, q: nat)
    requires Tree(d, used, files) && ino in files && FileOk(d, ino)
    requires Locates(pos, i, ofs) && i < MAX_BLOCKS && Ptr(d, BlockAt(ino, i)) != 0 && q < Length(d, ino)
    requires PatchedAt(d, d', Ptr(d, BlockAt(ino, i)), ofs, b) && SamePtrs(d, d', files)
    ensures ByteOf(d', ino, q) == if pos <= q < pos + |b| then b[q - pos] else ByteOf(d, ino, q)
  {
    hide Tree, FileOk, SamePtrs, PatchedAt, BlockByte, Ptr, Length, Locates;
    ByteInBlock(d, ino, q);
    ChunkByteAt(d, d', used, files, ino, pos, i, ofs, b, q, q / SECTOR_SIZE, q % SECTOR_SIZE);
  }

  lemma ChunkContent(d: Disk, d': Disk, used: seq<bool>, files: set<nat>, ino: nat, pos: nat, i: nat, ofs: nat, b: seq<Byte>)
    requires Tree(d, used, files) && ino in files && FileOk(d, ino)
    requires Locates(pos, i, ofs) && pos + |b| <= Length(d, ino) && i < MAX_BLOCKS && Ptr(d, BlockAt(ino, i)) != 0
    requires PatchedAt(d, d', Ptr(d, BlockAt(ino, i)), ofs, b) && SamePtrs(d, d', files)
    requires Length(d', ino) == Length(d, ino)
    ensures Content(d', ino) == Overwritten(Content(d, ino), pos, b)
  {
    var c, c' := Overwritten(Content(d, ino), pos, b), Content(d', ino);
    forall q | 0 <= q < Length(d, ino) ensures c'[q] == c[q] {
      ChunkByte(d, d', used, files, ino, pos, i, ofs, b, q);
      OverwrittenAt(Content(d, ino), pos, b, q);
    }
  }

  /** A write of bytes that lie in one block and inside the file overwrites exactly
      those bytes of the file. */
  lemma ChunkWritten(d: Disk, used: seq<bool>, files: set<nat>, ino: nat, pos: nat, i: nat, ofs: nat, b: seq<Byte>)
    requires Tree(d, used, files) && ino in files && FileOk(d, ino)
    requires Locates(pos, i, ofs) && pos + |b| <= Length(d, ino) && 0 < |b| && ofs + |b| <= SECTOR_SIZE
    ensures i < MAX_BLOCKS && Ptr(d, BlockAt(ino, i)) < |d|
    ensures var d' := Patched(d, Ptr(d, BlockAt(ino, i)), ofs, b);
      && Tree(d', used, files) && OthersSame(d, d', files, ino) && Length(d', ino) == Length(d, ino)
      && SameOwn(d, d', ino) && FileOk(d', ino) && Content(d', ino) == Overwritten(Content(d, ino), pos, b)
  {
    var s := Ptr(d, BlockAt(ino, i));
    assert i < Blocks(Length(d, ino));
    DataStored(d, used, files, ino, i, Patch(d[s], ofs, b));
    PatchedIs(d, s, ofs, b);
    var d' := Patched(d, s, ofs, b);
    ChunkFileOk(d, d', used, files, ino, pos, i, ofs, b);
    ChunkContent(d, d', used, files, ino, pos, i, ofs, b);
  }

  // ---------- inode_extend ----------

  lemma {:induction false} NeededMonotone(n: nat, i: nat, m: nat)
    requires i <= m
    ensures Needed(n, i) <= Needed(n, m)
  {
    if i < m { NeededMonotone(n, i, m - 1); }
  }

  /** Whether extending a file of `n` blocks by `cnt` with `free` free sectors fails an
      ASSERT: can_allocate has been satisfied and has kept one sector, and then either
      the index is too small or the sectors do not suffice for data and index. */
  predicate ExtendPanics(n: nat, cnt: nat, free: nat) {
    cnt > 0 && free >= cnt && (n + cnt > MAX_BLOCKS || free - 1 < Needed(n, n + cnt))
  }

  lemma LeakedCount(used: seq<bool>, num: nat)
    requires FreeCount(used) > 0 && num > 0
    ensures FreeCount(Leaked(used, num)) == FreeCount(used) - 1
  {
    FreeExists(used);
    FreeCountMark(used, FirstFree(used), true);
  }

  lemma NothingAsked(used: seq<bool>, n: nat)
    ensures Leaked(used, 0) == used && Needed(n, n) == 0
  {
  }

  /** File `ino` is on its way from `n` blocks in `d0` to more, and has `i` now. */
  ghost predicate Growing(d0: Disk, d: Disk, used: seq<bool>, files: set<nat>, ino: nat, n: nat, i: nat) {
    Tree(d, used, files) && ino in files && Extended(d0, d, ino, n, i) && OthersSame(d0, d, files, ino)
  }

  /** After can_allocate: nothing but the free map has changed. */
  lemma ReadyToGrow(d0: Disk, u0: seq<bool>, d: Disk, files: set<nat>, ino: nat, num: nat)
    requires Valid(d0, u0, files) && ino in files && |d| == |d0|
    requires forall s :: 0 <= s < |d0| && u0[s] ==> d[s] == d0[s]
    ensures var u := Leaked(u0, num); var n := Blocks(Length(d0, ino));
      Growing(d0, d, u, files, ino, n, n) && SameFile(d0, d, ino)
  {
    UsedKept(d0, u0, d, Leaked(u0, num), files);
    assert FileOk(d0, ino);
  }

  /** A failed extension leaves every file as it was. */
  lemma NotGrown(d0: Disk, d: Disk, used: seq<bool>, files: set<nat>, ino: nat, n: nat)
    requires Growing(d0, d, used, files, ino, n, n) && SameFile(d0, d, ino)
    requires forall f :: f in files ==> FileOk(d0, f)
    ensures Valid(d, used, files) && OthersKeep(d0, d, files, ino) && Content(d, ino) == Content(d0, ino)
    ensures SameOwn(d0, d, ino)
  {
    SameContent(d0, d, ino);
    hide FileOk, SameFile, Content, Tree, Extended;
    OthersContent(d0, d, files, ino);
  }

  /** inode_set_length after the blocks are there. */
  lemma LengthSet(d0: Disk, d: Disk, used: seq<bool>, files: set<nat>, ino: nat, m: nat, length: nat)
    requires forall f :: f in files ==> FileOk(d0, f)
    requires ino in files && FileOk(d0, ino) && Growing(d0, d, used, files, ino, Blocks(Length(d0, ino)), m)
    requires Length(d0, ino) <= length <= MAX_BYTES && (m == Blocks(length) || (m == 1 && length == 0))
    ensures ino < |d| && var d' := StoreWord(d, ino, LENGTH_OFS, length);
      && Valid(d', used, files) && OthersKeep(d0, d', files, ino) && SameOwn(d, d', ino)
      && Content(d', ino) == Padded(Content(d0, ino), length)
  {
    var d' := StoreWord(d, ino, LENGTH_OFS, length);
    LengthResizes(d, used, files, ino, length);
    GrownFile(d0, d, d', ino, length, m);
    OthersTrans(d0, d, d', files, ino);
    OthersContent(d0, d', files, ino);
  }

  /** The blocks inode_extend_to_bytes asks for, given a file of `n` blocks. */
  function Extra(n: nat, length: nat): nat {
    if Target(length) > n then Target(length) - n else 0
  }

  lemma TargetFits(now: nat, length: nat)
    requires now == 0 || Blocks(now) < Target(length)
    ensures Blocks(now) + Extra(Blocks(now), length) == Target(length) && now <= length && Extra(Blocks(now), length) > 0
    ensures Target(length) <= MAX_BLOCKS ==> length <= MAX_BYTES
  {
  }

  lemma SameIsGrowing(d: Disk, used: seq<bool>, files: set<nat>, ino: nat)
    requires Valid(d, used, files) && ino in files && ino < |d|
    ensures Growing(d, d, used, files, ino, Blocks(Length(d, ino)), Blocks(Length(d, ino))) && SameFile(d, d, ino)
  {
    assert FileOk(d, ino);
    SameIsExtended(d, ino);
    forall f | f in files ensures SameFile(d, d, f) {
      assert FileOk(d, f);
    }
  }

  // ---------- inode_read_at and inode_write_at ----------

  /** How many of `size` bytes from `offset` on lie inside a file of `length` bytes. */
  function InFile(length: nat, offset: nat, size: nat): (n: nat)
    ensures n <= size && (n > 0 ==> offset + n <= length)
    ensures n == Min(offset + size, length) - Min(offset, length)
  {
    if offset >= length then 0 else Min(size, length - offset)
  }

  /** The transfer loops call byte_to_sector once more after the last byte of the file
      if bytes are still wanted; its ASSERT fails there when the position lies beyond
      the last block an index can reach. */
  predicate LoopPanics(length: nat, offset: nat, size: nat) {
    size > 0 && offset + size > length && Max(offset, length) >= MAX_BYTES
  }

  /** The bytes one round of a transfer loop moves. */
  function Chunk(length: nat, offset: nat, size: nat): int {
    Min(size, Min(length - offset, SECTOR_SIZE - offset % SECTOR_SIZE))
  }

  lemma ByteRead(d: Disk, ino: nat, pos: nat, i: nat, ofs: nat, k: nat)
    requires FileOk(d, ino) && Locates(pos, i, ofs) && pos + k < Length(d, ino) && ofs + k < SECTOR_SIZE
    requires i < MAX_BLOCKS && Ptr(d, BlockAt(ino, i)) < |d|
    ensures Content(d, ino)[pos + k] == d[Ptr(d, BlockAt(ino, i))][ofs + k]
  {
    assert Content(d, ino)[pos + k] == ByteOf(d, ino, pos + k);
    assert (pos + k) / SECTOR_SIZE == i && (pos + k) % SECTOR_SIZE == ofs + k;
  }

  lemma ChunkAt(d: Disk, used: seq<bool>, files: set<nat>, ino: nat, pos: nat, i: nat, ofs: nat, n: nat)
    requires Tree(d, used, files) && ino in files && FileOk(d, ino) && Locates(pos, i, ofs)
    requires 0 < n && pos + n <= Length(d, ino) && ofs + n <= SECTOR_SIZE
    ensures i < MAX_BLOCKS && Ptr(d, BlockAt(ino, i)) < |d| && ino < |d| && Length(d, ino) <= MAX_BYTES
  {
    assert i < Blocks(Length(d, ino));
    assert Live(d, files, BlockAt(ino, i));
  }

  /** A chunk read from the data sector is that part of the file. */
  lemma ChunkRead(d: Disk, used: seq<bool>, files: set<nat>, ino: nat, pos: nat, i: nat, ofs: nat, n: nat)
    requires Tree(d, used, files) && ino in files && FileOk(d, ino) && Locates(pos, i, ofs)
    requires 0 < n && pos + n <= Length(d, ino) && ofs + n <= SECTOR_SIZE
    ensures i < MAX_BLOCKS && Ptr(d, BlockAt(ino, i)) < |d|
    ensures d[Ptr(d, BlockAt(ino, i))][ofs..ofs + n] == Content(d, ino)[pos..pos + n]
  {
    hide Tree, FileOk, Content, Ptr, Locates, Length;
    ChunkAt(d, used, files, ino, pos, i, ofs, n);
    var there, here := d[Ptr(d, BlockAt(ino, i))][ofs..ofs + n], Content(d, ino)[pos..pos + n];
    forall k | 0 <= k < n ensures there[k] == here[k] {
      ByteRead(d, ino, pos, i, ofs, k);
    }
  }

  lemma JoinedSlice(xs: seq<Byte>, i: nat, m: nat, n: nat)
    requires i + m + n <= |xs|
    ensures xs[i..i + m] + xs[i + m..i + m + n] == xs[i..i + m + n]
  {
  }

  lemma AllMoved(length: nat, offset: nat, size: nat)
    ensures InFile(length, offset, size) >= size ==> !LoopPanics(length, offset, size)
  {
  }

  /** Everything a transfer loop of inode_write_at keeps: `done` bytes are in place. */
  ghost predicate Writing(d0: Disk, d: Disk, used: seq<bool>, files: set<nat>, ino: nat, offset: nat, b: seq<Byte>, done: nat) {
    && Tree(d, used, files) && ino in files && FileOk(d0, ino) && FileOk(d, ino)
    && Length(d, ino) == Length(d0, ino) && OthersSame(d0, d, files, ino) && SameOwn(d0, d, ino)
    && done <= |b| && (done > 0 ==> offset + done <= Length(d0, ino))
    && Content(d, ino) == if done == 0 then Content(d0, ino) else Overwritten(Content(d0, ino), offset, b[..done])
  }

  lemma OverwriteGoesOn(c0: seq<Byte>, c: seq<Byte>, offset: nat, b: seq<Byte>, done: nat, n: nat)
    requires done + n <= |b| && offset + done + n <= |c0|
    requires c == if done == 0 then c0 else Overwritten(c0, offset, b[..done])
    ensures Overwritten(c, offset + done, b[done..done + n]) == Overwritten(c0, offset, b[..done + n])
  {
    if done == 0 {
      assert b[done..done + n] == b[..done + n];
    }
  }

  lemma WritingGoesOn(d0: Disk, d: Disk, d': Disk, used: seq<bool>, files: set<nat>, ino: nat, offset: nat, b: seq<Byte>, done: nat, n: nat)
    requires Writing(d0, d, used, files, ino, offset, b, done) && done + n <= |b| && 0 < n
    requires offset + done + n <= Length(d0, ino)
    requires Tree(d', used, files) && OthersSame(d, d', files, ino) && FileOk(d', ino)
    requires Length(d', ino) == Length(d, ino) && SameOwn(d, d', ino)
    requires Content(d', ino) == Overwritten(Content(d, ino), offset + done, b[done..done + n])
    ensures Writing(d0, d', used, files, ino, offset, b, done + n)
  {
    OthersTrans(d0, d, d', files, ino);
    OverwriteGoesOn(Content(d0, ino), Content(d, ino), offset, b, done, n);
    SameOwnTrans(d0, d, d', ino);
    hide Tree, OthersSame, SameOwn, BlocksOk, ZeroTail, Content, Overwritten;
  }

  lemma WritingGives(d0: Disk, d: Disk, used: seq<bool>, files: set<nat>, ino: nat, offset: nat, b: seq<Byte>, done: nat)
    requires Writing(d0, d, used, files, ino, offset, b, done)
    ensures ino < |d0| && ino < |d| && Tree(d, used, files) && ino in files && FileOk(d, ino) && Length(d, ino) == Length(d0, ino)
  {
  }

  lemma WritingNext(d0: Disk, d: Disk, used: seq<bool>, files: set<nat>, ino: nat, offset: nat, b: seq<Byte>, done: nat, n: nat, i: nat, ofs: nat)
    requires Writing(d0, d, used, files, ino, offset, b, done) && done + n <= |b| && 0 < n
    requires ino < |d0| && offset + done + n <= Length(d0, ino) && Locates(offset + done, i, ofs) && ofs + n <= SECTOR_SIZE
    ensures i < MAX_BLOCKS && Ptr(d, BlockAt(ino, i)) < |d|
    ensures Writing(d0, Patched(d, Ptr(d, BlockAt(ino, i)), ofs, b[done..done + n]), used, files, ino, offset, b, done + n)
  {
    hide Writing, Tree, FileOk, OthersSame, SameOwn, Ptr, Patched, Length, Content, Overwritten, Locates;
    WritingGives(d0, d, used, files, ino, offset, b, done);
    ChunkWritten(d, used, files, ino, offset + done, i, ofs, b[done..done + n]);
    WritingGoesOn(d0, d, Patched(d, Ptr(d, BlockAt(ino, i)), ofs, b[done..done + n]), used, files, ino, offset, b, done, n);
  }

  lemma WritingEnds(d0: Disk, d: Disk, used: seq<bool>, files: set<nat>, ino: nat, offset: nat, b: seq<Byte>, done: nat)
    requires Writing(d0, d, used, files, ino, offset, b, done) && forall f :: f in files ==> FileOk(d0, f)
    ensures Valid(d, used, files) && OthersKeep(d0, d, files, ino) && SameOwn(d0, d, ino)
    ensures FileOk(d0, ino) && FileOk(d, ino) && done <= |b| && (done > 0 ==> offset + done <= Length(d0, ino))
    ensures Content(d, ino) == if done == 0 then Content(d0, ino) else Overwritten(Content(d0, ino), offset, b[..done])
  {
    OthersContent(d0, d, files, ino);
  }

  lemma OthersKeepTrans(d0: Disk, d1: Disk, d2: Disk, files: set<nat>, ino: nat)
    requires OthersKeep(d0, d1, files, ino) && OthersKeep(d1, d2, files, ino)
    ensures OthersKeep(d0, d2, files, ino)
  {
    forall f | f in files && f != ino ensures FileOk(d0, f) && FileOk(d2, f) && Content(d2, f) == Content(d0, f) {
      assert FileOk(d1, f) && Content(d1, f) == Content(d0, f);
    }
  }

  // ---------- What a write does, as a function of the old file ----------


  predicate WritePanics(length: nat, free: nat, size: nat, offset: nat, deny: bool) {
    || ExtendPanics(Blocks(length), Extra(Blocks(length), offset + size), free)
    || (!deny && free < Extra(Blocks(length), offset + size) && LoopPanics(length, offset, size))
  }

  /** The number of bytes written. */
  function WriteCount(length: nat, free: nat, size: nat, offset: nat, deny: bool): nat {
    if deny then 0
    else if free >= Extra(Blocks(length), offset + size) then size
    else InFile(length, offset, size)
  }

  function WriteContent(c: seq<Byte>, free: nat, buf: seq<Byte>, offset: nat, deny: bool): (r: seq<Byte>) {
    var grown := if free >= Extra(Blocks(|c|), offset + |buf|) then Padded(c, offset + |buf|) else c;
    var n := WriteCount(|c|, free, |buf|, offset, deny);
    if n == 0 then grown else Overwritten(grown, offset, buf[..n])
  }

  /** A write is an extension followed by overwriting what lies inside. */
  lemma WriteComposes(c: seq<Byte>, free: nat, buf: seq<Byte>, offset: nat, deny: bool)
    requires |c| <= MAX_BYTES
    ensures var k := Extra(Blocks(|c|), offset + |buf|);
      var c1 := if free >= k then Padded(c, offset + |buf|) else c;
      var n := if deny then 0 else InFile(|c1|, offset, |buf|);
      && n == WriteCount(|c|, free, |buf|, offset, deny) && (n > 0 ==> offset + n <= |c1|)
      && WriteContent(c, free, buf, offset, deny) == (if n == 0 then c1 else Overwritten(c1, offset, buf[..n]))
      && (WritePanics(|c|, free, |buf|, offset, deny) <==>
            || ExtendPanics(Blocks(|c|), k, free)
            || (!deny && LoopPanics(|c1|, offset, |buf|)))
  {
  }

  /** With room in the index and enough free sectors for data, index and the one that
      can_allocate keeps, a write makes the file the old bytes, zero-padded up to the
      offset and overwritten by the buffer; reading them back gives the buffer. */
  lemma WriteSucceeds(c: seq<Byte>, free: nat, buf: seq<Byte>, offset: nat)
    requires |c| <= MAX_BYTES && offset + |buf| <= MAX_BYTES
    requires var n := Blocks(|c|);
      Extra(n, offset + |buf|) > 0 ==> free > Needed(n, n + Extra(n, offset + |buf|))
    ensures !WritePanics(|c|, free, |buf|, offset, false)
    ensures WriteCount(|c|, free, |buf|, offset, false) == |buf|
    ensures WriteContent(c, free, buf, offset, false) == Overwritten(Padded(c, offset + |buf|), offset, buf)
    ensures |WriteContent(c, free, buf, offset, false)| == Max(|c|, offset + |buf|)
    ensures WriteContent(c, free, buf, offset, false)[offset..offset + |buf|] == buf
  {
    var n := Blocks(|c|);
    var k := Extra(n, offset + |buf|);
    NeededCovers(n, n + k);
    assert buf[..|buf|] == buf;
    assert n + k <= MAX_BLOCKS;
    if |buf| == 0 {
      var grown := Padded(c, offset);
      assert Overwritten(grown, offset, buf) == grown;
    }
  }

  /** Whether the free map satisfies can_allocate for the blocks that a file of `length` bytes
      lacks up to `end`; a file gets one block at least. */
  predicate Grows(length: nat, free: nat, end: nat) {
    Max(1, (end + 511) / 512) <= (length + 511) / 512 + free
  }

  /** What a write does, byte by byte.  The file reaches up to the end of the write if it
      grows and has its old length otherwise; the bytes that are written are those of the
      buffer that lie inside it, none when writes are denied; every other byte is the old
      one, or zero beyond the old end. */
  lemma WriteExactly(c: seq<Byte>, free: nat, buf: seq<Byte>, offset: nat, deny: bool)
    requires |c| <= MAX_BYTES
    ensures var end, n := offset + |buf|, WriteCount(|c|, free, |buf|, offset, deny);
      var r := WriteContent(c, free, buf, offset, deny);
      && n == (if deny then 0 else if Grows(|c|, free, end) then |buf| else Min(|buf|, |c| - Min(offset, |c|)))
      && |r| == (if Grows(|c|, free, end) then Max(|c|, end) else |c|)
      && (forall p :: 0 <= p < |r| ==>
            r[p] == if offset <= p < offset + n then buf[p - offset] else if p < |c| then c[p] else 0)
  {
  }

  lemma {:induction false} NeededCovers(n: nat, m: nat)
    requires n <= m
    ensures Needed(n, m) >= m - n
  {
    if n < m { NeededCovers(n, m - 1); }
  }

  /** The sectors that extending a file of `length` bytes up to `end` takes out of the free
      map: data, index and the one can_allocate keeps, which it also keeps when it fails. */
  function Spends(length: nat, free: nat, end: nat): nat {
    var n := Blocks(length);
    var k := Extra(n, end);
    if k == 0 then 0 else if free < k then Min(free, 1) else 1 + Needed(n, n + k)
  }

  /** What inode_extend_to_bytes does to a file and the free map: it panics, or the file is
      padded with zeros or, when there is no room, left alone, and the free map has lost
      exactly the sectors above. */
  ghost predicate Extending(d0: Disk, u0: seq<bool>, d: Disk, u: seq<bool>, files: set<nat>, ino: nat, length: nat, panic: bool, ok: bool)
    requires ino < |d0| && Length(d0, ino) <= MAX_BYTES
  {
    var now, free := Length(d0, ino), FreeCount(u0);
    var k := Extra(Blocks(now), length);
    && (panic <==> ExtendPanics(Blocks(now), k, free))
    && (!panic ==>
      && (ok <==> free >= k)
      && Valid(d, u, files) && OthersKeep(d0, d, files, ino) && FileOk(d, ino)
      && Content(d, ino) == (if ok then Padded(Content(d0, ino), length) else Content(d0, ino))
      && FreeCount(u) == free - Spends(now, free, length)
      && (k == 0 || free < k ==> SameOwn(d0, d, ino))
      && (Spends(now, free, length) == 0 ==> u == u0))
  }

  lemma NothingSpent(length: nat, free: nat, end: nat)
    ensures Spends(length, free, end) == 0 <==> Extra(Blocks(length), end) == 0 || free == 0
    ensures Spends(length, free, end) == 0 ==> Extra(Blocks(length), end) == 0 || free < Extra(Blocks(length), end)
  {
  }

  lemma KeptOne(used: seq<bool>, num: nat)
    requires num > 0
    ensures FreeCount(Leaked(used, num)) == FreeCount(used) - Min(FreeCount(used), 1)
    ensures FreeCount(used) == 0 ==> Leaked(used, num) == used
  {
    FreeExists(used);
    if FreeCount(used) > 0 { LeakedCount(used, num); }
  }

  /** Denying writes does not keep a file from growing: a denied write leaves its bytes alone
      exactly when it would not extend it or cannot, and the free map and the pointers as
      well exactly when nothing is asked of the free map or the free map is empty. */
  lemma DeniedWriteLeavesFile(c: seq<Byte>, free: nat, buf: seq<Byte>, offset: nat)
    requires |c| <= MAX_BYTES && !WritePanics(|c|, free, |buf|, offset, true)
    ensures WriteContent(c, free, buf, offset, true) == c
      <==> offset + |buf| <= |c| || free < Extra(Blocks(|c|), offset + |buf|)
    ensures WriteContent(c, free, buf, offset, true) == c && Spends(|c|, free, offset + |buf|) == 0
      <==> (0 < |c| && offset + |buf| <= |c|) || (free == 0 && Extra(Blocks(|c|), offset + |buf|) > 0)
  {
  }

  /** Writing no bytes leaves the bytes of a file alone exactly when the offset is not beyond
      its end or the free map cannot satisfy the extension; an empty file still gets a block. */
  lemma EmptyWriteLeavesFile(c: seq<Byte>, free: nat, offset: nat, deny: bool)
    requires |c| <= MAX_BYTES && !WritePanics(|c|, free, 0, offset, deny)
    ensures WriteContent(c, free, [], offset, deny) == c
      <==> offset <= |c| || free < Extra(Blocks(|c|), offset)
    ensures WriteContent(c, free, [], offset, deny) == c && Spends(|c|, free, offset) == 0
      <==> (0 < |c| && offset <= |c|) || (free == 0 && Extra(Blocks(|c|), offset) > 0)
  {
  }

  /** For example, an empty write at position 1 makes an empty file one byte long, ... */
  lemma EmptyWriteGrows()
    ensures !WritePanics(0, 2, 0, 1, false) && WriteContent([], 2, [], 1, false) == [0]
  {
    OneBlockNeeded();
    assert Padded([], 1) == [0];
  }

  /** ... one at position 0 takes two sectors for an empty file that stays empty, ... */
  lemma EmptyWriteTakesSectors()
    ensures !WritePanics(0, 2, 0, 0, false) && WriteContent([], 2, [], 0, false) == [] && Spends(0, 2, 0) == 2
  {
    OneBlockNeeded();
  }

  /** ... and a denied write of one byte makes an empty file one byte long. */
  lemma DeniedWriteGrows()
    ensures !WritePanics(0, 2, 1, 0, true) && WriteContent([], 2, [7], 0, true) == [0]
    ensures WriteCount(0, 2, 1, 0, true) == 0
  {
    OneBlockNeeded();
    assert Padded([], 1) == [0];
  }

  lemma OneBlockNeeded()
    ensures Needed(0, 1) == 1
  {
    assert Needed(0, 0) == 0;
  }
}
