/** A new inode, in a sector that still holds its old pointer words. */
module InodeCreate {
  import opened Arithmetic
  import opened Storage
  import opened InodeLayout
  import opened InodeTree
  import opened InodeFile
  import opened InodeGrowth
  import opened FreeMap

  /** Sector `s` is marked used but belongs to no file. */
  ghost predicate Reserved(disk: Disk, used: seq<bool>, files: set<nat>, s: nat) {
    && |used| == |disk| && s < |disk| && used[s] && s !in files
    && (forall p :: Live(disk, files, p) ==> Ptr(disk, p) != s)
  }

  // ---------- The words that are there before ----------

  function DirectWord(d: Data, i: nat): nat
    requires i < DIRECT
  {
    Word(d, DIRECT_OFS + 4 * i)
  }

  predicate NoIndex(d: Data) {
    Word(d, SINGLE_OFS) == 0 && Word(d, DOUBLE_OFS) == 0
  }

  /** The pointer words that a new file of `n` blocks does not set are zero, but perhaps the
      first one. */
  ghost predicate WordsFit(d: Data, n: nat) {
    NoIndex(d) && forall i :: Max(1, n) <= i < DIRECT ==> DirectWord(d, i) == 0
  }

  /** The same for a file of any size: the old pointers that a new file of `n` blocks does not
      set anew, in the inode and below it, are zero, but perhaps the first one. */
  ghost predicate OldFits(disk: Disk, s: nat, n: nat) {
    forall p :: PlaceOk(p) && p.ino == s && !p.InodeAt? && Ptr(disk, p) != 0 ==> First(p) < Max(1, n)
  }

  /** Within the direct pointers that is a matter of the words of the sector. */
  lemma OldFitsWords(disk: Disk, s: nat, n: nat)
    requires s < |disk| && n <= DIRECT
    ensures OldFits(disk, s, n) <==> WordsFit(disk[s], n)
  {
    OwnPtrs(disk, s);
    if OldFits(disk, s, n) {
      assert Ptr(disk, SingleAt(s)) == 0 && Ptr(disk, DoubleAt(s)) == 0;
      forall i | Max(1, n) <= i < DIRECT ensures DirectWord(disk[s], i) == 0 {
        assert Ptr(disk, BlockAt(s, i)) == 0;
      }
    }
    if WordsFit(disk[s], n) {
      forall p | PlaceOk(p) && p.ino == s && !p.InodeAt? && Ptr(disk, p) != 0 ensures First(p) < Max(1, n) {
      }
    }
  }

  /** And the first one, if it stays, is zero or leads to a sector of nobody. */
  ghost predicate Fits(disk: Disk, used: seq<bool>, files: set<nat>, s: nat, n: nat)
    requires s < |disk|
  {
    && OldFits(disk, s, n)
    && (n == 0 ==> var w := DirectWord(disk[s], 0); w == 0 || (w != s && Reserved(disk, used, files, w)))
  }

  lemma OwnPtrs(d: Disk, s: nat)
    requires s < |d|
    ensures forall i :: 0 <= i < DIRECT ==> Ptr(d, BlockAt(s, i)) == DirectWord(d[s], i)
    ensures Ptr(d, SingleAt(s)) == Word(d[s], SINGLE_OFS) && Ptr(d, DoubleAt(s)) == Word(d[s], DOUBLE_OFS)
    ensures NoIndex(d[s]) ==> forall k :: 0 <= k < INDIRECT ==> Ptr(d, IndexAt(s, k)) == 0
    ensures NoIndex(d[s]) ==> forall i :: DIRECT <= i < MAX_BLOCKS ==> Ptr(d, BlockAt(s, i)) == 0
  {
    assert Ptr(d, InodeAt(s)) == s;
    if NoIndex(d[s]) {
      forall i | DIRECT <= i < MAX_BLOCKS ensures Ptr(d, BlockAt(s, i)) == 0 {
        var q := Parent(BlockAt(s, i));
        assert Ptr(d, q) == 0;
      }
    }
  }

  // ---------- Laying the direct blocks ----------

  /** `w` was free, and is a cleared sector in use now. */
  ghost predicate NewBlock(u0: seq<bool>, d: Disk, u: seq<bool>, w: nat) {
    0 < w < |d| && |d| == |u| == |u0| && !u0[w] && u[w] && d[w] == Zeros()
  }

  /** The inode at `s` has its length and its first `i` blocks, which were free before; its
      other pointer words and all other sectors in use are as they were. */
  ghost predicate Laid(d0: Disk, u0: seq<bool>, d: Disk, u: seq<bool>, s: nat, length: nat, i: nat) {
    && |d| == |d0| == |u0| && s < |d| < WORD && u0[s] && u0[0] && i <= DIRECT
    && StillUsed(u0, u)
    && (forall t :: 0 <= t < |d| && u0[t] && t != s ==> d[t] == d0[t])
    && Length(d, s) == length
    && Word(d[s], SINGLE_OFS) == Word(d0[s], SINGLE_OFS) && Word(d[s], DOUBLE_OFS) == Word(d0[s], DOUBLE_OFS)
    && (forall j :: i <= j < DIRECT ==> DirectWord(d[s], j) == DirectWord(d0[s], j))
    && (forall j :: 0 <= j < i ==> NewBlock(u0, d, u, DirectWord(d[s], j)))
    && (forall j, k :: 0 <= j < k < i ==> DirectWord(d[s], j) != DirectWord(d[s], k))
  }

  lemma WordSet(d: Data, i: nat, w: nat)
    requires i < DIRECT && w < WORD
    ensures var d' := SetWord(d, DIRECT_OFS + 4 * i, w);
      && DirectWord(d', i) == w && (forall j :: 0 <= j < DIRECT && j != i ==> DirectWord(d', j) == DirectWord(d, j))
      && Word(d', LENGTH_OFS) == Word(d, LENGTH_OFS)
      && Word(d', SINGLE_OFS) == Word(d, SINGLE_OFS) && Word(d', DOUBLE_OFS) == Word(d, DOUBLE_OFS)
  {
    var ofs := DIRECT_OFS + 4 * i;
    DecodeEncode(w);
    assert SetWord(d, ofs, w)[ofs..ofs + 4] == Encode(w);
    forall j | 0 <= j < DIRECT && j != i ensures DirectWord(SetWord(d, ofs, w), j) == DirectWord(d, j) {
      OtherWordOfSetWord(d, ofs, w, DIRECT_OFS + 4 * j);
    }
    OtherWordOfSetWord(d, ofs, w, LENGTH_OFS);
    OtherWordOfSetWord(d, ofs, w, SINGLE_OFS);
    OtherWordOfSetWord(d, ofs, w, DOUBLE_OFS);
  }

  lemma LaidStep(d0: Disk, u0: seq<bool>, d: Disk, u: seq<bool>, s: nat, length: nat, i: nat, w: nat, d': Disk)
    requires Laid(d0, u0, d, u, s, length, i) && i < DIRECT && 0 < w < |u| && !u[w] && |d'| == |d|
    requires d'[w] == Zeros() && forall t :: 0 <= t < |d| && t != s && t != w ==> d'[t] == d[t]
    requires DirectWord(d'[s], i) == w && Word(d'[s], LENGTH_OFS) == Word(d[s], LENGTH_OFS)
    requires forall j :: 0 <= j < DIRECT && j != i ==> DirectWord(d'[s], j) == DirectWord(d[s], j)
    requires Word(d'[s], SINGLE_OFS) == Word(d[s], SINGLE_OFS) && Word(d'[s], DOUBLE_OFS) == Word(d[s], DOUBLE_OFS)
    ensures Laid(d0, u0, d', u[w := true], s, length, i + 1)
  {
    assert Length(d', s) == Length(d, s);
    hide DirectWord, Word, Length, Zeros;
    forall j | 0 <= j < i ensures NewBlock(u0, d', u[w := true], DirectWord(d'[s], j)) && DirectWord(d'[s], j) != w {
      assert NewBlock(u0, d, u, DirectWord(d[s], j));
    }
    assert NewBlock(u0, d', u[w := true], DirectWord(d'[s], i));
  }

  lemma StoredAt(d: Disk, s: nat, w: nat, ofs: nat)
    requires s < |d| && w < |d| && w < WORD && s != w && ofs + 4 <= SECTOR_SIZE
    ensures var d' := StoreWord(d[w := Zeros()], s, ofs, w);
      && d'[w] == Zeros() && d'[s] == SetWord(d[s], ofs, w)
      && (forall t :: 0 <= t < |d| && t != s && t != w ==> d'[t] == d[t])
  {
    hide SetWord, Zeros;
  }

  lemma LaidBounds(d0: Disk, u0: seq<bool>, d: Disk, u: seq<bool>, s: nat, length: nat, i: nat)
    requires Laid(d0, u0, d, u, s, length, i)
    ensures |u| == |d| && s < |d| < WORD && u[0] && u[s]
  {
  }

  lemma LaidNext(d0: Disk, u0: seq<bool>, d: Disk, u: seq<bool>, s: nat, length: nat, i: nat)
    requires Laid(d0, u0, d, u, s, length, i) && i < DIRECT && FirstFree(u) < |u|
    requires |u| == |d| && s < |d| < WORD
    ensures var w := FirstFree(u);
      Laid(d0, u0, StoreWord(d[w := Zeros()], s, DIRECT_OFS + 4 * i, w), u[w := true], s, length, i + 1)
  {
    hide Laid, Word, DirectWord, SetWord, StoreWord, Zeros, FirstFree;
    LaidBounds(d0, u0, d, u, s, length, i);
    var w := FirstFree(u);
    var d' := StoreWord(d[w := Zeros()], s, DIRECT_OFS + 4 * i, w);
    StoredAt(d, s, w, DIRECT_OFS + 4 * i);
    WordSet(d[s], i, w);
    LaidStep(d0, u0, d, u, s, length, i, w, d');
  }

  /** inode_set_length, inode_set_is_dir and inode_set_magic on the new inode. */
  function Header(disk: Disk, s: nat, length: nat, isDir: nat, magic: nat): (disk': Disk)
    requires s < |disk| && length < WORD && isDir < WORD && magic < WORD
    ensures |disk'| == |disk|
  {
    StoreWord(StoreWord(StoreWord(disk, s, LENGTH_OFS, length), s, IS_DIR_OFS, isDir), s, MAGIC_OFS, magic)
  }

  lemma HeaderWord(d: Data, ofs: nat, w: nat, other: nat)
    requires w < WORD && ofs in {LENGTH_OFS, IS_DIR_OFS, MAGIC_OFS} && DIRECT_OFS <= other < MAGIC_OFS && other % 4 == 0
    ensures Word(SetWord(d, ofs, w), other) == Word(d, other)
  {
    OtherWordOfSetWord(d, ofs, w, other);
  }

  lemma HeaderKeeps(disk: Disk, s: nat, length: nat, isDir: nat, magic: nat, other: nat)
    requires s < |disk| && length < WORD && isDir < WORD && magic < WORD
    requires DIRECT_OFS <= other < MAGIC_OFS && other % 4 == 0
    ensures Word(Header(disk, s, length, isDir, magic)[s], other) == Word(disk[s], other)
  {
    var e1 := SetWord(disk[s], LENGTH_OFS, length);
    var e2 := SetWord(e1, IS_DIR_OFS, isDir);
    HeaderWord(disk[s], LENGTH_OFS, length, other);
    HeaderWord(e1, IS_DIR_OFS, isDir, other);
    HeaderWord(e2, MAGIC_OFS, magic, other);
  }

  lemma HeaderLength(disk: Disk, s: nat, length: nat, isDir: nat, magic: nat)
    requires s < |disk| && length < WORD && isDir < WORD && magic < WORD
    ensures Length(Header(disk, s, length, isDir, magic), s) == length
  {
    var e1 := SetWord(disk[s], LENGTH_OFS, length);
    var e2 := SetWord(e1, IS_DIR_OFS, isDir);
    DecodeEncode(length);
    assert e1[LENGTH_OFS..LENGTH_OFS + 4] == Encode(length);
    OtherWordOfSetWord(e1, IS_DIR_OFS, isDir, LENGTH_OFS);
    OtherWordOfSetWord(e2, MAGIC_OFS, magic, LENGTH_OFS);
  }

  /** After can_allocate and the header nothing is laid yet. */
  lemma HeaderLaid(d0: Disk, u0: seq<bool>, d: Disk, u: seq<bool>, s: nat, length: nat, isDir: nat, magic: nat)
    requires |d| == |d0| == |u0| && s < |d| < WORD && u0[s] && u0[0] && StillUsed(u0, u)
    requires forall t :: 0 <= t < |d| && u0[t] ==> d[t] == d0[t]
    requires length < WORD && isDir < WORD && magic < WORD
    ensures Laid(d0, u0, Header(d, s, length, isDir, magic), u, s, length, 0)
  {
    HeaderLength(d, s, length, isDir, magic);
    HeaderKeeps(d, s, length, isDir, magic, SINGLE_OFS);
    HeaderKeeps(d, s, length, isDir, magic, DOUBLE_OFS);
    forall j | 0 <= j < DIRECT ensures DirectWord(Header(d, s, length, isDir, magic)[s], j) == DirectWord(d[s], j) {
      HeaderKeeps(d, s, length, isDir, magic, DIRECT_OFS + 4 * j);
    }
  }

  // ---------- What the other files see ----------

  lemma LaidOther(d0: Disk, u0: seq<bool>, d: Disk, u: seq<bool>, files: set<nat>, s: nat, length: nat, i: nat, f: nat)
    requires Tree(d0, u0, files) && Reserved(d0, u0, files, s) && Laid(d0, u0, d, u, s, length, i)
    requires SamePtrs(d0, d, files) && f in files
    ensures SameFile(d0, d, f)
  {
    assert Live(d0, files, InodeAt(f));
    forall i, o | 0 <= i < MAX_BLOCKS && 0 <= o < SECTOR_SIZE && Ptr(d0, BlockAt(f, i)) != 0
      ensures BlockByte(d, f, i, o) == BlockByte(d0, f, i, o)
    {
      assert Live(d0, files, BlockAt(f, i));
    }
  }

  /** No file but the new one is touched, whatever its words were. */
  lemma LaidOthers(d0: Disk, u0: seq<bool>, d: Disk, u: seq<bool>, files: set<nat>, s: nat, length: nat, i: nat)
    requires Tree(d0, u0, files) && Reserved(d0, u0, files, s) && Laid(d0, u0, d, u, s, length, i)
    ensures Tree(d, u, files) && OthersSame(d0, d, files, s) && SamePtrs(d0, d, files)
  {
    forall q | Live(d0, files, q) && !q.BlockAt? ensures KeepsSector(d0, d, q, Ptr(d0, q)) {
    }
    KeptTree(d0, d, u0, files);
    assert forall p :: Live(d, files, p) <==> Live(d0, files, p);
    forall f | f in files && f != s ensures SameFile(d0, d, f) {
      LaidOther(d0, u0, d, u, files, s, length, i, f);
    }
  }

  // ---------- What the new file is ----------

  /** Its blocks are as they should be exactly when the words that stayed fit. */
  lemma LaidBlocks(d0: Disk, u0: seq<bool>, d: Disk, u: seq<bool>, s: nat, length: nat, n: nat)
    requires Laid(d0, u0, d, u, s, length, n)
    ensures BlocksOk(d, s, n) <==> WordsFit(d0[s], n)
    ensures forall i :: 0 <= i < n ==> ZeroBlock(d, s, i)
  {
    OwnPtrs(d, s);
    forall i | 0 <= i < n ensures ZeroBlock(d, s, i) && Ptr(d, BlockAt(s, i)) != 0 {
      assert NewBlock(u0, d, u, DirectWord(d[s], i));
    }
    if BlocksOk(d, s, n) {
      forall i | Max(1, n) <= i < DIRECT ensures DirectWord(d0[s], i) == 0 {
        assert Ptr(d, BlockAt(s, i)) == 0;
      }
    }
    if WordsFit(d0[s], n) {
      forall i | n <= i < MAX_BLOCKS && i > 0 ensures Ptr(d, BlockAt(s, i)) == 0 {
        if i < DIRECT { assert DirectWord(d[s], i) == DirectWord(d0[s], i); }
      }
    }
  }

  /** The places of the new file, and that nobody else has their sectors. */
  lemma LaidPlace(d0: Disk, u0: seq<bool>, d: Disk, u: seq<bool>, files: set<nat>, s: nat, length: nat, n: nat, p: Place)
    requires Tree(d0, u0, files) && Reserved(d0, u0, files, s) && Laid(d0, u0, d, u, s, length, n)
    requires Fits(d0, u0, files, s, n) && PlaceOk(p) && p.ino == s && (p.InodeAt? || Ptr(d, p) != 0)
    ensures p == InodeAt(s) || (p.BlockAt? && p.i < Max(1, n) && Ptr(d, p) == DirectWord(d[s], p.i))
    ensures Ptr(d, p) < |d| && u[Ptr(d, p)] && (p.BlockAt? ==> Ptr(d, p) != s)
    ensures forall q :: Live(d0, files, q) ==> Ptr(d0, q) != Ptr(d, p)
  {
    OldFitsWords(d0, s, n);
    OwnPtrs(d, s);
    if p.BlockAt? {
      LaidBlocks(d0, u0, d, u, s, length, n);
      if p.i < n {
        assert NewBlock(u0, d, u, DirectWord(d[s], p.i));
      } else {
        assert p.i == 0;
        assert DirectWord(d[s], 0) == DirectWord(d0[s], 0);
      }
    }
  }

  lemma LaidApart(d0: Disk, u0: seq<bool>, d: Disk, u: seq<bool>, files: set<nat>, s: nat, length: nat, n: nat, p: Place, q: Place)
    requires Tree(d0, u0, files) && Reserved(d0, u0, files, s) && Laid(d0, u0, d, u, s, length, n)
    requires Fits(d0, u0, files, s, n) && Live(d, files + {s}, p) && Live(d, files + {s}, q) && p != q
    requires SamePtrs(d0, d, files)
    ensures Ptr(d, p) != Ptr(d, q)
  {
    if p.ino == s { LaidPlace(d0, u0, d, u, files, s, length, n, p); }
    if q.ino == s { LaidPlace(d0, u0, d, u, files, s, length, n, q); }
    assert p.ino != s ==> Live(d0, files, p);
    assert q.ino != s ==> Live(d0, files, q);
  }

  lemma LaidTree(d0: Disk, u0: seq<bool>, d: Disk, u: seq<bool>, files: set<nat>, s: nat, length: nat, n: nat)
    requires Tree(d0, u0, files) && Reserved(d0, u0, files, s) && Laid(d0, u0, d, u, s, length, n)
    requires Fits(d0, u0, files, s, n)
    ensures Tree(d, u, files + {s})
  {
    LaidOthers(d0, u0, d, u, files, s, length, n);
    hide Laid, Fits, Reserved;
    forall p | Live(d, files + {s}, p) ensures Ptr(d, p) < |d| && u[Ptr(d, p)] {
      if p.ino == s {
        LaidPlace(d0, u0, d, u, files, s, length, n, p);
      } else {
        assert Live(d, files, p);
      }
    }
    forall p, q | Live(d, files + {s}, p) && Live(d, files + {s}, q) && p != q ensures Ptr(d, p) != Ptr(d, q) {
      LaidApart(d0, u0, d, u, files, s, length, n, p, q);
    }
  }

  /** In a tree the first pointer leads nowhere or to a sector of nobody else. */
  lemma FirstPointerFits(d0: Disk, u0: seq<bool>, d: Disk, u: seq<bool>, files: set<nat>, s: nat, length: nat)
    requires Tree(d0, u0, files) && Reserved(d0, u0, files, s) && Laid(d0, u0, d, u, s, length, 0) && u == u0
    requires WordsFit(d0[s], 0) && Tree(d, u, files + {s})
    ensures Fits(d0, u0, files, s, 0)
  {
    OldFitsWords(d0, s, 0);
    OwnPtrs(d, s);
    LaidOthers(d0, u0, d, u, files, s, length, 0);
    var w := DirectWord(d0[s], 0);
    if w != 0 {
      assert Live(d, files + {s}, BlockAt(s, 0)) && Live(d, files + {s}, InodeAt(s));
      forall p | Live(d0, files, p) ensures Ptr(d0, p) != w {
        assert Live(d, files + {s}, p);
      }
      assert Live(d0, files, InodeAt(w)) <==> w in files;
    }
  }

  /** A file all of whose blocks are new reads as zeros. */
  lemma NewFile(d0: Disk, d: Disk, ino: nat)
    requires ino < |d0| && Length(d0, ino) <= MAX_BYTES && Extended(d0, d, ino, 0, Blocks(Length(d0, ino)))
    ensures FileOk(d, ino) && Content(d, ino) == Padded([], Length(d0, ino))
  {
    var n := Length(d0, ino);
    forall i, o | 0 <= i < Blocks(n) && 0 <= o < SECTOR_SIZE ensures BlockByte(d, ino, i, o) == 0 {
      assert ZeroBlock(d, ino, i);
    }
    var c := Content(d, ino);
    forall pos | 0 <= pos < n ensures c[pos] == 0 {
      assert pos / SECTOR_SIZE < Blocks(n);
      assert c[pos] == ByteOf(d, ino, pos);
    }
  }

  /** What creating a file of `length` bytes at `s` has done: when its inode is well formed,
      when it is also a file of its own among the others, what it then contains, and that the
      others are as before. */
  ghost predicate Created(d0: Disk, u0: seq<bool>, d: Disk, u: seq<bool>, files: set<nat>, s: nat, length: nat) {
    && s < |d0| == |d|
    && (FileOk(d, s) <==> OldFits(d0, s, Blocks(length)))
    && (Valid(d, u, files + {s}) <==> Fits(d0, u0, files, s, Blocks(length)))
    && (FileOk(d, s) ==> Content(d, s) == Padded([], length))
    && Valid(d, u, files) && OthersKeep(d0, d, files, s)
    && StillUsed(u0, u) && FromFree(u0, d, s, Blocks(length)) && Length(d, s) == length
    && (forall i :: Blocks(length) <= i < DIRECT ==> Ptr(d, BlockAt(s, i)) == Ptr(d0, BlockAt(s, i)))
  }

  /** The first `n` blocks of `s` were free before. */
  ghost predicate FromFree(u0: seq<bool>, d: Disk, s: nat, n: nat) {
    forall i :: 0 <= i < n && i < MAX_BLOCKS ==> 0 < Ptr(d, BlockAt(s, i)) < |u0| && !u0[Ptr(d, BlockAt(s, i))]
  }

  lemma LaidFromFree(d0: Disk, u0: seq<bool>, d: Disk, u: seq<bool>, s: nat, length: nat, n: nat)
    requires Laid(d0, u0, d, u, s, length, n)
    ensures FromFree(u0, d, s, n)
  {
    OwnPtrs(d, s);
    forall i | 0 <= i < n ensures 0 < Ptr(d, BlockAt(s, i)) < |u0| && !u0[Ptr(d, BlockAt(s, i))] {
      assert NewBlock(u0, d, u, DirectWord(d[s], i));
    }
  }

  lemma CreatedExactly(d0: Disk, u0: seq<bool>, d: Disk, u: seq<bool>, files: set<nat>, s: nat, length: nat)
    requires Valid(d0, u0, files) && Reserved(d0, u0, files, s) && Blocks(length) <= DIRECT
    requires Laid(d0, u0, d, u, s, length, Blocks(length)) && (Blocks(length) == 0 ==> u == u0)
    ensures Created(d0, u0, d, u, files, s, length)
  {
    var n := Blocks(length);
    LaidBlocks(d0, u0, d, u, s, length, n);
    LaidOthers(d0, u0, d, u, files, s, length, n);
    LaidFromFree(d0, u0, d, u, s, length, n);
    OwnPtrs(d0, s);
    OwnPtrs(d, s);
    OldFitsWords(d0, s, n);
    OthersContent(d0, d, files, s);
    if WordsFit(d0[s], n) {
      assert Extended(d, d, s, 0, n);
      NewFile(d, d, s);
      if Fits(d0, u0, files, s, n) {
        LaidTree(d0, u0, d, u, files, s, length, n);
      }
      if n == 0 && Tree(d, u, files + {s}) {
        FirstPointerFits(d0, u0, d, u, files, s, length);
      }
    }
  }

  lemma {:induction false} DirectNeeded(n: nat)
    requires n <= DIRECT
    ensures Needed(0, n) == n
  {
    if n > 0 { DirectNeeded(n - 1); }
  }

  /** A creation that can_allocate refuses touches no file. */
  lemma CreateFails(d0: Disk, u0: seq<bool>, d: Disk, u: seq<bool>, files: set<nat>, s: nat)
    requires Valid(d0, u0, files) && |d| == |d0| && StillUsed(u0, u)
    requires forall t :: 0 <= t < |d0| && u0[t] ==> d[t] == d0[t]
    ensures Valid(d, u, files) && OthersKeep(d0, d, files, s)
  {
    UsedKept(d0, u0, d, u, files);
    OthersContent(d0, d, files, s);
    forall f | f in files ensures FileOk(d, f) {
      SameContent(d0, d, f);
    }
  }
}
