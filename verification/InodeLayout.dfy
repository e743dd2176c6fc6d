/** Where an inode keeps its pointers: twelve direct ones, a single and a double
    indirect index, all as little-endian words inside sectors of the disk. */
module InodeLayout {
  import opened Storage

  const DIRECT: nat := 12
  const INDIRECT: nat := 128                 // pointers in one index sector
  const MAX_BLOCKS: nat := DIRECT + INDIRECT * (1 + INDIRECT)
  const MAX_BYTES: nat := MAX_BLOCKS * SECTOR_SIZE

  const LENGTH_OFS: nat := 0
  const IS_DIR_OFS: nat := 4
  const DIRECT_OFS: nat := 8
  const SINGLE_OFS: nat := 8 + 4 * DIRECT
  const DOUBLE_OFS: nat := 8 + 4 * DIRECT + 4
  const MAGIC_OFS: nat := 8 + 4 * DIRECT + 8

  /** zero_block. */
  function Zeros(): (d: Data)
    ensures forall o :: 0 <= o < SECTOR_SIZE ==> d[o] == 0
  {
    seq(SECTOR_SIZE, _ => 0)
  }

  // ---------- Words ----------

  /** The word at byte offset `ofs` of a sector. */
  function Word(d: Data, ofs: nat): (w: nat)
    requires ofs + 4 <= SECTOR_SIZE
    ensures w < WORD
  {
    Decode(d[ofs..ofs + 4])
  }

  function SetWord(d: Data, ofs: nat, w: nat): Data
    requires ofs + 4 <= SECTOR_SIZE && w < WORD
  {
    Patch(d, ofs, Encode(w))
  }

  lemma OtherWordOfSetWord(d: Data, ofs: nat, w: nat, other: nat)
    requires ofs + 4 <= SECTOR_SIZE && other + 4 <= SECTOR_SIZE && w < WORD
    requires other + 4 <= ofs || ofs + 4 <= other
    ensures Word(SetWord(d, ofs, w), other) == Word(d, other)
  {
    assert SetWord(d, ofs, w)[other..other + 4] == d[other..other + 4];
  }

  lemma WordOfZeros(ofs: nat)
    requires ofs + 4 <= SECTOR_SIZE
    ensures Word(Zeros(), ofs) == 0
  {
  }

  // ---------- Places ----------

  /** Everything a file can own on disk. */
  datatype Place =
    | InodeAt(ino: nat)
    | SingleAt(ino: nat)
    | DoubleAt(ino: nat)
    | IndexAt(ino: nat, k: nat)
    | BlockAt(ino: nat, i: nat)

  predicate PlaceOk(p: Place) {
    match p
    case IndexAt(_, k) => k < INDIRECT
    case BlockAt(_, i) => i < MAX_BLOCKS
    case _ => true
  }

  /** The place whose sector holds the pointer to `p`. */
  function Parent(p: Place): (q: Place)
    requires PlaceOk(p) && !p.InodeAt?
    ensures PlaceOk(q) && !q.BlockAt? && q.ino == p.ino
  {
    match p
    case SingleAt(ino) => InodeAt(ino)
    case DoubleAt(ino) => InodeAt(ino)
    case IndexAt(ino, _) => DoubleAt(ino)
    case BlockAt(ino, i) =>
      if i < DIRECT then InodeAt(ino)
      else if i < DIRECT + INDIRECT then SingleAt(ino)
      else IndexAt(ino, (i - DIRECT - INDIRECT) / INDIRECT)
  }

  /** The byte offset of that pointer. */
  function PtrOfs(p: Place): (ofs: nat)
    requires PlaceOk(p) && !p.InodeAt?
    ensures ofs + 4 <= SECTOR_SIZE && ofs % 4 == 0 && (Parent(p).InodeAt? ==> 8 <= ofs < MAGIC_OFS)
  {
    match p
    case SingleAt(_) => SINGLE_OFS
    case DoubleAt(_) => DOUBLE_OFS
    case IndexAt(_, k) => 4 * k
    case BlockAt(_, i) =>
      if i < DIRECT then DIRECT_OFS + 4 * i
      else if i < DIRECT + INDIRECT then 4 * (i - DIRECT)
      else 4 * ((i - DIRECT - INDIRECT) % INDIRECT)
  }

  /** Two pointers in the same sector stand at different offsets. */
  lemma PtrOfsInjective(p: Place, q: Place)
    requires PlaceOk(p) && PlaceOk(q) && !p.InodeAt? && !q.InodeAt?
    requires Parent(p) == Parent(q) && PtrOfs(p) == PtrOfs(q)
    ensures p == q
  {
  }

  predicate IsIndex(p: Place) {
    p.SingleAt? || p.DoubleAt? || p.IndexAt?
  }

  /** The first block whose pointer is at `p` or below it. */
  function First(p: Place): nat
    requires PlaceOk(p) && !p.InodeAt?
  {
    match p
    case SingleAt(_) => DIRECT
    case DoubleAt(_) => DIRECT + INDIRECT
    case IndexAt(_, k) => DIRECT + INDIRECT * (1 + k)
    case BlockAt(_, i) => i
  }

  function Depth(p: Place): nat {
    match p
    case InodeAt(_) => 0
    case SingleAt(_) => 1
    case DoubleAt(_) => 1
    case IndexAt(_, _) => 2
    case BlockAt(_, _) => 3
  }

  /** The sector at place `p`, or 0 when nothing is installed there. */
  function Ptr(disk: seq<Data>, p: Place): (s: nat)
    requires PlaceOk(p)
    decreases Depth(p)
  {
    if p.InodeAt? then p.ino
    else
      var q := Parent(p);
      var at := Ptr(disk, q);
      if (at == 0 && !q.InodeAt?) || at >= |disk| then 0 else Word(disk[at], PtrOfs(p))
  }
}
