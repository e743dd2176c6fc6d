/** The allocator's state and its invariant: which blocks are free, which are handed out,
    and which pages hold them. */
module MallocHeap {
  import opened Counting
  import opened Lists
  import opened Storage
  import opened MallocLayout
  import opened Bitmap

  /** An arena header: the descriptor and the free count, or the pages of a big block. */
  datatype Arena = Small(desc: nat, cnt: nat) | Big(cnt: nat)

  /** The page pool from page `base` on, one bit per page; the descriptors' free lists; the
      arena headers by page; and the blocks handed out with the bytes each has. */
  datatype Heap = Heap(base: nat, used: seq<bool>, free: seq<seq<int>>, arenas: map<nat, Arena>, live: map<int, nat>)

  ghost function Pages(a: Arena): nat {
    if a.Small? then 1 else a.cnt
  }

  /** Which blocks of the arena in page `k` are on the free list `free`. */
  ghost function FreeFlags(free: seq<int>, k: nat, d: nat): (b: seq<bool>)
    ensures |b| == BlocksPerArena(d)
  {
    seq(BlocksPerArena(d), i requires 0 <= i => BlockAddr(k, d, i) in free)
  }

  ghost predicate PagesUsed(h: Heap, k: nat, n: nat) {
    && h.base <= k && k + n <= h.base + |h.used|
    && (forall j :: k - h.base <= j < k - h.base + n ==> h.used[j])
  }

  ghost predicate SmallOk(h: Heap, k: nat, d: nat, cnt: nat) {
    && d < |h.free| == DESC_COUNT
    && cnt == Count(FreeFlags(h.free[d], k, d))
    && (forall i :: 0 <= i < BlocksPerArena(d) ==> (BlockAddr(k, d, i) in h.free[d] <==> BlockAddr(k, d, i) !in h.live))
  }

  ghost predicate BigOk(h: Heap, k: nat, n: nat) {
    n >= 1 && HeadAddr(k) in h.live
  }

  ghost predicate ArenaOk(h: Heap, k: nat)
    requires k in h.arenas
  {
    && PagesUsed(h, k, Pages(h.arenas[k]))
    && (match h.arenas[k]
        case Small(d, cnt) => SmallOk(h, k, d, cnt)
        case Big(n) => BigOk(h, k, n))
  }

  /** `a` is a block of an arena of descriptor `d`. */
  ghost predicate IsBlock(h: Heap, a: int, d: nat) {
    && PageOf(a) >= 0 && PageOf(a) in h.arenas && h.arenas[PageOf(a)].Small? && h.arenas[PageOf(a)].desc == d
    && 0 <= IndexOf(a, d) < BlocksPerArena(d) && a == BlockAddr(PageOf(a), d, IndexOf(a, d))
  }

  ghost predicate FreeOk(h: Heap, d: nat)
    requires d < |h.free|
  {
    NoDup(h.free[d]) && forall a :: a in h.free[d] ==> IsBlock(h, a, d)
  }

  ghost predicate LiveOk(h: Heap, a: int)
    requires a in h.live
  {
    && PageOf(a) >= 0 && PageOf(a) in h.arenas
    && (match h.arenas[PageOf(a)]
        case Small(d, _) => IsBlock(h, a, d) && h.live[a] == BlockSize(d)
        case Big(n) => a == HeadAddr(PageOf(a)) && h.live[a] == n * PAGE_SIZE - HEADER_SIZE)
  }

  ghost predicate Apart(h: Heap) {
    forall k, l :: k in h.arenas && l in h.arenas && k < l ==> k + Pages(h.arenas[k]) <= l
  }

  /** What holds at every step, also while an arena is entirely free. */
  ghost predicate Steady(h: Heap) {
    && h.base >= 1 && |h.free| == DESC_COUNT && Apart(h)
    && (forall k :: k in h.arenas ==> ArenaOk(h, k))
    && (forall d :: 0 <= d < DESC_COUNT ==> FreeOk(h, d))
    && (forall a :: a in h.live ==> LiveOk(h, a))
  }

  /** Between calls no arena is entirely free: such a one has been given back. */
  ghost predicate Valid(h: Heap) {
    Steady(h) && forall k :: k in h.arenas && h.arenas[k].Small? ==> h.arenas[k].cnt < BlocksPerArena(h.arenas[k].desc)
  }

  // ---------- What the invariant is for ----------

  /** Blocks that are handed out do not overlap, and none begins at a null address. */
  lemma LiveDisjoint(h: Heap, a: int, b: int)
    requires Steady(h) && a in h.live && b in h.live && a != b
    ensures a > 0 && (a + h.live[a] <= b || b + h.live[b] <= a)
  {
    assert LiveOk(h, a) && LiveOk(h, b);
    LiveInArena(h, a);
    LiveInArena(h, b);
    var k, l := PageOf(a), PageOf(b);
    if k == l {
      if h.arenas[k].Small? {
        var d := h.arenas[k].desc;
        BlocksApart(k, k, d, IndexOf(a, d), IndexOf(b, d));
      }
    } else {
      assert ArenaOk(h, k) && ArenaOk(h, l);
    }
  }

  /** A block lies in the pages of its own arena, behind the header. */
  lemma LiveInArena(h: Heap, a: int)
    requires Steady(h) && a in h.live
    ensures PageOf(a) in h.arenas
    ensures var k := PageOf(a);
      k * PAGE_SIZE + HEADER_SIZE <= a && a + h.live[a] <= (k + Pages(h.arenas[k])) * PAGE_SIZE && k >= h.base
  {
    assert LiveOk(h, a);
    var k := PageOf(a);
    assert ArenaOk(h, k);
    if h.arenas[k].Small? {
      BlockInPage(h.arenas[k].desc, IndexOf(a, h.arenas[k].desc));
    }
  }

  // ---------- Taking a block from a free list ----------

  function Taken(h: Heap, d: nat): (h': Heap)
    requires d < |h.free| && h.free[d] != [] && PageOf(h.free[d][0]) in h.arenas
    requires var x := h.arenas[PageOf(h.free[d][0])]; x.Small? && x.cnt > 0
  {
    var b, k := h.free[d][0], PageOf(h.free[d][0]);
    h.(free := h.free[d := h.free[d][1..]], arenas := h.arenas[k := Small(d, h.arenas[k].cnt - 1)],
       live := h.live[b := BlockSize(d)])
  }

  /** The first block of a list, where it is and that it counts. */
  lemma FirstFree(h: Heap, d: nat)
    requires Steady(h) && d < DESC_COUNT && h.free[d] != []
    ensures var b := h.free[d][0];
      && IsBlock(h, b, d) && h.arenas[PageOf(b)].cnt > 0 && b !in h.live
  {
    var b := h.free[d][0];
    assert FreeOk(h, d) && b in h.free[d];
    var k, i := PageOf(b), IndexOf(b, d);
    assert ArenaOk(h, k);
    CountPositive(FreeFlags(h.free[d], k, d), i);
  }

  /** A block is known by its address alone. */
  lemma SameBlock(k: nat, l: nat, d: nat, i: nat, j: nat)
    requires i < BlocksPerArena(d) && j < BlocksPerArena(d) && BlockAddr(k, d, i) == BlockAddr(l, d, j)
    ensures k == l && i == j
  {
    BlockToArena(k, d, i);
    BlockToArena(l, d, j);
  }

  /** Removing or adding block `b` of page `k` changes one flag of `k` and none elsewhere. */
  lemma FlagsChange(xs: seq<int>, ys: seq<int>, b: int, k: nat, d: nat, i: nat, l: nat, on: bool)
    requires i < BlocksPerArena(d) && b == BlockAddr(k, d, i)
    requires forall x :: x != b ==> (x in xs <==> x in ys)
    requires b in ys <==> on
    ensures FreeFlags(ys, l, d) == if l == k then FreeFlags(xs, l, d)[i := on] else FreeFlags(xs, l, d)
  {
    forall j | 0 <= j < BlocksPerArena(d)
      ensures FreeFlags(ys, l, d)[j] == if l == k && j == i then on else FreeFlags(xs, l, d)[j]
    {
      if BlockAddr(l, d, j) == b { SameBlock(k, l, d, i, j); }
    }
  }

  /** One block of page `k` has moved between the free list of `d` and the blocks in use;
      everything else is as before. */
  ghost predicate Moved(h: Heap, h': Heap, d: nat, k: nat, i: nat, toFree: bool) {
    && i < BlocksPerArena(d) && d < DESC_COUNT && k in h.arenas && h.arenas[k].Small? && h.arenas[k].desc == d
    && h'.base == h.base && h'.used == h.used && |h'.free| == |h.free| == DESC_COUNT
    && (forall e :: 0 <= e < DESC_COUNT && e != d ==> h'.free[e] == h.free[e])
    && h'.arenas.Keys == h.arenas.Keys && (forall l :: l in h.arenas && l != k ==> h'.arenas[l] == h.arenas[l])
    && h'.arenas[k].Small? && h'.arenas[k].desc == d
    && h'.arenas[k].cnt == h.arenas[k].cnt + (if toFree then 1 else -1)
    && var b := BlockAddr(k, d, i);
      && (forall x :: x != b ==> (x in h'.free[d] <==> x in h.free[d]))
      && (forall x :: x != b ==> (x in h'.live <==> x in h.live) && (x in h.live ==> h'.live[x] == h.live[x]))
      && (b in h.free[d] <==> !toFree) && (b in h'.free[d] <==> toFree)
      && (b in h.live <==> toFree) && (b in h'.live <==> !toFree)
      && (!toFree ==> h'.live[b] == BlockSize(d))
      && NoDup(h'.free[d])
  }

  lemma MovedArena(h: Heap, h': Heap, d: nat, k: nat, i: nat, toFree: bool, l: nat)
    requires Steady(h) && Moved(h, h', d, k, i, toFree) && l in h.arenas
    ensures ArenaOk(h', l)
  {
    assert ArenaOk(h, l) && ArenaOk(h, k);
    var b := BlockAddr(k, d, i);
    BlockToArena(k, d, i);
    HeadToArena(l);
    match h.arenas[l]
    case Big(n) =>
    case Small(e, _) =>
      if e == d {
        FlagsChange(h.free[d], h'.free[d], b, k, d, i, l, toFree);
        if l == k { CountUpdate(FreeFlags(h.free[d], k, d), i, toFree); }
        MovedBlocks(h, h', d, k, i, toFree, l);
      } else {
        forall j | 0 <= j < BlocksPerArena(e) ensures BlockAddr(l, e, j) != b { BlockToArena(l, e, j); }
      }
  }

  lemma MovedBlocks(h: Heap, h': Heap, d: nat, k: nat, i: nat, toFree: bool, l: nat)
    requires Moved(h, h', d, k, i, toFree) && l in h.arenas && h.arenas[l].Small? && h.arenas[l].desc == d
    requires forall j :: 0 <= j < BlocksPerArena(d) ==>
               (BlockAddr(l, d, j) in h.free[d] <==> BlockAddr(l, d, j) !in h.live)
    ensures forall j :: 0 <= j < BlocksPerArena(d) ==>
              (BlockAddr(l, d, j) in h'.free[d] <==> BlockAddr(l, d, j) !in h'.live)
  {
  }

  lemma MovedFree(h: Heap, h': Heap, d: nat, k: nat, i: nat, toFree: bool, e: nat)
    requires Steady(h) && Moved(h, h', d, k, i, toFree) && e < DESC_COUNT
    ensures FreeOk(h', e)
  {
    BlockToArena(k, d, i);
    hide BlockAddr, IndexOf, PageOf, OffsetOf, ArenaOk, LiveOk;
    assert FreeOk(h, e);
    forall a | a in h'.free[e] ensures IsBlock(h', a, e) {
      assert a in h.free[e] || a == BlockAddr(k, d, i);
    }
  }

  lemma MovedLive(h: Heap, h': Heap, d: nat, k: nat, i: nat, toFree: bool, a: int)
    requires Moved(h, h', d, k, i, toFree) && a in h'.live && (a in h.live ==> LiveOk(h, a))
    ensures LiveOk(h', a)
  {
    BlockToArena(k, d, i);
    hide BlockAddr, IndexOf, PageOf, OffsetOf, NoDup;
  }

  lemma MovedSteady(h: Heap, h': Heap, d: nat, k: nat, i: nat, toFree: bool)
    requires Steady(h) && Moved(h, h', d, k, i, toFree)
    ensures Steady(h')
  {
    hide ArenaOk, FreeOk, LiveOk;
    forall l | l in h'.arenas ensures ArenaOk(h', l) { MovedArena(h, h', d, k, i, toFree, l); }
    forall e | 0 <= e < DESC_COUNT ensures FreeOk(h', e) { MovedFree(h, h', d, k, i, toFree, e); }
    forall a | a in h'.live ensures LiveOk(h', a) { MovedLive(h, h', d, k, i, toFree, a); }
  }

  lemma TakenMoved(h: Heap, d: nat)
    requires Steady(h) && d < DESC_COUNT && h.free[d] != []
    requires IsBlock(h, h.free[d][0], d) && h.arenas[PageOf(h.free[d][0])].cnt > 0 && h.free[d][0] !in h.live
    ensures Moved(h, Taken(h, d), d, PageOf(h.free[d][0]), IndexOf(h.free[d][0], d), false)
  {
    hide BlockAddr, IndexOf, PageOf, OffsetOf, ArenaOk, LiveOk;
    var b := h.free[d][0];
    assert FreeOk(h, d);
    assert h.free[d] == [b] + h.free[d][1..];
  }

  lemma TakenSteady(h: Heap, d: nat)
    requires Steady(h) && d < DESC_COUNT && h.free[d] != []
    ensures IsBlock(h, h.free[d][0], d) && h.arenas[PageOf(h.free[d][0])].cnt > 0 && h.free[d][0] !in h.live
    ensures Steady(Taken(h, d))
  {
    FirstFree(h, d);
    TakenMoved(h, d);
    var b := h.free[d][0];
    hide Steady, Moved;
    MovedSteady(h, Taken(h, d), d, PageOf(b), IndexOf(b, d), false);
  }

  // ---------- Putting a block back ----------

  function Given(h: Heap, b: int): (h': Heap)
    requires PageOf(b) in h.arenas && h.arenas[PageOf(b)].Small? && h.arenas[PageOf(b)].desc < |h.free|
  {
    var k := PageOf(b);
    var d := h.arenas[k].desc;
    h.(free := h.free[d := [b] + h.free[d]], arenas := h.arenas[k := Small(d, h.arenas[k].cnt + 1)],
       live := h.live - {b})
  }

  lemma GivenSteady(h: Heap, b: int)
    requires Steady(h) && b in h.live && PageOf(b) in h.arenas && h.arenas[PageOf(b)].Small?
    ensures h.arenas[PageOf(b)].desc < DESC_COUNT && Steady(Given(h, b))
  {
    var k := PageOf(b);
    var d := h.arenas[k].desc;
    assert LiveOk(h, b) && ArenaOk(h, k) && FreeOk(h, d);
    GivenMoved(h, b, k, d);
    hide Steady, Moved;
    MovedSteady(h, Given(h, b), d, k, IndexOf(b, d), true);
  }

  lemma GivenMoved(h: Heap, b: int, k: nat, d: nat)
    requires Steady(h) && b in h.live && k == PageOf(b) && d < DESC_COUNT && IsBlock(h, b, d) && ArenaOk(h, k)
    ensures Moved(h, Given(h, b), d, k, IndexOf(b, d), true)
  {
    hide BlockAddr, IndexOf, PageOf, OffsetOf, LiveOk;
    assert FreeOk(h, d);
  }

  // ---------- A new arena ----------

  ghost function AllBlocks(k: nat, d: nat, n: nat): (xs: seq<int>)
    ensures |xs| == n
  {
    seq(n, i requires 0 <= i => BlockAddr(k, d, i))
  }

  /** The state once page `k` has been taken and cut into blocks. */
  ghost function Cut(h: Heap, k: nat, d: nat): (h': Heap)
    requires d < |h.free| && h.base <= k < h.base + |h.used|
  {
    h.(used := Range(h.used, k - h.base, 1, true), free := h.free[d := h.free[d] + AllBlocks(k, d, BlocksPerArena(d))],
       arenas := h.arenas[k := Small(d, BlocksPerArena(d))])
  }

  /** A page that is not in use holds no arena, no free block and no block in use. */
  lemma UnusedPage(h: Heap, k: nat)
    requires Steady(h) && h.base <= k < h.base + |h.used| && !h.used[k - h.base]
    ensures k !in h.arenas
    ensures forall l :: l in h.arenas ==> l + Pages(h.arenas[l]) <= k || k < l
    ensures forall d, i :: 0 <= d < DESC_COUNT && 0 <= i < BlocksPerArena(d) ==> BlockAddr(k, d, i) !in h.live
    ensures forall d, i :: 0 <= d < DESC_COUNT && 0 <= i < BlocksPerArena(d) ==> BlockAddr(k, d, i) !in h.free[d]
    ensures HeadAddr(k) !in h.live
  {
    forall l | l in h.arenas ensures l + Pages(h.arenas[l]) <= k || k < l { assert ArenaOk(h, l); }
    assert k in h.arenas ==> ArenaOk(h, k);
    forall d, i | 0 <= d < DESC_COUNT && 0 <= i < BlocksPerArena(d)
      ensures BlockAddr(k, d, i) !in h.live && BlockAddr(k, d, i) !in h.free[d]
    {
      NotThere(h, k, d, BlockAddr(k, d, i)) by { BlockToArena(k, d, i); }
    }
    HeadToArena(k);
    NotThere(h, k, 0, HeadAddr(k));
  }

  lemma NotThere(h: Heap, k: nat, d: nat, a: int)
    requires Steady(h) && d < DESC_COUNT && k !in h.arenas && PageOf(a) == k
    ensures a !in h.live && a !in h.free[d]
  {
    hide PageOf, IndexOf, BlockAddr;
    assert FreeOk(h, d);
    assert a in h.live ==> LiveOk(h, a);
  }

  lemma AllBlocksOk(k: nat, d: nat)
    ensures var xs := AllBlocks(k, d, BlocksPerArena(d));
      && NoDup(xs)
      && (forall a :: a in xs ==>
            PageOf(a) == k && 0 <= IndexOf(a, d) < BlocksPerArena(d) && a == BlockAddr(k, d, IndexOf(a, d)))
      && (forall i :: 0 <= i < BlocksPerArena(d) ==> BlockAddr(k, d, i) in xs)
  {
    var n := BlocksPerArena(d);
    var xs := AllBlocks(k, d, n);
    forall i, j | 0 <= i < j < n ensures xs[i] != xs[j] { BlocksApart(k, k, d, i, j); }
    forall a | a in xs
      ensures PageOf(a) == k && 0 <= IndexOf(a, d) < n && a == BlockAddr(k, d, IndexOf(a, d))
    {
      var i :| 0 <= i < n && xs[i] == a;
      BlockToArena(k, d, i);
    }
    forall i | 0 <= i < n ensures BlockAddr(k, d, i) in xs { assert xs[i] == BlockAddr(k, d, i); }
  }

  lemma CutArena(h: Heap, k: nat, d: nat, l: nat)
    requires Steady(h) && d < DESC_COUNT && h.base <= k < h.base + |h.used| && !h.used[k - h.base]
    requires l in h.arenas && l != k
    ensures ArenaOk(Cut(h, k, d), l)
  {
    var h' := Cut(h, k, d);
    AllBlocksOk(k, d);
    assert ArenaOk(h, l);
    if h.arenas[l].Small? && h.arenas[l].desc == d {
      forall i | 0 <= i < BlocksPerArena(d) ensures BlockAddr(l, d, i) in h'.free[d] <==> BlockAddr(l, d, i) in h.free[d] {
        BlockToArena(l, d, i);
      }
      assert FreeFlags(h'.free[d], l, d) == FreeFlags(h.free[d], l, d);
    }
  }

  lemma CutOwn(h: Heap, k: nat, d: nat)
    requires Steady(h) && d < DESC_COUNT && h.base <= k < h.base + |h.used| && !h.used[k - h.base]
    ensures ArenaOk(Cut(h, k, d), k)
  {
    var h' := Cut(h, k, d);
    AllBlocksOk(k, d);
    UnusedPage(h, k);
    CountAll(FreeFlags(h'.free[d], k, d));
  }

  lemma CutFree(h: Heap, k: nat, d: nat, e: nat)
    requires Steady(h) && d < DESC_COUNT && e < DESC_COUNT && h.base <= k < h.base + |h.used| && !h.used[k - h.base]
    ensures FreeOk(Cut(h, k, d), e)
  {
    UnusedPage(h, k);
    AllBlocksOk(k, d);
    assert FreeOk(h, e);
    hide Steady, AllBlocks, PageOf, IndexOf, BlockAddr, FreeOk, NoDup;
    ListCut(h, Cut(h, k, d), k, d, e, AllBlocks(k, d, BlocksPerArena(d)));
  }

  lemma ListCut(h: Heap, h': Heap, k: nat, d: nat, e: nat, ys: seq<int>)
    requires |h.free| == |h'.free| == DESC_COUNT && d < DESC_COUNT && e < DESC_COUNT && FreeOk(h, e) && NoDup(ys)
    requires k !in h.arenas && h'.arenas == h.arenas[k := Small(d, BlocksPerArena(d))]
    requires h'.free[e] == if e == d then h.free[d] + ys else h.free[e]
    requires forall a :: a in ys ==>
               PageOf(a) == k && 0 <= IndexOf(a, d) < BlocksPerArena(d) && a == BlockAddr(k, d, IndexOf(a, d))
    ensures FreeOk(h', e)
  {
    hide PageOf, IndexOf, BlockAddr, BlocksPerArena, NoDup;
    forall a | a in h'.free[e] ensures IsBlock(h', a, e) {
      if a in h.free[e] { assert IsBlock(h, a, e); }
    }
    if e == d {
      forall a | a in h.free[d] ensures a !in ys { assert IsBlock(h, a, d); }
      NoDupConcat(h.free[d], ys);
    }
  }

  lemma CutSteady(h: Heap, k: nat, d: nat)
    requires Steady(h) && d < DESC_COUNT && h.base <= k < h.base + |h.used| && !h.used[k - h.base]
    ensures Steady(Cut(h, k, d)) && k !in h.arenas
  {
    var h' := Cut(h, k, d);
    UnusedPage(h, k);
    hide ArenaOk, FreeOk, LiveOk, PageOf, IndexOf, BlockAddr, HeadAddr, AllBlocks, Apart;
    forall l | l in h'.arenas ensures ArenaOk(h', l) { if l == k { CutOwn(h, k, d); } else { CutArena(h, k, d, l); } }
    forall e | 0 <= e < DESC_COUNT ensures FreeOk(h', e) { CutFree(h, k, d, e); }
    forall a | a in h'.live ensures LiveOk(h', a) { assert LiveOk(h, a); CutLive(h, h', k, a); }
  }

  lemma CutLive(h: Heap, h': Heap, k: nat, a: int)
    requires a in h.live && LiveOk(h, a) && h'.live == h.live
    requires k !in h.arenas && k in h'.arenas && h'.arenas == h.arenas[k := h'.arenas[k]]
    ensures LiveOk(h', a)
  {
    hide PageOf, IndexOf, BlockAddr, HeadAddr;
  }

  // ---------- An arena given back ----------

  /** Page `k`, an arena of descriptor `d` with every block free, has been given back with
      its blocks taken off the free list. */
  ghost predicate Released(h: Heap, h': Heap, k: nat, d: nat) {
    && d < |h.free| && k in h.arenas && h.arenas[k] == Small(d, BlocksPerArena(d)) && h.base <= k < h.base + |h.used|
    && h'.base == h.base && h'.used == Range(h.used, k - h.base, 1, false)
    && h'.arenas == h.arenas - {k} && h'.live == h.live && |h'.free| == |h.free|
    && (forall e :: 0 <= e < |h.free| && e != d ==> h'.free[e] == h.free[e])
    && NoDup(h'.free[d]) && (forall a :: a in h'.free[d] <==> a in h.free[d] && PageOf(a) != k)
  }

  lemma ReleasedNoneLive(h: Heap, k: nat, d: nat, a: int)
    requires Steady(h) && d < DESC_COUNT && k in h.arenas && h.arenas[k] == Small(d, BlocksPerArena(d)) && a in h.live
    ensures PageOf(a) != k
  {
    assert ArenaOk(h, k) && LiveOk(h, a);
    CountAll(FreeFlags(h.free[d], k, d));
    assert forall i :: 0 <= i < BlocksPerArena(d) ==> FreeFlags(h.free[d], k, d)[i] == (BlockAddr(k, d, i) in h.free[d]);
  }

  lemma ReleasedArena(h: Heap, h': Heap, k: nat, d: nat, l: nat)
    requires Steady(h) && Released(h, h', k, d) && l in h'.arenas
    ensures ArenaOk(h', l)
  {
    assert ArenaOk(h, l) && ArenaOk(h, k);
    ReleasedPages(h, h', k, d, l);
    if h.arenas[l].Small? && h.arenas[l].desc == d {
      forall i | 0 <= i < BlocksPerArena(d) ensures BlockAddr(l, d, i) in h'.free[d] <==> BlockAddr(l, d, i) in h.free[d] {
        BlockToArena(l, d, i);
      }
      assert FreeFlags(h'.free[d], l, d) == FreeFlags(h.free[d], l, d);
    }
  }

  lemma ReleasedPages(h: Heap, h': Heap, k: nat, d: nat, l: nat)
    requires Apart(h) && Released(h, h', k, d) && l in h'.arenas && PagesUsed(h, l, Pages(h.arenas[l]))
    ensures PagesUsed(h', l, Pages(h.arenas[l]))
  {
    assert k < l || l + Pages(h.arenas[l]) <= k;
  }

  lemma ReleasedSteady(h: Heap, h': Heap, k: nat, d: nat)
    requires Steady(h) && Released(h, h', k, d)
    ensures Steady(h')
  {
    hide BlockAddr, IndexOf, PageOf, ArenaOk;
    forall l | l in h'.arenas ensures ArenaOk(h', l) { ReleasedArena(h, h', k, d, l); }
    forall e | 0 <= e < DESC_COUNT ensures FreeOk(h', e) { assert FreeOk(h, e); }
    forall a | a in h'.live ensures LiveOk(h', a) {
      ReleasedNoneLive(h, k, d, a);
      assert LiveOk(h, a);
    }
  }

  // ---------- Big blocks ----------

  ghost function BigTaken(h: Heap, k: nat, n: nat): (h': Heap)
    requires h.base <= k && k + n <= h.base + |h.used| && n >= 1
  {
    h.(used := Range(h.used, k - h.base, n, true), arenas := h.arenas[k := Big(n)],
       live := h.live[HeadAddr(k) := n * PAGE_SIZE - HEADER_SIZE])
  }

  lemma BigTakenSteady(h: Heap, k: nat, n: nat)
    requires Steady(h) && n >= 1 && h.base <= k && k + n <= h.base + |h.used| && AllAre(h.used, k - h.base, n, false)
    ensures Steady(BigTaken(h, k, n)) && HeadAddr(k) !in h.live && k !in h.arenas
  {
    var h' := BigTaken(h, k, n);
    UnusedPage(h, k);
    HeadToArena(k);
    BigTakenApart(h, k, n);
    hide BlockAddr, IndexOf, PageOf, HeadAddr, ArenaOk, Apart, AllAre, FreeOk, LiveOk;
    forall l | l in h'.arenas ensures ArenaOk(h', l) { BigTakenArena(h, k, n, l); }
    forall e | 0 <= e < DESC_COUNT ensures FreeOk(h', e) { BigTakenFree(h, k, n, e); }
    forall a | a in h'.live ensures LiveOk(h', a) { }
  }

  lemma BigTakenFree(h: Heap, k: nat, n: nat, e: nat)
    requires Steady(h) && n >= 1 && h.base <= k && k + n <= h.base + |h.used| && k !in h.arenas && e < DESC_COUNT
    ensures FreeOk(BigTaken(h, k, n), e)
  {
    hide BlockAddr, IndexOf, PageOf, ArenaOk, LiveOk;
    assert FreeOk(h, e);
  }

  lemma BigTakenArena(h: Heap, k: nat, n: nat, l: nat)
    requires Steady(h) && n >= 1 && h.base <= k && k + n <= h.base + |h.used| && AllAre(h.used, k - h.base, n, false)
    requires l in h.arenas || l == k
    ensures ArenaOk(BigTaken(h, k, n), l)
  {
    UnusedPage(h, k);
    HeadToArena(k);
    if l != k {
      assert ArenaOk(h, l);
      if h.arenas[l].Small? {
        var d := h.arenas[l].desc;
        forall i | 0 <= i < BlocksPerArena(d) ensures BlockAddr(l, d, i) != HeadAddr(k) { BlockToArena(l, d, i); }
      }
    }
  }

  lemma BigTakenApart(h: Heap, k: nat, n: nat)
    requires Steady(h) && n >= 1 && h.base <= k && k + n <= h.base + |h.used| && AllAre(h.used, k - h.base, n, false)
    requires forall l :: l in h.arenas ==> l + Pages(h.arenas[l]) <= k || k < l
    ensures Apart(BigTaken(h, k, n))
  {
    forall l | l in h.arenas && k < l ensures k + n <= l {
      assert ArenaOk(h, l);
      assert h.used[l - h.base];
    }
  }

  ghost function BigGiven(h: Heap, k: nat): (h': Heap)
    requires k in h.arenas && h.arenas[k].Big? && h.base <= k && k + h.arenas[k].cnt <= h.base + |h.used|
  {
    h.(used := Range(h.used, k - h.base, h.arenas[k].cnt, false), arenas := h.arenas - {k}, live := h.live - {HeadAddr(k)})
  }

  lemma BigGivenArena(h: Heap, k: nat, l: nat)
    requires Steady(h) && k in h.arenas && h.arenas[k].Big? && h.base <= k && k + h.arenas[k].cnt <= h.base + |h.used|
    requires l in h.arenas && l != k
    ensures ArenaOk(BigGiven(h, k), l)
  {
    var h' := BigGiven(h, k);
    assert ArenaOk(h, l) && ArenaOk(h, k);
    assert k + Pages(h.arenas[k]) <= l || l + Pages(h.arenas[l]) <= k;
    HeadToArena(k);
    HeadToArena(l);
    match h.arenas[l]
    case Big(_) =>
    case Small(d, _) =>
      forall i | 0 <= i < BlocksPerArena(d) ensures BlockAddr(l, d, i) != HeadAddr(k) { BlockToArena(l, d, i); }
      hide BlockAddr, HeadAddr, FreeFlags, FreeOk, LiveOk;
      assert h'.free == h.free && SmallOk(h', l, d, h.arenas[l].cnt);
  }

  lemma BigGivenSteady(h: Heap, k: nat)
    requires Steady(h) && k in h.arenas && h.arenas[k].Big?
    ensures PagesUsed(h, k, h.arenas[k].cnt) && Steady(BigGiven(h, k))
  {
    assert PagesUsed(h, k, h.arenas[k].cnt) by { assert ArenaOk(h, k); }
    var h' := BigGiven(h, k);
    HeadToArena(k);
    hide BlockAddr, IndexOf, PageOf, HeadAddr, ArenaOk, PagesUsed, Range, BlocksPerArena;
    forall l | l in h'.arenas ensures ArenaOk(h', l) { BigGivenArena(h, k, l); }
    forall e | 0 <= e < DESC_COUNT ensures FreeOk(h', e) { assert FreeOk(h, e); }
    forall a | a in h'.live ensures LiveOk(h', a) { assert LiveOk(h, a); }
  }

  /** No free list refers to a page that is not in use, so what is given back to the page
      allocator is not handed out again from here. */
  lemma FreeListsClean(h: Heap, d: nat, a: int)
    requires Steady(h) && d < DESC_COUNT && a in h.free[d]
    ensures h.base <= PageOf(a) < h.base + |h.used| && h.used[PageOf(a) - h.base]
  {
    assert FreeOk(h, d);
    assert ArenaOk(h, PageOf(a));
  }

  /** The header's count is the number of the arena's blocks on the free list, and every
      block that is not there is in use. */
  lemma FreeCountExact(h: Heap, k: nat)
    requires Valid(h) && k in h.arenas && h.arenas[k].Small?
    ensures var d := h.arenas[k].desc;
      && d < |h.free| && h.arenas[k].cnt == Count(FreeFlags(h.free[d], k, d)) < BlocksPerArena(d)
      && (forall i :: 0 <= i < BlocksPerArena(d) ==>
            (BlockAddr(k, d, i) in h.live <==> BlockAddr(k, d, i) !in h.free[d]))
  {
    assert ArenaOk(h, k);
  }

  // ---------- Pages of others ----------

  ghost predicate InArena(h: Heap, j: nat) {
    exists k :: k in h.arenas && k <= h.base + j < k + Pages(h.arenas[k])
  }

  /** The pool's pages that are in use but in no arena belong to others, and stay theirs: no
      page is kept without an arena in it, and none is taken from anyone. */
  ghost predicate SameOthers(h: Heap, h': Heap) {
    && h'.base == h.base && |h'.used| == |h.used|
    && (forall j :: 0 <= j < |h.used| ==> (h'.used[j] && !InArena(h', j) <==> h.used[j] && !InArena(h, j)))
  }

  /** When every block has been given back the heap has no arena left, so no page is lost. */
  lemma NothingLeft(h: Heap)
    requires Valid(h) && h.live == map[]
    ensures h.arenas == map[]
  {
    forall k | k in h.arenas ensures false {
      assert ArenaOk(h, k);
      if h.arenas[k].Small? {
        var d := h.arenas[k].desc;
        CountAll(FreeFlags(h.free[d], k, d));
      }
    }
  }

  lemma SamePagesOthers(h: Heap, h': Heap)
    requires h'.base == h.base && h'.used == h.used && h'.arenas.Keys == h.arenas.Keys
    requires forall k :: k in h.arenas ==> Pages(h'.arenas[k]) == Pages(h.arenas[k])
    ensures SameOthers(h, h')
  {
  }

  /** Pages that become used and an arena together. */
  lemma TakenPagesOthers(h: Heap, h': Heap, k: nat, n: nat)
    requires h.base <= k && k + n <= h.base + |h.used| && k !in h.arenas && AllAre(h.used, k - h.base, n, false)
    requires h'.base == h.base && h'.used == Range(h.used, k - h.base, n, true)
    requires h'.arenas.Keys == h.arenas.Keys + {k} && Pages(h'.arenas[k]) == n
    requires forall l :: l in h.arenas ==> h'.arenas[l] == h.arenas[l]
    ensures SameOthers(h, h')
  {
    forall j | 0 <= j < |h.used| ensures h'.used[j] && !InArena(h', j) <==> h.used[j] && !InArena(h, j) {
      if k <= h.base + j < k + n {
        assert InArena(h', j);
      } else {
        assert InArena(h', j) <==> InArena(h, j) by {
          if InArena(h, j) {
            var l :| l in h.arenas && l <= h.base + j < l + Pages(h.arenas[l]);
            assert l in h'.arenas;
          }
        }
      }
    }
  }

  /** Pages that are given back with their arena. */
  lemma GivenPagesOthers(h: Heap, h': Heap, k: nat)
    requires Steady(h) && k in h.arenas && h.base <= k && k + Pages(h.arenas[k]) <= h.base + |h.used|
    requires h'.base == h.base && h'.used == Range(h.used, k - h.base, Pages(h.arenas[k]), false)
    requires h'.arenas == h.arenas - {k}
    ensures SameOthers(h, h')
  {
    var n := Pages(h.arenas[k]);
    forall j | 0 <= j < |h.used| ensures h'.used[j] && !InArena(h', j) <==> h.used[j] && !InArena(h, j) {
      if k <= h.base + j < k + n {
        assert InArena(h, j);
      } else {
        assert InArena(h', j) <==> InArena(h, j) by {
          if InArena(h, j) {
            var l :| l in h.arenas && l <= h.base + j < l + Pages(h.arenas[l]);
            assert l in h'.arenas;
          }
        }
      }
    }
  }
}
