/** malloc and free over the page pool (malloc.c). */
module Malloc {
  import opened Arithmetic
  import opened Storage
  import opened Counting
  import opened Lists
  import opened Bitmap
  import opened MallocLayout
  import opened MallocHeap

  /** The pages malloc asks for when no descriptor is large enough, in 32-bit arithmetic. */
  function PageCount(size: nat): nat {
    (((size + HEADER_SIZE) % WORD) + PAGE_SIZE - 1) % WORD / PAGE_SIZE
  }

  /** They are the fewest pages that hold the header and the request, as long as rounding up
      stays below 2^32; beyond that there are none, and one when the sum itself has wrapped
      around past zero. */
  lemma PageCountExactly(size: nat)
    requires size < WORD
    ensures size + HEADER_SIZE + PAGE_SIZE - 1 < WORD ==>
      (PageCount(size) - 1) * PAGE_SIZE < size + HEADER_SIZE <= PageCount(size) * PAGE_SIZE
    ensures size + HEADER_SIZE + PAGE_SIZE - 1 >= WORD ==> PageCount(size) == if size + HEADER_SIZE > WORD then 1 else 0
  {
  }

  /** Those pages hold the request unless the sum wrapped around past zero. */
  lemma PageCountRoom(size: nat)
    requires BlockSize(DESC_COUNT - 1) < size < WORD && PageCount(size) >= 1
    ensures PageCount(size) * PAGE_SIZE - HEADER_SIZE >= size <==> size <= WORD - HEADER_SIZE
    ensures PageCount(size) * PAGE_SIZE - HEADER_SIZE < WORD
  {
    Sizes();
  }

  /** A wrapped request that still gets a page: it is 11 bytes or fewer short of 2^32. */
  lemma WrappedRequest()
    ensures PageCount(WORD - 1) == 1
  {
  }

  // ---------- The size calloc asks for ----------

  /** What calloc asks malloc for, unless it refuses. */
  function CallocSize(a: nat, b: nat): Option<nat>
    requires a < WORD && b < WORD
  {
    var size := (a * b) % WORD;
    if size < a || size < b then None else Some(size)
  }

  /** A product that does not fit 32 bits is refused exactly when what is left of it is smaller
      than a factor. */
  lemma CallocCatches(a: nat, b: nat)
    requires a < WORD && b < WORD
    ensures a * b < WORD ==> CallocSize(a, b) == if a * b < Max(a, b) then None else Some(a * b)
    ensures a * b >= WORD ==> (CallocSize(a, b).None? <==> (a * b) % WORD < Max(a, b))
  {
    if a * b < WORD { SmallProduct(a * b); }
  }

  lemma SmallProduct(x: nat)
    requires x < WORD
    ensures x % WORD == x
  {
  }

  /** No product with `a` gets past calloc cut short. */
  ghost predicate CallocSafe(a: nat)
    requires a < WORD
  {
    forall b: nat :: b < WORD ==> CallocSize(a, b).None? || CallocSize(a, b).value == a * b
  }

  /** Up to 2^31 that is so for 0, 1 and 2 alone. */
  lemma CallocSafeExactly(a: nat)
    requires a <= WORD / 2
    ensures CallocSafe(a) <==> a <= 2
  {
    if a >= 3 {
      var b := (2 * WORD - 1) / a;
      JustBelow(a, b);
      assert CallocSize(a, b) == Some(a * b - WORD);
    } else {
      forall b: nat | b < WORD ensures CallocSize(a, b).None? || CallocSize(a, b).value == a * b {
        TwiceCut(a, b);
      }
    }
  }

  lemma TwiceCut(a: nat, b: nat)
    requires a <= 2 && b < WORD
    ensures CallocSize(a, b).None? || CallocSize(a, b).value == a * b
  {
    if a == 0 { assert a * b == 0; } else if a == 1 { assert a * b == b; } else { assert a * b == b + b; }
  }

  /** The largest product below 2^33 keeps almost 2^32 of it. */
  lemma JustBelow(a: nat, b: nat)
    requires 3 <= a <= WORD / 2 && b == (2 * WORD - 1) / a
    ensures b < WORD && WORD <= a * b < 2 * WORD && (a * b) % WORD == a * b - WORD && a * b - WORD >= Max(a, b)
  {
    var r := (2 * WORD - 1) % a;
    assert 2 * WORD - 1 == a * b + r && 0 <= r < a;
    MulMonotone(3, a, b);
  }

  /** For example, 65600 times 65600 bytes come out as 8392704. */
  lemma CallocCutShort()
    ensures CallocSize(65600, 65600) == Some(8392704) && 65600 * 65600 == 4303360000
  {
  }

  /** The first descriptor whose blocks are large enough. */
  ghost predicate IsDescFor(size: nat, d: nat) {
    && d <= DESC_COUNT && (forall e :: 0 <= e < d ==> BlockSize(e) < size)
    && (d < DESC_COUNT ==> size <= BlockSize(d))
  }

  /** There is nothing to serve the request from. */
  ghost predicate NoRoom(h: Heap, size: nat, d: nat)
    requires |h.free| == DESC_COUNT && d <= DESC_COUNT
  {
    if d < DESC_COUNT then h.free[d] == [] && NoRun(h.used, 1)
    else PageCount(size) == 0 || NoRun(h.used, PageCount(size))
  }

  ghost predicate NoRun(used: seq<bool>, n: nat) {
    forall i :: 0 <= i && i + n <= |used| ==> !AllAre(used, i, n, false)
  }

  datatype Desc = Desc(blockSize: nat, blocksPerArena: nat)

  ghost predicate DescsOk(descs: seq<Desc>) {
    && |descs| == DESC_COUNT
    && (forall d :: 0 <= d < DESC_COUNT ==> descs[d] == Desc(BlockSize(d), BlocksPerArena(d)))
  }

  /** malloc_init: seven descriptors, from 16-byte blocks up to 1024-byte ones. */
  method InitDescs() returns (descs: seq<Desc>, free: seq<seq<int>>)
    ensures DescsOk(descs) && |free| == DESC_COUNT && forall d :: 0 <= d < DESC_COUNT ==> free[d] == []
  {
    descs, free := [], [];
    var blockSize := 16;
    Sizes();
    while blockSize < PAGE_SIZE / 2
      invariant |descs| == |free| <= DESC_COUNT && blockSize == BlockSize(|descs|)
      invariant forall d :: 0 <= d < |descs| ==> descs[d] == Desc(BlockSize(d), BlocksPerArena(d)) && free[d] == []
      decreases DESC_COUNT - |descs|
    {
      descs := descs + [Desc(blockSize, (PAGE_SIZE - HEADER_SIZE) / blockSize)];
      free := free + [[]];
      blockSize := blockSize * 2;
    }
    if |descs| < DESC_COUNT { SizesGrow(|descs|, DESC_COUNT); }
  }

  class Allocator {
    const base: nat
    const pool: BitArray             // used_map
    var descs: seq<Desc>
    var free: seq<seq<int>>
    var arenas: map<nat, Arena>
    ghost var live: map<int, nat>

    ghost function State(): Heap
      requires pool.Valid()
      reads this, pool.elems
    {
      Heap(base, pool.Bits(), free, arenas, live)
    }

    ghost predicate Ready()
      reads this
    {
      DescsOk(descs) && pool.Valid()
    }

    ghost predicate Ok()
      reads this, pool.elems
    {
      Ready() && Valid(State())
    }

    /** malloc_init, over the pages of `pool` from page `base` on. */
    constructor (base: nat, pool: BitArray)
      requires base >= 1 && pool.Valid()
      ensures Ok() && live == map[] && this.base == base && this.pool == pool
    {
      this.base := base;
      this.pool := pool;
      this.arenas := map[];
      this.live := map[];
      var ds, fs := InitDescs();
      this.descs := ds;
      this.free := fs;
    }

    /** palloc_get_multiple on this pool: the lowest run of free pages. */
    method GetPages(cnt: nat) returns (k: Option<nat>)
      requires pool.Valid()
      modifies pool.elems
      ensures k.None? <==> cnt == 0 || NoRun(old(pool.Bits()), cnt)
      ensures k.None? ==> pool.Bits() == old(pool.Bits())
      ensures k.Some? ==> base <= k.value && Lowest(old(pool.Bits()), 0, cnt, false, Some(k.value - base))
      ensures k.Some? ==> pool.Bits() == Range(old(pool.Bits()), k.value - base, cnt, true)
    {
      if cnt == 0 {
        return None;
      }
      var i := pool.ScanAndFlip(0, cnt, false);
      match i
      case None => k := None;
      case Some(v) => k := Some(base + v);
    }

    /** palloc_free_multiple. */
    method FreePages(k: nat, cnt: nat)
      requires pool.Valid() && base <= k && k + cnt <= base + pool.bitCnt && AllAre(pool.Bits(), k - base, cnt, true)
      modifies pool.elems
      ensures pool.Bits() == Range(old(pool.Bits()), k - base, cnt, false)
    {
      var clear := pool.Contains(k - base, cnt, false);
      assert !clear;
      pool.SetMultiple(k - base, cnt, false);
    }

    method FindDesc(size: nat) returns (d: nat)
      requires DescsOk(descs)
      ensures IsDescFor(size, d)
    {
      d := 0;
      while d < |descs| && descs[d].blockSize < size
        invariant 0 <= d <= DESC_COUNT && forall e :: 0 <= e < d ==> BlockSize(e) < size
      {
        d := d + 1;
      }
    }

    // ---------- malloc ----------

    /** A new arena for descriptor `d`: one page, cut into blocks. */
    method NewArena(d: nat) returns (ok: bool)
      requires Ready() && Steady(State()) && d < DESC_COUNT
      modifies pool.elems, `free, `arenas
      ensures ok <==> !NoRun(old(pool.Bits()), 1)
      ensures !ok ==> State() == old(State())
      ensures ok ==> exists k: nat :: base <= k < base + |old(pool.Bits())| && !old(pool.Bits())[k - base] && State() == Cut(old(State()), k, d)
    {
      var page := GetPages(1);
      if page.None? {
        return false;
      }
      var k := page.value;
      arenas := arenas[k := Small(d, descs[d].blocksPerArena)];
      ghost var before := free;
      assert before[d] + AllBlocks(k, d, 0) == before[d];
      var i := 0;
      while i < descs[d].blocksPerArena
        modifies `free
        invariant 0 <= i <= BlocksPerArena(d) && free == before[d := before[d] + AllBlocks(k, d, i)]
      {
        NextBlock(before[d], k, d, i);
        free := free[d := free[d] + [k * PAGE_SIZE + HEADER_SIZE + i * descs[d].blockSize]];
        i := i + 1;
      }
      assert State() == Cut(old(State()), k, d);
      return true;
    }

    /** The first block of a free list. */
    method TakeBlock(d: nat) returns (b: int)
      requires Ready() && Steady(State()) && d < DESC_COUNT && free[d] != []
      modifies `free, `arenas, `live
      ensures IsBlock(old(State()), b, d) && b == old(free)[d][0] && b !in old(live)
      ensures old(arenas)[PageOf(b)].cnt > 0 && State() == Taken(old(State()), d) && Steady(State())
    {
      hide ArenaOk, FreeOk, LiveOk, Apart, IndexOf, BlockAddr;
      TakenSteady(State(), d);
      b := free[d][0];
      free := free[d := free[d][1..]];
      var k := PageOf(b);
      arenas := arenas[k := Small(d, arenas[k].cnt - 1)];
      live := live[b := descs[d].blockSize];
    }

    method MallocSmall(size: nat, d: nat) returns (p: int)
      requires Ok() && d < DESC_COUNT && IsDescFor(size, d)
      modifies this, pool.elems
      ensures Ok()
      ensures p == 0 <==> NoRoom(old(State()), size, d)
      ensures p == 0 ==> State() == old(State())
      ensures p != 0 ==> p !in old(live) && live == old(live)[p := BlockSize(d)]
      ensures SameOthers(old(State()), State())
    {
      hide ArenaOk, FreeOk, LiveOk, Apart, Cut, PageOf, IndexOf, BlockAddr, Unpacked, Range, AllAre;
      if free[d] == [] {
        var ok := NewArena(d);
        if !ok {
          return 0;
        }
        ghost var k: nat :| base <= k < base + |old(pool.Bits())| && !old(pool.Bits())[k - base] && State() == Cut(old(State()), k, d);
        CutSteady(old(State()), k, d);
        CutOthers(old(State()), k, d);
        NewArenaFirst(old(State()), k, d);
      }
      ghost var h := State();
      p := TakeBlock(d);
      TakenValid(h, d);
      BlockNotNull(h, p, d);
      TakenOthers(h, d);
      assert SameOthers(old(State()), h);
    }

    method MallocBig(size: nat) returns (p: int)
      requires Ok()
      modifies this, pool.elems
      ensures Ok()
      ensures p == 0 <==> PageCount(size) == 0 || NoRun(old(pool.Bits()), PageCount(size))
      ensures p == 0 ==> State() == old(State())
      ensures p != 0 ==> p !in old(live) && live == old(live)[p := PageCount(size) * PAGE_SIZE - HEADER_SIZE]
      ensures SameOthers(old(State()), State())
    {
      var cnt := PageCount(size);
      var page := GetPages(cnt);
      if page.None? {
        return 0;
      }
      var k := page.value;
      arenas := arenas[k := Big(cnt)];
      p := k * PAGE_SIZE + HEADER_SIZE;
      live := live[p := cnt * PAGE_SIZE - HEADER_SIZE];
      assert State() == BigTaken(old(State()), k, cnt);
      BigTakenSteady(old(State()), k, cnt);
      TakenPagesOthers(old(State()), State(), k, cnt);
    }

    /** A new block of at least `size` bytes, apart from every block in use; null exactly when
        nothing was asked for or there is no room. */
    method Malloc(size: nat) returns (p: int)
      requires Ok() && size < WORD
      modifies this, pool.elems
      ensures Ok()
      ensures exists d :: IsDescFor(size, d) && (p == 0 <==> size == 0 || NoRoom(old(State()), size, d))
      ensures p == 0 ==> State() == old(State())
      ensures p != 0 ==> p !in old(live) && live.Keys == old(live).Keys + {p}
      ensures p != 0 ==> forall b :: b in old(live) ==> live[b] == old(live)[b] && (p + live[p] <= b || b + live[b] <= p)
      ensures p != 0 ==> live[p] < WORD && (live[p] >= size <==> size <= WORD - HEADER_SIZE)
      ensures SameOthers(old(State()), State())
    {
      hide Steady, Valid, SameOthers, NoRun, PageCount, BlockSize, IsDescFor, Unpacked;
      var d := FindDesc(size);
      if size == 0 {
        SamePagesOthers(State(), State());
        return 0;
      }
      Described(size, d);
      if d == |descs| {
        p := MallocBig(size);
        if p != 0 { PageCountRoom(size); }
      } else {
        p := MallocSmall(size, d);
        SmallRequest(size, d);
      }
      if p != 0 { ApartFromAll(State(), p); }
    }

    /** calloc: the block is large enough for the product exactly when malloc can serve that. */
    method Calloc(a: nat, b: nat) returns (p: int)
      requires Ok() && a < WORD && b < WORD
      modifies this, pool.elems
      ensures Ok()
      ensures match CallocSize(a, b)
        case None => p == 0
        case Some(size) => exists d :: IsDescFor(size, d) && (p == 0 <==> size == 0 || NoRoom(old(State()), size, d))
      ensures p == 0 ==> State() == old(State())
      ensures p != 0 ==> p !in old(live) && live.Keys == old(live).Keys + {p}
      ensures p != 0 ==> forall x :: x in old(live) ==> live[x] == old(live)[x] && (p + live[p] <= x || x + live[x] <= p)
      ensures p != 0 ==> (live[p] >= a * b <==> a * b <= WORD - HEADER_SIZE)
      ensures SameOthers(old(State()), State())
    {
      var size := (a * b) % WORD;
      if size < a || size < b {
        return 0;
      }
      CallocCatches(a, b);
      p := Malloc(size);
    }

    // ---------- free ----------

    /** block_to_arena: its assertions hold for every block in use. */
    method ArenaOf(b: int) returns (k: nat)
      requires Ready() && Steady(State()) && b in live
      ensures k == PageOf(b) && k in arenas && (arenas[k].Small? ==> arenas[k].desc < DESC_COUNT)
    {
      assert LiveOk(State(), b);
      assert ArenaOk(State(), PageOf(b));
      k := b / PAGE_SIZE;
      match arenas[k]
      case Small(d, _) =>
        BlockToArena(k, d, IndexOf(b, d));
        assert (OffsetOf(b) - HEADER_SIZE) % descs[d].blockSize == 0;
      case Big(_) =>
        HeadToArena(k);
        assert OffsetOf(b) == HEADER_SIZE;
    }

    /** Takes every block of the arena in page `k` off the free list. */
    method PurgeBlocks(k: nat, d: nat)
      requires Ready() && Steady(State()) && d < DESC_COUNT && k in arenas && arenas[k] == Small(d, BlocksPerArena(d))
      modifies `free
      ensures |free| == DESC_COUNT && (forall e :: 0 <= e < DESC_COUNT && e != d ==> free[e] == old(free)[e])
      ensures NoDup(free[d]) && forall a :: a in free[d] <==> a in old(free)[d] && PageOf(a) != k
    {
      hide IsBlock, LiveOk, ArenaOk, PageOf, IndexOf, OffsetOf;
      ghost var h := State();
      PurgeStart(h, k, d);
      var i := 0;
      while i < descs[d].blocksPerArena
        invariant 0 <= i <= BlocksPerArena(d) && |free| == DESC_COUNT
        invariant forall e :: 0 <= e < DESC_COUNT && e != d ==> free[e] == h.free[e]
        invariant NoDup(free[d]) && Purged(h.free[d], free[d], k, d, i)
      {
        var b := k * PAGE_SIZE + HEADER_SIZE + i * descs[d].blockSize;
        PurgeOne(h, k, d, i, free[d], b);
        assert b in free[d];
        free := free[d := Without(free[d], b)];
        i := i + 1;
      }
      PurgeEnd(h, k, d, free[d]);
    }

    method ReleaseArena(k: nat, d: nat)
      requires Ready() && Steady(State()) && d < DESC_COUNT && k in arenas && arenas[k] == Small(d, BlocksPerArena(d))
      modifies pool.elems, `free, `arenas
      ensures Released(old(State()), State(), k, d)
    {
      assert ArenaOk(State(), k);
      PurgeBlocks(k, d);
      FreePages(k, 1);
      arenas := arenas - {k};
    }

    method FreeSmall(p: int, k: nat, d: nat, cnt: nat)
      requires Ok() && p in live && k == PageOf(p) && k in arenas && arenas[k] == Small(d, cnt) && d < DESC_COUNT
      modifies this, pool.elems
      ensures Ok() && live == old(live) - {p} && SameOthers(old(State()), State())
    {
      hide ArenaOk, FreeOk, LiveOk, Apart, PageOf;
      ghost var h := State();
      GivenSteady(h, p);
      free := free[d := [p] + free[d]];
      arenas := arenas[k := Small(d, cnt + 1)];
      live := live - {p};
      assert State() == Given(h, p);
      SamePagesOthers(h, State());
      if arenas[k].cnt >= descs[d].blocksPerArena {
        ghost var h1 := State();
        assert arenas[k].cnt == descs[d].blocksPerArena;
        ReleaseArena(k, d);
        ReleasedSteady(h1, State(), k, d);
        ReleasedOthers(h1, State(), k, d);
      }
    }

    method FreeBig(p: int, k: nat, cnt: nat)
      requires Ok() && p in live && k == PageOf(p) && k in arenas && arenas[k] == Big(cnt)
      modifies this, pool.elems
      ensures Ok() && live == old(live) - {p} && SameOthers(old(State()), State())
    {
      hide ArenaOk, FreeOk, Apart, PageOf, HeadAddr;
      ghost var h := State();
      BigGivenSteady(h, k);
      assert LiveOk(h, p);
      FreePages(k, cnt);
      arenas := arenas - {k};
      live := live - {p};
      assert State() == BigGiven(h, k);
      GivenPagesOthers(h, State(), k);
    }

    /** Gives a block back: it is no longer in use, and no other block is touched. */
    method Free(p: int)
      requires Ok() && (p == 0 || p in live)
      modifies this, pool.elems
      ensures Ok() && live == old(live) - {p} && SameOthers(old(State()), State())
      ensures p == 0 ==> State() == old(State())
    {
      if p == 0 {
        NullNotLive(State());
        return;
      }
      var k := ArenaOf(p);
      match arenas[k]
      case Small(d, cnt) => FreeSmall(p, k, d, cnt);
      case Big(cnt) => FreeBig(p, k, cnt);
    }
  }

  lemma CutOthers(h: Heap, k: nat, d: nat)
    requires d < |h.free| && h.base <= k < h.base + |h.used| && k !in h.arenas && !h.used[k - h.base]
    ensures SameOthers(h, Cut(h, k, d))
  {
    TakenPagesOthers(h, Cut(h, k, d), k, 1);
  }

  lemma TakenOthers(h: Heap, d: nat)
    requires d < |h.free| && h.free[d] != [] && PageOf(h.free[d][0]) in h.arenas
    requires var x := h.arenas[PageOf(h.free[d][0])]; x.Small? && x.cnt > 0
    ensures SameOthers(h, Taken(h, d))
  {
    SamePagesOthers(h, Taken(h, d));
  }

  lemma ReleasedOthers(h: Heap, h': Heap, k: nat, d: nat)
    requires Steady(h) && Released(h, h', k, d)
    ensures SameOthers(h, h')
  {
    GivenPagesOthers(h, h', k);
  }

  lemma NullNotLive(h: Heap)
    requires Steady(h)
    ensures 0 !in h.live
  {
    if 0 in h.live { LiveInArena(h, 0); }
  }

  lemma BlockNotNull(h: Heap, b: int, d: nat)
    requires Steady(h) && IsBlock(h, b, d)
    ensures b != 0
  {
    assert ArenaOk(h, PageOf(b));
    BlockInPage(d, IndexOf(b, d));
  }

  /** Taking a block leaves its arena partly used. */
  lemma TakenValid(h: Heap, d: nat)
    requires Steady(h) && d < DESC_COUNT && h.free[d] != []
    requires PageOf(h.free[d][0]) in h.arenas && h.arenas[PageOf(h.free[d][0])].Small?
    requires h.arenas[PageOf(h.free[d][0])].cnt > 0 && h.arenas[PageOf(h.free[d][0])].desc == d && Steady(Taken(h, d))
    requires forall l :: l in h.arenas && h.arenas[l].Small? && l != PageOf(h.free[d][0]) ==>
               h.arenas[l].cnt < BlocksPerArena(h.arenas[l].desc)
    ensures Valid(Taken(h, d))
  {
    assert ArenaOk(h, PageOf(h.free[d][0]));
  }

  /** After an arena has been cut for an empty free list, the block taken is one of its. */
  lemma NewArenaFirst(h: Heap, k: nat, d: nat)
    requires Valid(h) && d < DESC_COUNT && h.base <= k < h.base + |h.used| && !h.used[k - h.base] && h.free[d] == []
    ensures var h' := Cut(h, k, d);
      && h'.free[d] != [] && PageOf(h'.free[d][0]) == k
      && (forall l :: l in h'.arenas && h'.arenas[l].Small? && l != k ==> h'.arenas[l].cnt < BlocksPerArena(h'.arenas[l].desc))
  {
    Sizes();
    assert BlocksPerArena(d) >= 1;
    BlockToArena(k, d, 0);
    assert Cut(h, k, d).free[d][0] == BlockAddr(k, d, 0);
  }

  lemma Described(size: nat, d: nat)
    requires IsDescFor(size, d)
    ensures d <= DESC_COUNT && (d == DESC_COUNT ==> BlockSize(DESC_COUNT - 1) < size)
  {
  }

  lemma ApartFromAll(h: Heap, p: int)
    requires Valid(h) && p in h.live
    ensures forall b :: b in h.live && b != p ==> p + h.live[p] <= b || b + h.live[b] <= p
  {
    forall b | b in h.live && b != p ensures p + h.live[p] <= b || b + h.live[b] <= p { LiveDisjoint(h, p, b); }
  }

  lemma NextBlock(xs: seq<int>, k: nat, d: nat, i: nat)
    ensures xs + AllBlocks(k, d, i) + [BlockAddr(k, d, i)] == xs + AllBlocks(k, d, i + 1)
  {
  }

  lemma SmallRequest(size: nat, d: nat)
    requires d < DESC_COUNT && IsDescFor(size, d)
    ensures size <= BlockSize(d) < WORD && size <= WORD - HEADER_SIZE
  {
    Sizes();
    if d < DESC_COUNT - 1 { SizesGrow(d, DESC_COUNT - 1); }
  }

  /** `ys` is `xs` without the first `i` blocks of page `k`. */
  ghost predicate Purged(xs: seq<int>, ys: seq<int>, k: nat, d: nat, i: nat) {
    forall a :: a in ys <==> a in xs && !(PageOf(a) == k && IndexOf(a, d) < i)
  }

  lemma PurgeStart(h: Heap, k: nat, d: nat)
    requires Steady(h) && d < DESC_COUNT
    ensures NoDup(h.free[d]) && Purged(h.free[d], h.free[d], k, d, 0)
  {
    assert FreeOk(h, d);
  }

  lemma PurgeOne(h: Heap, k: nat, d: nat, i: nat, xs: seq<int>, b: int)
    requires Steady(h) && d < DESC_COUNT && i < BlocksPerArena(d) && k in h.arenas && h.arenas[k] == Small(d, BlocksPerArena(d))
    requires NoDup(xs) && Purged(h.free[d], xs, k, d, i) && b == BlockAddr(k, d, i)
    ensures b in xs && NoDup(Without(xs, b)) && Purged(h.free[d], Without(xs, b), k, d, i + 1)
  {
    AllListed(h, k, d, i);
    BlockToArena(k, d, i);
    WithoutOk(xs, b);
    assert FreeOk(h, d);
    hide PageOf, IndexOf, BlockAddr, ArenaOk, LiveOk;
    forall a | a in h.free[d] ensures a == b <==> PageOf(a) == k && IndexOf(a, d) == i {
      assert IsBlock(h, a, d);
    }
  }

  lemma AllListed(h: Heap, k: nat, d: nat, i: nat)
    requires Steady(h) && d < DESC_COUNT && i < BlocksPerArena(d) && k in h.arenas && h.arenas[k] == Small(d, BlocksPerArena(d))
    ensures BlockAddr(k, d, i) in h.free[d]
  {
    assert ArenaOk(h, k);
    CountAll(FreeFlags(h.free[d], k, d));
    assert FreeFlags(h.free[d], k, d)[i];
  }

  lemma PurgeEnd(h: Heap, k: nat, d: nat, xs: seq<int>)
    requires Steady(h) && d < DESC_COUNT && Purged(h.free[d], xs, k, d, BlocksPerArena(d))
    ensures forall a :: a in xs <==> a in h.free[d] && PageOf(a) != k
  {
    hide PageOf, IndexOf, BlockAddr, ArenaOk, LiveOk;
    assert FreeOk(h, d);
    forall a | a in h.free[d] ensures IndexOf(a, d) < BlocksPerArena(d) { assert IsBlock(h, a, d); }
  }
}
