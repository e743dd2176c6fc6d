/** Addresses in the block allocator: pages, arena headers and the blocks behind them
    (malloc.c, vaddr.h). */
module MallocLayout {
  import opened Arithmetic
  import opened Storage

  const HEADER_SIZE: nat := 12         // magic, descriptor, count
  const DESC_COUNT: nat := 7

  /** Descriptor `d` manages blocks of 16 bytes, twice that for each following one. */
  function BlockSize(d: nat): (n: nat)
    ensures n >= 16
  {
    if d == 0 then 16 else 2 * BlockSize(d - 1)
  }

  function BlocksPerArena(d: nat): nat {
    DivNonNegative(PAGE_SIZE - HEADER_SIZE, BlockSize(d));
    (PAGE_SIZE - HEADER_SIZE) / BlockSize(d)
  }

  lemma DivNonNegative(x: int, b: int)
    requires x >= 0 && b > 0
    ensures x / b >= 0
  {
    var q := x / b;
    assert x == b * q + x % b;
    if q <= -1 { MulMonotone(q, -1, b); }
  }

  lemma Sizes()
    ensures BlockSize(0) == 16 && BlockSize(1) == 32 && BlockSize(2) == 64 && BlockSize(3) == 128
    ensures BlockSize(4) == 256 && BlockSize(5) == 512 && BlockSize(6) == 1024 && BlockSize(7) == 2048
  {
  }

  lemma {:induction false} SizesGrow(d: nat, e: nat)
    requires d < e
    ensures BlockSize(d) < BlockSize(e)
  {
    if d < e - 1 { SizesGrow(d, e - 1); }
  }

  /** An arena has as many blocks as fit behind the header. */
  lemma ArenaFull(d: nat)
    ensures BlocksPerArena(d) * BlockSize(d) <= PAGE_SIZE - HEADER_SIZE < (BlocksPerArena(d) + 1) * BlockSize(d)
  {
    var b := BlockSize(d);
    var q := (PAGE_SIZE - HEADER_SIZE) / b;
    assert PAGE_SIZE - HEADER_SIZE == b * q + (PAGE_SIZE - HEADER_SIZE) % b;
    assert (q + 1) * b == b * q + b;
  }

  // ---------- arena_to_block and block_to_arena ----------

  /** Block `i` of the arena in page `k`. */
  function BlockAddr(k: nat, d: nat, i: nat): int {
    k * PAGE_SIZE + HEADER_SIZE + i * BlockSize(d)
  }

  /** What follows the header of the arena in page `k`. */
  function HeadAddr(k: nat): int {
    k * PAGE_SIZE + HEADER_SIZE
  }

  /** pg_no: the page, and with it the arena, that an address is in. */
  function PageOf(a: int): int {
    a / PAGE_SIZE
  }

  /** pg_ofs. */
  function OffsetOf(a: int): int {
    a % PAGE_SIZE
  }

  function IndexOf(a: int, d: nat): int {
    (OffsetOf(a) - HEADER_SIZE) / BlockSize(d)
  }

  /** Every block lies behind the header and inside the page. */
  lemma BlockInPage(d: nat, i: nat)
    requires i < BlocksPerArena(d)
    ensures 0 <= i * BlockSize(d) && HEADER_SIZE + i * BlockSize(d) + BlockSize(d) <= PAGE_SIZE
  {
    var n, b := BlocksPerArena(d), BlockSize(d);
    assert n * b <= PAGE_SIZE - HEADER_SIZE;
    MulMonotone(i + 1, n, b);
  }

  /** block_to_arena undoes arena_to_block, and its alignment check holds. */
  lemma BlockToArena(k: nat, d: nat, i: nat)
    requires i < BlocksPerArena(d)
    ensures PageOf(BlockAddr(k, d, i)) == k
    ensures OffsetOf(BlockAddr(k, d, i)) >= HEADER_SIZE
    ensures (OffsetOf(BlockAddr(k, d, i)) - HEADER_SIZE) % BlockSize(d) == 0
    ensures IndexOf(BlockAddr(k, d, i), d) == i
  {
    BlockInPage(d, i);
    var m, b := i * BlockSize(d), BlockSize(d);
    assert BlockAddr(k, d, i) == k * PAGE_SIZE + (HEADER_SIZE + m);
    DivMul(i, b);
  }

  lemma DivMul(i: nat, b: nat)
    requires b > 0
    ensures i * b / b == i && i * b % b == 0
  {
    var q, r := i * b / b, i * b % b;
    assert i * b == q * b + r;
    if i < q { MulMonotone(i + 1, q, b); }
    if q < i { MulMonotone(q + 1, i, b); }
  }

  lemma HeadToArena(k: nat)
    ensures PageOf(HeadAddr(k)) == k && OffsetOf(HeadAddr(k)) == HEADER_SIZE
  {
  }

  lemma MulNext(i: nat, j: nat, b: nat)
    requires i < j
    ensures i * b + b <= j * b
  {
    MulMonotone(i + 1, j, b);
  }

  /** Two blocks of one size do not overlap unless they are the same. */
  lemma BlocksApart(k: nat, l: nat, d: nat, i: nat, j: nat)
    requires i < BlocksPerArena(d) && j < BlocksPerArena(d) && (k, i) != (l, j)
    ensures BlockAddr(k, d, i) + BlockSize(d) <= BlockAddr(l, d, j)
         || BlockAddr(l, d, j) + BlockSize(d) <= BlockAddr(k, d, i)
  {
    BlockInPage(d, i);
    BlockInPage(d, j);
    var b := BlockSize(d);
    if i < j { MulNext(i, j, b); } else if j < i { MulNext(j, i, b); }
    ApartSums(k, l, i * b, j * b, b);
  }

  /** Offsets that are a block apart, or pages that differ, keep blocks apart. */
  lemma ApartSums(k: nat, l: nat, x: nat, y: nat, b: nat)
    requires HEADER_SIZE + x + b <= PAGE_SIZE && HEADER_SIZE + y + b <= PAGE_SIZE
    requires k != l || x + b <= y || y + b <= x
    ensures k * PAGE_SIZE + HEADER_SIZE + x + b <= l * PAGE_SIZE + HEADER_SIZE + y
         || l * PAGE_SIZE + HEADER_SIZE + y + b <= k * PAGE_SIZE + HEADER_SIZE + x
  {
  }
}
