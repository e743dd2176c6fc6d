/** The free map: one bit per sector, true when the sector is in use. */
module FreeMap {
  import opened Storage
  import Bitmap

  function FreeCount(used: seq<bool>): (n: nat)
    ensures n <= |used|
  {
    if used == [] then 0 else (if used[0] then 0 else 1) + FreeCount(used[1..])
  }

  /** The lowest free sector, or |used| when there is none: bitmap_scan for one bit. */
  function FirstFree(used: seq<bool>): (w: nat)
    ensures w <= |used| && (w < |used| ==> !used[w]) && (forall s :: 0 <= s < w ==> used[s])
  {
    if used == [] || !used[0] then 0 else 1 + FirstFree(used[1..])
  }

  /** It is what bitmap_scan finds. */
  lemma FirstFreeIsLowest(used: seq<bool>)
    ensures Bitmap.Lowest(used, 0, 1, false, if FirstFree(used) < |used| then Some(FirstFree(used)) else None)
  {
    forall i | 0 <= i < |used| && i < FirstFree(used) ensures !Bitmap.AllAre(used, i, 1, false) {
      assert used[i];
    }
  }

  lemma {:induction false} FreeExists(used: seq<bool>)
    ensures FreeCount(used) > 0 <==> FirstFree(used) < |used|
  {
    if used != [] { FreeExists(used[1..]); }
  }

  lemma {:induction false} FreeCountMark(used: seq<bool>, w: nat, b: bool)
    requires w < |used|
    ensures FreeCount(used[w := b]) == FreeCount(used) - (if used[w] then 0 else 1) + (if b then 0 else 1)
  {
    if w == 0 {
      assert used[w := b][1..] == used[1..];
    } else {
      assert used[w := b][1..] == used[1..][w - 1 := b];
      FreeCountMark(used[1..], w - 1, b);
    }
  }

  /** `used` is `base` with the sectors of `taken`, all free there, marked. */
  ghost predicate Marked(base: seq<bool>, taken: seq<nat>, used: seq<bool>) {
    && |used| == |base|
    && (forall j :: 0 <= j < |taken| ==> taken[j] < |base| && !base[taken[j]])
    && (forall j, k :: 0 <= j < k < |taken| ==> taken[j] != taken[k])
    && (forall s :: 0 <= s < |base| ==> (used[s] <==> base[s] || s in taken))
  }

  /** What can_allocate leaves behind: the first sector it took stays marked. */
  function Leaked(used: seq<bool>, num: nat): (u: seq<bool>)
    ensures |u| == |used|
  {
    if num > 0 && FirstFree(used) < |used| then used[FirstFree(used) := true] else used
  }

  lemma LeakedStill(used: seq<bool>, num: nat)
    ensures forall t :: 0 <= t < |used| && used[t] ==> Leaked(used, num)[t]
  {
  }

  /** Right after free_map_init. */
  lemma FreshCount(used: seq<bool>)
    requires |used| >= 2 && forall t :: 0 <= t < |used| ==> (used[t] <==> t < 2)
    ensures FreeCount(used) == |used| - 2
  {
    AllFree(used[2..]);
    assert used[1..][1..] == used[2..];
  }

  lemma {:induction false} AllFree(used: seq<bool>)
    requires forall t :: 0 <= t < |used| ==> !used[t]
    ensures FreeCount(used) == |used|
  {
    if used != [] { AllFree(used[1..]); }
  }

  lemma MarkOne(base: seq<bool>, taken: seq<nat>, used: seq<bool>, w: nat)
    requires Marked(base, taken, used) && w < |used| && !used[w]
    ensures Marked(base, taken + [w], used[w := true])
  {
  }
}
