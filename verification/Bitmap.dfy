/** Bit arrays packed into 32-bit words (bitmap.c), as sequences of bits to their users. */
module Bitmap {
  import opened Storage
  import opened Bits

  const ELEM_BITS: nat := 32

  type Elem = w: nat | w < Shifted(ELEM_BITS) witness 0

  // ---------- Sequences of bits ----------

  /** The `n` bits from `i` on all have the value `b`. */
  predicate AllAre(used: seq<bool>, i: int, n: int, b: bool)
    requires 0 <= i && i + n <= |used|
  {
    forall j :: i <= j < i + n ==> used[j] == b
  }

  /** `used` with the `n` bits from `i` on set to `b`. */
  function Range(used: seq<bool>, i: int, n: int, b: bool): (r: seq<bool>)
    ensures |r| == |used|
    ensures forall j :: 0 <= j < |used| ==> r[j] == if i <= j < i + n then b else used[j]
  {
    seq(|used|, j requires 0 <= j < |used| => if i <= j < i + n then b else used[j])
  }

  /** `i` is the lowest group of `cnt` bits from `start` on with the value `b`, if there is one. */
  ghost predicate Lowest(used: seq<bool>, start: nat, cnt: nat, b: bool, r: Option<nat>) {
    && (r.Some? ==> start <= r.value && r.value + cnt <= |used| && AllAre(used, r.value, cnt, b))
    && (forall i :: start <= i && i + cnt <= |used| && (r.None? || i < r.value) ==> !AllAre(used, i, cnt, b))
  }

  // ---------- Words ----------

  /** elem_cnt: the words that hold `n` bits. */
  function ElemCount(n: nat): nat {
    (n + ELEM_BITS - 1) / ELEM_BITS
  }

  /** The first `n` bits of an array of words. */
  function Unpacked(elems: seq<Elem>, n: nat): (b: seq<bool>)
    requires |elems| == ElemCount(n)
    ensures |b| == n
  {
    seq(n, i requires 0 <= i < n => BitAt(elems[i / ELEM_BITS], i % ELEM_BITS))
  }

  /** The words differ at most in the bit numbered `i`, which has become `b`. */
  ghost predicate OneBit(w: Elem, w': Elem, k: nat, b: bool) {
    forall j :: 0 <= j < ELEM_BITS ==> (BitAt(w', j) <==> if j == k then b else BitAt(w, j))
  }

  lemma UnpackedUpdate(elems: seq<Elem>, n: nat, i: nat, w: Elem, b: bool)
    requires |elems| == ElemCount(n) && i < n && OneBit(elems[i / ELEM_BITS], w, i % ELEM_BITS, b)
    ensures Unpacked(elems[i / ELEM_BITS := w], n) == Unpacked(elems, n)[i := b]
  {
    var e, k := i / ELEM_BITS, i % ELEM_BITS;
    var now, wanted := Unpacked(elems[e := w], n), Unpacked(elems, n)[i := b];
    forall j | 0 <= j < n ensures now[j] == wanted[j] {
      if j / ELEM_BITS == e {
        assert j % ELEM_BITS == k <==> j == i;
      }
    }
  }

  /** orl with the mask of bit `k`. */
  lemma MarkBit(w: Elem, k: nat)
    requires k < ELEM_BITS
    ensures Or(w, Shifted(k)) < Shifted(ELEM_BITS) && OneBit(w, Or(w, Shifted(k)), k, true)
  {
    ShiftedGrows(k, ELEM_BITS);
    OrBelow(w, Shifted(k), ELEM_BITS);
    forall j | 0 <= j < ELEM_BITS ensures BitAt(Or(w, Shifted(k)), j) <==> j == k || BitAt(w, j) {
      OrBit(w, Shifted(k), j);
      ShiftedBit(k, j);
    }
  }

  /** andl with its complement. */
  lemma ResetBit(w: Elem, k: nat)
    requires k < ELEM_BITS
    ensures Shifted(k) < Shifted(ELEM_BITS) && OneBit(w, And(w, Not(Shifted(k), ELEM_BITS)), k, false)
  {
    ShiftedGrows(k, ELEM_BITS);
    forall j | 0 <= j < ELEM_BITS
      ensures BitAt(And(w, Not(Shifted(k), ELEM_BITS)), j) <==> j != k && BitAt(w, j)
    {
      AndBit(w, Not(Shifted(k), ELEM_BITS), j);
      NotBit(Shifted(k), ELEM_BITS, j);
      ShiftedBit(k, j);
    }
  }

  /** xorl with it. */
  lemma FlipBit(w: Elem, k: nat)
    requires k < ELEM_BITS
    ensures Xor(w, Shifted(k)) < Shifted(ELEM_BITS) && OneBit(w, Xor(w, Shifted(k)), k, !BitAt(w, k))
  {
    ShiftedGrows(k, ELEM_BITS);
    XorBelow(w, Shifted(k), ELEM_BITS);
    forall j | 0 <= j < ELEM_BITS ensures BitAt(Xor(w, Shifted(k)), j) <==> BitAt(w, j) != (j == k) {
      XorBit(w, Shifted(k), j);
      ShiftedBit(k, j);
    }
  }

  // ---------- The bit array ----------

  class BitArray {
    const bitCnt: nat
    const elems: array<Elem>

    predicate Valid() {
      elems.Length == ElemCount(bitCnt)
    }

    function Bits(): (b: seq<bool>)
      requires Valid()
      reads elems
      ensures |b| == bitCnt
    {
      Unpacked(elems[..], bitCnt)
    }

    /** bitmap_create: all bits are clear, whatever the memory held. */
    constructor (n: nat, memory: array<Elem>)
      requires memory.Length == ElemCount(n)
      modifies memory
      ensures Valid() && elems == memory && bitCnt == n && Bits() == seq(n, _ => false)
    {
      bitCnt := n;
      elems := memory;
      new;
      SetMultiple(0, n, false);
    }

    method Mark(i: nat)
      requires Valid() && i < bitCnt
      modifies elems
      ensures Bits() == old(Bits())[i := true]
    {
      var e, k := i / ELEM_BITS, i % ELEM_BITS;
      MarkBit(elems[e], k);
      UnpackedUpdate(elems[..], bitCnt, i, Or(elems[e], Shifted(k)), true);
      elems[e] := Or(elems[e], Shifted(k));
    }

    method Reset(i: nat)
      requires Valid() && i < bitCnt
      modifies elems
      ensures Bits() == old(Bits())[i := false]
    {
      var e, k := i / ELEM_BITS, i % ELEM_BITS;
      ResetBit(elems[e], k);
      UnpackedUpdate(elems[..], bitCnt, i, And(elems[e], Not(Shifted(k), ELEM_BITS)), false);
      elems[e] := And(elems[e], Not(Shifted(k), ELEM_BITS));
    }

    method Flip(i: nat)
      requires Valid() && i < bitCnt
      modifies elems
      ensures Bits() == old(Bits())[i := !old(Bits())[i]]
    {
      var e, k := i / ELEM_BITS, i % ELEM_BITS;
      FlipBit(elems[e], k);
      UnpackedUpdate(elems[..], bitCnt, i, Xor(elems[e], Shifted(k)), !BitAt(elems[e], k));
      elems[e] := Xor(elems[e], Shifted(k));
    }

    method Set(i: nat, value: bool)
      requires Valid() && i < bitCnt
      modifies elems
      ensures Bits() == old(Bits())[i := value]
    {
      if value {
        Mark(i);
      } else {
        Reset(i);
      }
    }

    method Test(i: nat) returns (b: bool)
      requires Valid() && i < bitCnt
      ensures b == Bits()[i]
    {
      TestMask(elems[i / ELEM_BITS], i % ELEM_BITS);
      b := And(elems[i / ELEM_BITS], Shifted(i % ELEM_BITS)) != 0;
    }

    /** bitmap_set_multiple. */
    method SetMultiple(start: nat, cnt: nat, value: bool)
      requires Valid() && start + cnt <= bitCnt
      modifies elems
      ensures Bits() == Range(old(Bits()), start, cnt, value)
    {
      hide Unpacked;
      var i := 0;
      while i < cnt
        invariant 0 <= i <= cnt && Bits() == Range(old(Bits()), start, i, value)
      {
        Set(start + i, value);
        i := i + 1;
      }
    }

    /** bitmap_contains. */
    method Contains(start: nat, cnt: nat, value: bool) returns (r: bool)
      requires Valid() && start + cnt <= bitCnt
      ensures r <==> !AllAre(Bits(), start, cnt, !value)
    {
      hide Unpacked;
      var i := 0;
      while i < cnt
        invariant 0 <= i <= cnt && AllAre(Bits(), start, i, !value)
      {
        var b := Test(start + i);
        if b == value {
          return true;
        }
        i := i + 1;
      }
      return false;
    }

    /** bitmap_scan: the lowest group of `cnt` bits with the value, if there is one. */
    method Scan(start: nat, cnt: nat, value: bool) returns (r: Option<nat>)
      requires Valid() && start <= bitCnt
      ensures Lowest(Bits(), start, cnt, value, r)
    {
      hide Unpacked;
      if cnt <= bitCnt {
        var last := bitCnt - cnt;
        var i := start;
        while i <= last
          invariant start <= i && forall j :: start <= j < i && j + cnt <= bitCnt ==> !AllAre(Bits(), j, cnt, value)
        {
          var other := Contains(i, cnt, !value);
          if !other {
            return Some(i);
          }
          i := i + 1;
        }
      }
      return None;
    }

    /** bitmap_scan_and_flip. */
    method ScanAndFlip(start: nat, cnt: nat, value: bool) returns (r: Option<nat>)
      requires Valid() && start <= bitCnt
      modifies elems
      ensures Lowest(old(Bits()), start, cnt, value, r)
      ensures Bits() == if r.None? then old(Bits()) else Range(old(Bits()), r.value, cnt, !value)
    {
      hide Unpacked;
      r := Scan(start, cnt, value);
      if r.Some? {
        SetMultiple(r.value, cnt, !value);
      }
    }

    /** bitmap_read: `file` is what file_read_at leaves in the words, all of them those of the
        file if `complete`.  The map has their bits, and the unused ones of the last word are
        cleared, also after a short read. */
    method Read(file: seq<Elem>, complete: bool) returns (success: bool)
      requires Valid() && |file| == ElemCount(bitCnt)
      modifies elems
      ensures Bits() == Unpacked(file, bitCnt) && (success <==> complete || bitCnt == 0)
      ensures forall k :: bitCnt % ELEM_BITS <= k < ELEM_BITS && bitCnt % ELEM_BITS != 0 ==>
        !BitAt(elems[bitCnt / ELEM_BITS], k)
    {
      success := true;
      if bitCnt > 0 {
        success := complete;
        var i := 0;
        while i < elems.Length
          invariant 0 <= i <= elems.Length && elems[..i] == file[..i]
        {
          elems[i] := file[i];
          i := i + 1;
        }
        var last, n := ElemCount(bitCnt) - 1, bitCnt % ELEM_BITS;
        var m := if n != 0 then n else ELEM_BITS;
        assert elems[..] == file;
        MaskedWord(file[last], m);
        LastMasked(file, bitCnt, m, And(file[last], Shifted(m) - 1));
        elems[last] := And(elems[last], Shifted(m) - 1);
        assert elems[..] == file[last := And(file[last], Shifted(m) - 1)];
      }
    }
  }

  /** Masking a word with (1 << m) - 1 keeps its first `m` bits. */
  lemma MaskedWord(w: Elem, m: nat)
    ensures forall k: nat :: BitAt(And(w, Shifted(m) - 1), k) <==> BitAt(w, k) && k < m
  {
    forall k: nat ensures BitAt(And(w, Shifted(m) - 1), k) <==> BitAt(w, k) && k < m {
      AndBit(w, Shifted(m) - 1, k);
      LowMaskBit(m, k);
    }
  }

  /** Masking the last word keeps the bits in use. */
  lemma LastMasked(file: seq<Elem>, n: nat, m: nat, w: Elem)
    requires |file| == ElemCount(n) && n > 0 && m == (if n % ELEM_BITS != 0 then n % ELEM_BITS else ELEM_BITS)
    requires forall k: nat :: BitAt(w, k) <==> BitAt(file[ElemCount(n) - 1], k) && k < m
    ensures Unpacked(file[ElemCount(n) - 1 := w], n) == Unpacked(file, n)
  {
    var last := ElemCount(n) - 1;
    var now, before := Unpacked(file[last := w], n), Unpacked(file, n);
    forall i | 0 <= i < n ensures now[i] == before[i] {
      if i / ELEM_BITS == last { InLast(n, i, m); }
    }
  }

  lemma InLast(n: nat, i: nat, m: nat)
    requires i < n && i / ELEM_BITS == ElemCount(n) - 1 && m == (if n % ELEM_BITS != 0 then n % ELEM_BITS else ELEM_BITS)
    ensures i % ELEM_BITS < m
  {
  }
}
