/** Bitwise operations on the naturals: power-of-2 masks (hash.c) and the bits of a word
    (bitmap.c). */
module Bits {

  function And(a: nat, b: nat): (r: nat)
    ensures r <= a && r <= b
  {
    if a == 0 || b == 0 then 0 else (a % 2) * (b % 2) + 2 * And(a / 2, b / 2)
  }

  ghost predicate Power(p: nat) {
    p == 1 || (p >= 2 && p % 2 == 0 && Power(p / 2))
  }

  /** Masking with one less than a power of 2 is the remainder. */
  lemma {:induction false} MaskIsMod(h: nat, p: nat)
    requires Power(p)
    ensures And(h, p - 1) == h % p
  {
    if p > 1 && h > 0 {
      MaskIsMod(h / 2, p / 2);
      assert (p - 1) / 2 == p / 2 - 1 && (p - 1) % 2 == 1;
      HalfMod(h, p / 2);
    }
  }

  lemma HalfMod(h: nat, q: nat)
    requires q >= 1
    ensures h % (2 * q) == h % 2 + 2 * (h / 2 % q)
  {
    var a, r := h / 2 / q, h / 2 % q;
    assert h / 2 == q * a + r;
    assert h == 2 * q * a + (2 * r + h % 2);
    ModUnique(h, 2 * q, a, 2 * r + h % 2);
  }

  lemma ModUnique(x: nat, m: nat, q: nat, r: nat)
    requires m > 0 && r < m && x == m * q + r
    ensures x % m == r
  {
    var a, b := x / m, x % m;
    assert x == m * a + b;
    if a < q { Grow(m, a + 1, q); }
    if q < a { Grow(m, q + 1, a); }
  }

  lemma Grow(m: nat, a: nat, b: nat)
    requires a <= b
    ensures m * a <= m * b
  {
    assert m * (b - a) >= 0;
    assert m * b == m * a + m * (b - a);
  }

  // ---------- x & (x - 1) ----------

  /** Turning off the lowest 1 bit keeps the highest one. */
  lemma {:induction false} LowBitOff(x: nat, p: nat)
    requires Power(p) && p < x < 2 * p
    ensures p <= And(x, x - 1) < x
  {
    if p == 1 {
    } else if x % 2 == 1 {
      assert (x - 1) / 2 == x / 2;
      AndSelf(x / 2);
      assert p / 2 <= x / 2;
    } else {
      assert (x - 1) / 2 == x / 2 - 1;
      LowBitOff(x / 2, p / 2);
    }
  }

  lemma {:induction false} AndSelf(x: nat)
    ensures And(x, x) == x
  {
    if x > 0 { AndSelf(x / 2); }
  }

  /** is_power_of_2 is right. */
  lemma {:induction false} PowerTest(x: nat)
    requires x >= 1
    ensures And(x, x - 1) == 0 <==> Power(x)
  {
    if x == 1 {
    } else if x % 2 == 1 {
      assert (x - 1) / 2 == x / 2;
      AndSelf(x / 2);
    } else {
      assert (x - 1) / 2 == x / 2 - 1;
      PowerTest(x / 2);
    }
  }

  /** Every positive number has a power of 2 just at or below it. */
  lemma {:induction false} PowerBelow(x: nat) returns (p: nat)
    requires x >= 1
    ensures Power(p) && p <= x < 2 * p
  {
    if x == 1 {
      p := 1;
    } else {
      var q := PowerBelow(x / 2);
      p := 2 * q;
    }
  }

  // ---------- The bits of a word ----------

  /** Bit `k` of `w`. */
  predicate BitAt(w: nat, k: nat) {
    if k == 0 then w % 2 == 1 else BitAt(w / 2, k - 1)
  }

  /** 1 << k. */
  function Shifted(k: nat): (m: nat)
    ensures m >= 1
  {
    if k == 0 then 1 else 2 * Shifted(k - 1)
  }

  function Or(a: nat, b: nat): nat
    decreases a + b
  {
    if a == 0 then b else if b == 0 then a
    else (if a % 2 == 1 || b % 2 == 1 then 1 else 0) + 2 * Or(a / 2, b / 2)
  }

  function Xor(a: nat, b: nat): nat
    decreases a + b
  {
    if a == 0 then b else if b == 0 then a
    else (if a % 2 == b % 2 then 0 else 1) + 2 * Xor(a / 2, b / 2)
  }

  /** The complement of `a` in `n` bits. */
  function Not(a: nat, n: nat): nat
    requires a < Shifted(n)
  {
    Shifted(n) - 1 - a
  }

  lemma {:induction false} ZeroBits(k: nat)
    ensures !BitAt(0, k)
  {
    if k > 0 { ZeroBits(k - 1); }
  }

  lemma {:induction false} AndBit(a: nat, b: nat, k: nat)
    ensures BitAt(And(a, b), k) <==> BitAt(a, k) && BitAt(b, k)
    decreases k
  {
    if a == 0 || b == 0 {
      ZeroBits(k);
    } else {
      OddOrEven(a % 2 * (b % 2), And(a / 2, b / 2));
      if k > 0 { AndBit(a / 2, b / 2, k - 1); }
    }
  }

  lemma OddOrEven(r: nat, q: nat)
    requires r <= 1
    ensures (r + 2 * q) % 2 == r && (r + 2 * q) / 2 == q
  {
  }

  lemma {:induction false} OrBit(a: nat, b: nat, k: nat)
    ensures BitAt(Or(a, b), k) <==> BitAt(a, k) || BitAt(b, k)
    decreases k
  {
    if a == 0 || b == 0 {
      ZeroBits(k);
    } else if k > 0 {
      OrBit(a / 2, b / 2, k - 1);
    }
  }

  lemma {:induction false} XorBit(a: nat, b: nat, k: nat)
    ensures BitAt(Xor(a, b), k) <==> BitAt(a, k) != BitAt(b, k)
    decreases k
  {
    if a == 0 || b == 0 {
      ZeroBits(k);
    } else if k > 0 {
      XorBit(a / 2, b / 2, k - 1);
    }
  }

  lemma {:induction false} NotBit(a: nat, n: nat, k: nat)
    requires a < Shifted(n) && k < n
    ensures BitAt(Not(a, n), k) <==> !BitAt(a, k)
    decreases k
  {
    assert Not(a, n) / 2 == Not(a / 2, n - 1);
    if k > 0 { NotBit(a / 2, n - 1, k - 1); }
  }

  lemma {:induction false} ShiftedBit(j: nat, k: nat)
    ensures BitAt(Shifted(j), k) <==> k == j
  {
    if j > 0 && k > 0 {
      ShiftedBit(j - 1, k - 1);
    } else if j == 0 && k > 0 {
      ZeroBits(k - 1);
    }
  }

  /** The bits below `n` are the ones of (1 << n) - 1. */
  lemma {:induction false} LowMaskBit(n: nat, k: nat)
    ensures BitAt(Shifted(n) - 1, k) <==> k < n
  {
    if n == 0 {
      ZeroBits(k);
    } else if k > 0 {
      LowMaskBit(n - 1, k - 1);
    }
  }

  /** A word is masked to zero exactly when its bit is clear. */
  lemma {:induction false} TestMask(w: nat, k: nat)
    ensures And(w, Shifted(k)) != 0 <==> BitAt(w, k)
  {
    if w == 0 {
      ZeroBits(k);
    } else if k > 0 {
      TestMask(w / 2, k - 1);
    } else {
      assert And(w / 2, 0) == 0;
    }
  }

  lemma {:induction false} ShiftedGrows(j: nat, k: nat)
    requires j < k
    ensures Shifted(j) < Shifted(k)
  {
    if j < k - 1 { ShiftedGrows(j, k - 1); }
  }

  lemma {:induction false} OrBelow(a: nat, b: nat, n: nat)
    requires a < Shifted(n) && b < Shifted(n)
    ensures Or(a, b) < Shifted(n)
    decreases n
  {
    if a > 0 && b > 0 && n > 0 { OrBelow(a / 2, b / 2, n - 1); }
  }

  lemma {:induction false} XorBelow(a: nat, b: nat, n: nat)
    requires a < Shifted(n) && b < Shifted(n)
    ensures Xor(a, b) < Shifted(n)
    decreases n
  {
    if a > 0 && b > 0 && n > 0 { XorBelow(a / 2, b / 2, n - 1); }
  }
}
