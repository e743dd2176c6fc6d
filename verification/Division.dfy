/** 64-bit division built from the x86 DIVL instruction, which divides 64 by 32 bits and
    traps when the quotient does not fit in 32 (arithmetic.c). */
module Division {
  import opened Arithmetic
  import opened Storage

  const B64: int := 0x1_0000_0000_0000_0000
  const INT64_MIN: int := -0x8000_0000_0000_0000
  const INT64_MAX: int := 0x7fff_ffff_ffff_ffff

  type U32 = x: int | 0 <= x < WORD
  type U64 = x: int | 0 <= x < B64
  type I32 = x: int | -0x8000_0000 <= x <= 0x7fff_ffff
  type I64 = x: int | INT64_MIN <= x <= INT64_MAX

  /** Conversions keep the low bits and read them in two's complement. */
  function ToU32(x: int): (r: int)
    ensures 0 <= r < WORD
  {
    x % WORD
  }

  function ToU64(x: int): (r: int)
    ensures 0 <= r < B64
  {
    x % B64
  }

  function ToI32(x: int): (r: int)
    ensures -0x8000_0000 <= r <= 0x7fff_ffff
  {
    if x % WORD < 0x8000_0000 then x % WORD else x % WORD - WORD
  }

  function ToI64(x: int): (r: int)
    ensures INT64_MIN <= r <= INT64_MAX
  {
    if x % B64 < 0x8000_0000_0000_0000 then x % B64 else x % B64 - B64
  }

  function Pow2(k: nat): (r: nat)
    ensures r >= 1
  {
    if k == 0 then 1 else 2 * Pow2(k - 1)
  }

  lemma {:induction false} PowAdd(a: nat, b: nat)
    ensures Pow2(a + b) == Pow2(a) * Pow2(b)
  {
    if a > 0 {
      PowAdd(a - 1, b);
      assert Pow2(a) * Pow2(b) == 2 * (Pow2(a - 1) * Pow2(b));
    }
  }

  // ---------- divl and nlz ----------

  /** The instruction traps exactly when the quotient does not exist or does not fit. */
  method Divl(n: U64, d: U32) returns (q: Option<U32>)
    ensures q.None? <==> d == 0 || n >= WORD * d
    ensures q.Some? ==> q.value * d <= n < (q.value + 1) * d
  {
    if d == 0 {
      return None;
    }
    QuotientFits(n, d);
    DivisionSpec(n, d);
    q := if n / d < WORD then Some(n / d) else None;
  }

  lemma DivisionSpec(n: int, d: int)
    requires 0 <= n && d > 0
    ensures 0 <= n / d && (n / d) * d <= n < (n / d + 1) * d
  {
    assert n == d * (n / d) + n % d;
  }

  /** A quotient is known by its bounds. */
  lemma DivisionUnique(n: int, d: int, q: int)
    requires 0 <= n && d > 0 && q * d <= n < (q + 1) * d
    ensures q == n / d
  {
    DivisionSpec(n, d);
    var p := n / d;
    if q < p { MulMonotone(q + 1, p, d); }
    if p < q { MulMonotone(p + 1, q, d); }
  }

  lemma QuotientFits(n: int, d: int)
    requires 0 <= n && d > 0
    ensures n / d < WORD <==> n < WORD * d
  {
    DivisionSpec(n, d);
    var q := n / d;
    if q < WORD { MulMonotone(q + 1, WORD, d); } else { MulMonotone(WORD, q, d); }
  }

  lemma Powers()
    ensures Pow2(0) == 1 && Pow2(1) == 2 && Pow2(2) == 4 && Pow2(4) == 0x10 && Pow2(8) == 0x100
    ensures Pow2(16) == 0x1_0000 && Pow2(31) == 0x8000_0000 && Pow2(32) == WORD
  {
    PowAdd(16, 16);
    PowAdd(31, 1);
  }

  ghost function Shifted(x: int, n: nat): int {
    x * Pow2(n)
  }

  lemma ShiftStep(x: int, n: nat, k: nat, m: int)
    requires m == Pow2(k)
    ensures Shifted(x, n + k) == Shifted(x, n) * m
  {
    hide Pow2;
    PowAdd(n, k);
  }

  /** The shift that brings the highest set bit to the top. */
  method Nlz(x: U32) returns (n: nat)
    requires x != 0
    ensures n <= 31 && 0x8000_0000 <= Shifted(x, n) < WORD
  {
    hide Shifted, Pow2, ToU32;
    Powers();
    Unshifted(x);
    n := 0;
    var y: U32 := x;
    if y <= 0x0000_FFFF { ShiftStep(x, n, 16, 0x1_0000); Fits32(y * 0x1_0000); n := n + 16; y := ToU32(y * 0x1_0000); }
    assert y == Shifted(x, n) && n <= 16 && 0x1_0000 <= y;
    if y <= 0x00FF_FFFF { ShiftStep(x, n, 8, 0x100); Fits32(y * 0x100); n := n + 8; y := ToU32(y * 0x100); }
    assert y == Shifted(x, n) && n <= 24 && 0x100_0000 <= y;
    if y <= 0x0FFF_FFFF { ShiftStep(x, n, 4, 0x10); Fits32(y * 0x10); n := n + 4; y := ToU32(y * 0x10); }
    assert y == Shifted(x, n) && n <= 28 && 0x1000_0000 <= y;
    if y <= 0x3FFF_FFFF { ShiftStep(x, n, 2, 4); Fits32(y * 4); n := n + 2; y := ToU32(y * 4); }
    assert y == Shifted(x, n) && n <= 30 && 0x4000_0000 <= y;
    if y <= 0x7FFF_FFFF { ShiftStep(x, n, 1, 2); n := n + 1; }
  }

  lemma Fits32(x: int)
    requires 0 <= x < WORD
    ensures ToU32(x) == x
  {
  }

  lemma Unshifted(x: int)
    ensures Shifted(x, 0) == x
  {
  }

  // ---------- Unsigned division ----------

  /** Division by a 32-bit divisor, digit by digit in base 2^32. */
  lemma SmallDivisor(n1: int, n0: int, d: int, q: int)
    requires 0 <= n1 < WORD && 0 <= n0 < WORD && 0 < d
    requires q * d <= WORD * (n1 % d) + n0 < (q + 1) * d
    ensures q + WORD * (n1 / d) == (WORD * n1 + n0) / d
  {
    var p, r := n1 / d, n1 % d;
    assert n1 == d * p + r;
    var n, t := WORD * n1 + n0, q + WORD * p;
    assert t * d == q * d + WORD * (p * d);
    assert (t + 1) * d == (q + 1) * d + WORD * (p * d);
    assert n == WORD * (p * d) + WORD * r + n0;
    DivisionUnique(n, d, t);
  }

  // With the divisor's top 32 bits `v` (its value is v * 2P up to 2P - 1 more), half the
  // dividend divided by `v` and then by P is the quotient or one too large.

  lemma EstimateLow(n: int, d: int, p: int, v: int, u: int, e: int, q: int, k: int)
    requires p >= 1 && v >= 1 && k >= 0 && v * (2 * p) <= d && n <= 2 * u + 1
    requires u < (e + 1) * v && e < (q + 1) * p && k * d <= n
    ensures k <= q
  {
    MulMonotoneRight(k, v * (2 * p), d);
    assert k * (v * (2 * p)) == 2 * (k * p * v);
    LessByMul(k * p, e + 1, v);
    LessByMul(k, q + 1, p);
  }

  lemma LessByMul(a: int, b: int, d: int)
    requires d > 0 && a * d < b * d
    ensures a < b
  {
    if b <= a { MulMonotone(b, a, d); }
  }

  /** Whatever fits `k` times is at most the quotient. */
  lemma Least(n: int, d: int, k: int)
    requires 0 <= n && d > 0 && k * d <= n
    ensures k <= n / d
  {
    DivisionSpec(n, d);
    LessByMul(k, n / d + 1, d);
  }

  lemma MulMonotoneRight(a: int, x: int, y: int)
    requires a >= 0 && x <= y
    ensures a * x <= a * y
  {
    MulMonotone(x, y, a);
  }

  lemma OneFewer(n: int, d: int, p: int, v: int, u: int, q1: int, q: int)
    requires 0 <= u < 0x8000_0000_0000_0000 && p >= 1 && v >= 0x8000_0000 && q >= 1
    requires v * (2 * p) <= d < (v + 1) * (2 * p) && 2 * u <= n && q1 * v <= u && q * p <= q1
    ensures (q - 1) * d <= n
  {
    RestFits(u, v, p, q1, q);
    var w := v * (2 * p);
    assert (v + 1) * (2 * p) == w + 2 * p;
    OneFewerFits(n, d, w, p, q);
  }

  lemma OneFewerFits(n: int, d: int, w: int, p: int, q: int)
    requires q >= 1 && w <= d <= w + 2 * p - 1 && q * w <= n && (q - 1) * (2 * p - 1) <= w
    ensures (q - 1) * d <= n
  {
    MulMonotoneRight(q - 1, d, w + (2 * p - 1));
    assert (q - 1) * (w + (2 * p - 1)) == q * w - w + (q - 1) * (2 * p - 1);
  }

  lemma RestFits(u: int, v: int, p: int, q1: int, q: int)
    requires 0 <= u < 0x8000_0000_0000_0000 && p >= 1 && v >= 0x8000_0000 && q >= 1
    requires q1 * v <= u && q * p <= q1
    ensures (q - 1) * (2 * p - 1) <= v * (2 * p)
  {
    assert q1 < WORD by {
      if q1 >= WORD {
        MulMonotone(WORD, q1, v);
      }
    }
    if p == 1 {
    } else {
      assert (q - 1) * (2 * p - 1) <= q * (2 * p) by {
        assert q * (2 * p) - (q - 1) * (2 * p - 1) == q + 2 * p - 1;
      }
      assert q * (2 * p) == 2 * (q * p);
      MulMonotoneRight(v, 4, 2 * p);
    }
  }

  /** The normalised divisor: shifted left by `s` its top 32 bits are full. */
  lemma Normalised(d: U64, s: nat)
    requires s <= 31 && WORD <= d && 0x8000_0000 <= Shifted(d / WORD, s) < WORD
    ensures Shifted(d, s) < B64
    ensures var v, p := Shifted(d, s) / WORD, Pow2(31 - s);
      0x8000_0000 <= v < WORD && v * (2 * p) <= d < (v + 1) * (2 * p)
  {
    hide Pow2, Shifted;
    PowAdd(s, 31 - s);
    Powers();
    var e, p := Pow2(s), Pow2(31 - s);
    ShiftIs(d, s);
    ShiftIs(d / WORD, s);
    NormalisedBy(d, d / WORD, e, 2 * p);
  }

  lemma NormalisedBy(d: int, d1: int, e: int, g: int)
    requires e >= 1 && g >= 1 && e * g == WORD && d1 == d / WORD && 0 <= d < B64
    requires 0x8000_0000 <= d1 * e < WORD
    ensures d * e < B64
    ensures 0x8000_0000 <= d * e / WORD < WORD && (d * e / WORD) * g <= d < (d * e / WORD + 1) * g
  {
    ShiftedBounds(d, d1, e, g);
    DivisionSpec(d * e, WORD);
  }

  lemma ShiftedBounds(d: int, d1: int, e: int, g: int)
    requires e >= 1 && g >= 1 && e * g == WORD && d1 == d / WORD && 0 <= d < B64 && d1 * e < WORD
    ensures (d1 * e) * WORD <= d * e < B64
  {
    TopBits(d1, e, g);
    MulMonotone(d1 * WORD, d, e);
    MulMonotone(d + 1, (d1 + 1) * WORD, e);
    assert (d1 + 1) * WORD * e == (d1 * e + e) * WORD;
    assert d1 * WORD * e == (d1 * e) * WORD;
  }

  /** A multiple of `e` below 2^32, itself a multiple of `e`, is at least `e` below it. */
  lemma TopBits(d1: int, e: int, g: int)
    requires e >= 1 && e * g == WORD && d1 * e < WORD
    ensures d1 * e + e <= WORD
  {
    if d1 >= g {
      MulMonotone(g, d1, e);
    } else {
      MulMonotone(d1 + 1, g, e);
    }
  }

  /** udiv64: floor division for every dividend and every nonzero divisor; the instruction
      traps only for divisor 0. */
  method Udiv64(n: U64, d: U64) returns (r: Option<U64>)
    ensures r.None? <==> d == 0
    ensures d != 0 ==> r == Some(n / d)
  {
    if d / WORD == 0 {
      if d == 0 {
        return None;
      }
      r := DivideSmall(n, d);
    } else if n < d {
      DivisionUnique(n, d, 0);
      r := Some(0);
    } else {
      r := DivideLarge(n, d);
    }
  }

  method DivideSmall(n: U64, d: U32) returns (r: Option<U64>)
    requires d != 0
    ensures r == Some(n / d)
  {
    hide ToU64;
    var n1: U32 := n / WORD;
    var n0: U32 := n % WORD;
    var m := WORD * (n1 % d) + n0;
    DigitFits(n1, n0, d);
    FitsU64(m);
    var low := Divl(ToU64(m), d);
    SmallDivisor(n1, n0, d, low.value);
    SmallQuotient(n, d);
    FitsU64(n / d);
    r := Some(ToU64(low.value + WORD * (n1 / d)));
  }

  /** The instruction does not trap: the remainder so far is below the divisor. */
  lemma DigitFits(n1: U32, n0: U32, d: U32)
    requires d != 0
    ensures 0 <= WORD * (n1 % d) + n0 < WORD * d <= B64
  {
    MulMonotoneRight(WORD, n1 % d + 1, d);
  }

  lemma FitsU64(x: int)
    requires 0 <= x < B64
    ensures ToU64(x) == x
  {
  }

  lemma SmallQuotient(n: int, d: int)
    requires 0 <= n && d > 0
    ensures 0 <= n / d <= n
  {
    DivisionSpec(n, d);
    if n / d > 0 { MulMonotoneRight(n / d, 1, d); }
  }

  method DivideLarge(n: U64, d: U64) returns (r: Option<U64>)
    requires WORD <= d <= n
    ensures r == Some(n / d)
  {
    hide Pow2, Shifted, ToU64;
    var d1: U32 := d / WORD;
    var s := Nlz(d1);
    Normalised(d, s);
    ShiftIs(d, s);
    ShiftPositive(d, s);
    FitsU64(d * Pow2(s));
    var v: U32 := ToU64(d * Pow2(s)) / WORD;
    var e := Divl(n / 2, v);
    Estimate(n, d, Pow2(31 - s), v, e.value);
    var q: U64 := e.value / Pow2(31 - s);
    Corrected(n, d, q);
    FitsU64(n - (q - 1) * d);
    r := Some(if ToU64(n - (q - 1) * d) < d then q - 1 else q);
  }

  lemma ShiftPositive(d: int, s: nat)
    requires d >= 0
    ensures d * Pow2(s) >= 0
  {
    MulMonotone(0, d, Pow2(s));
  }

  lemma ShiftIs(d: int, s: nat)
    ensures d * Pow2(s) == Shifted(d, s)
  {
  }

  /** The estimate is exact or one too large. */
  lemma Estimate(n: U64, d: U64, p: nat, v: U32, e: U32)
    requires d <= n && p >= 1 && v >= 0x8000_0000 && v * (2 * p) <= d < (v + 1) * (2 * p)
    requires e * v <= n / 2 < (e + 1) * v
    ensures 1 <= n / d <= e / p <= n / d + 1 && e / p <= e
  {
    DivisionSpec(n, d);
    DivisionSpec(e, p);
    EstimateLow(n, d, p, v, n / 2, e, e / p, n / d);
    Least(n, d, 1);
    OneFewer(n, d, p, v, n / 2, e, e / p);
    LessByMul(e / p - 1, n / d + 1, d);
    SmallQuotient(e, p);
  }

  lemma Corrected(n: int, d: int, q: int)
    requires 0 <= n < B64 && 1 <= d && 1 <= q && n / d <= q <= n / d + 1
    ensures 0 <= n - (q - 1) * d < B64
    ensures n - (q - 1) * d < d <==> q == n / d + 1
  {
    DivisionSpec(n, d);
    MulMonotone(0, q - 1, d);
  }

  /** umod64 returns 32 bits, so it gives the remainder exactly when that fits. */
  method Umod64(n: U64, d: U64) returns (r: Option<U32>)
    ensures r.None? <==> d == 0
    ensures d != 0 ==> (r == Some(n % d) <==> n % d < WORD)
    ensures d != 0 ==> r.value == ToU32(n % d)
  {
    var q := Udiv64(n, d);
    match q
    case None => r := None;
    case Some(v) =>
      assert n - d * v == n % d;
      r := Some(ToU32(ToU64(n - ToU64(d * v))));
      Remainder(n, d, v);
  }

  lemma Remainder(n: U64, d: U64, v: U64)
    requires d != 0 && v == n / d
    ensures ToU64(n - ToU64(d * v)) == n % d
  {
    assert n == d * v + n % d;
    DivisionSpec(n, d);
    assert 0 <= d * v <= n;
  }

  // ---------- Signed division ----------

  /** C's quotient: rounded toward zero. */
  function Truncated(n: int, d: int): int
    requires d != 0
  {
    var q := Abs(n) / Abs(d);
    if (n < 0) == (d < 0) then q else -q
  }

  function Abs(n: int): nat { if n < 0 then -n else n }

  /** sdiv64 truncates toward zero, with the one exception that has no 64-bit answer. */
  method Sdiv64(n: I64, d: I64) returns (r: Option<I64>)
    ensures r.None? <==> d == 0
    ensures d != 0 ==> (r == Some(Truncated(n, d)) <==> !(n == INT64_MIN && d == -1))
    ensures n == INT64_MIN && d == -1 ==> r == Some(INT64_MIN)
  {
    hide ToU64, ToI64, Truncated;
    var nAbs: U64 := if n >= 0 then ToU64(n) else ToU64(-ToU64(n));
    var dAbs: U64 := if d >= 0 then ToU64(d) else ToU64(-ToU64(d));
    AbsIs(n);
    AbsIs(d);
    var q := Udiv64(nAbs, dAbs);
    match q
    case None => r := None;
    case Some(v) =>
      SignRestored(n, d, v);
      r := Some(if (n < 0) == (d < 0) then ToI64(v) else ToI64(-ToI64(v)));
  }

  lemma AbsIs(n: I64)
    ensures (if n >= 0 then ToU64(n) else ToU64(-ToU64(n))) == Abs(n)
  {
    hide ToU64;
    if n >= 0 {
      FitsU64(n);
    } else {
      WrapsU64(n);
      WrapsU64(-(n + B64));
    }
  }

  lemma WrapsU64(x: int)
    requires -B64 <= x < 0
    ensures ToU64(x) == x + B64
  {
  }

  lemma SignRestored(n: I64, d: I64, v: int)
    requires d != 0 && v == Abs(n) / Abs(d)
    ensures var r := if (n < 0) == (d < 0) then ToI64(v) else ToI64(-ToI64(v));
      && (r == Truncated(n, d) <==> !(n == INT64_MIN && d == -1))
      && (n == INT64_MIN && d == -1 ==> r == INT64_MIN)
  {
    hide ToI64;
    Overflow();
    if v < 0x8000_0000_0000_0000 {
      FitsI64(v);
      FitsI64(-v);
    }
  }

  /** smod64, likewise in 32 bits; where the quotient overflows it still is right. */
  method Smod64(n: I64, d: I64) returns (r: Option<I32>)
    ensures r.None? <==> d == 0
    ensures d != 0 ==> r.value == ToI32(n - d * Truncated(n, d))
    ensures d != 0 ==> (r == Some(n - d * Truncated(n, d)) <==> -0x8000_0000 <= n - d * Truncated(n, d) <= 0x7fff_ffff)
  {
    var q := Sdiv64(n, d);
    match q
    case None => r := None;
    case Some(v) =>
      r := Some(ToI32(ToI64(n - ToI64(d * v))));
      SignedRemainder(n, d, v);
  }

  lemma SignedRemainder(n: I64, d: I64, v: I64)
    requires d != 0 && (if n == INT64_MIN && d == -1 then v == INT64_MIN else v == Truncated(n, d))
    ensures ToI64(n - ToI64(d * v)) == n - d * Truncated(n, d)
  {
    hide ToI64, Truncated;
    TruncatedBounds(n, d);
    var r := n - d * Truncated(n, d);
    if n == INT64_MIN && d == -1 {
      Overflow();
    } else {
      FitsI64(d * v);
    }
    FitsI64(r);
  }

  /** The one quotient that does not fit, and how it comes back. */
  lemma Overflow()
    ensures Truncated(INT64_MIN, -1) == -INT64_MIN && ToI64(-INT64_MIN) == INT64_MIN
  {
  }

  lemma FitsI64(x: int)
    requires INT64_MIN <= x <= INT64_MAX
    ensures ToI64(x) == x
  {
  }

  /** The remainder of truncated division is smaller than the divisor and has the sign of
      the dividend. */
  lemma TruncatedBounds(n: int, d: int)
    requires d != 0
    ensures var r := n - d * Truncated(n, d);
      Abs(r) < Abs(d) && (n >= 0 ==> 0 <= r <= n) && (n <= 0 ==> n <= r <= 0)
  {
    var q := Abs(n) / Abs(d);
    DivisionSpec(Abs(n), Abs(d));
    MulMonotone(0, q, Abs(d));
    assert d * Truncated(n, d) == if n < 0 then -(q * Abs(d)) else q * Abs(d);
  }

  // ---------- Which divisors are safe ----------

  ghost predicate UmodRight(d: U64)
    requires d != 0
  {
    forall n: U64 :: ToU32(n % d) == n % d
  }

  /** umod64 gives every number its remainder exactly for divisors up to 2^32. */
  lemma UmodRightExactly(d: U64)
    requires d != 0
    ensures UmodRight(d) <==> d <= WORD
  {
    hide ToU32;
    if UmodRight(d) {
      var n: U64 := d - 1;
      SmallRemainder(n, d);
      assert ToU32(n % d) == n % d;
      FitsExactly(n);
    }
    if d <= WORD {
      forall n: U64 ensures ToU32(n % d) == n % d {
        DivisionSpec(n, d);
        FitsExactly(n % d);
      }
    }
  }

  lemma SmallRemainder(n: nat, d: nat)
    requires n < d
    ensures n % d == n
  {
  }

  lemma FitsExactly(x: nat)
    ensures ToU32(x) == x <==> x < WORD
  {
  }

  ghost predicate SmodRight(d: I64)
    requires d != 0
  {
    forall n: I64 :: ToI32(n - d * Truncated(n, d)) == n - d * Truncated(n, d)
  }

  /** smod64 does exactly for divisors of size up to 2^31. */
  lemma SmodRightExactly(d: I64)
    requires d != 0
    ensures SmodRight(d) <==> Abs(d) <= 0x8000_0000
  {
    if SmodRight(d) {
      var n: I64 := Abs(d) - 1;
      BelowDivisor(n, d);
      assert ToI32(n - d * Truncated(n, d)) == n - d * Truncated(n, d);
    }
    if Abs(d) <= 0x8000_0000 {
      forall n: I64 ensures ToI32(n - d * Truncated(n, d)) == n - d * Truncated(n, d) {
        TruncatedBounds(n, d);
        FitsI32(n - d * Truncated(n, d));
      }
    }
  }

  lemma BelowDivisor(n: int, d: int)
    requires d != 0 && 0 <= n < Abs(d)
    ensures n - d * Truncated(n, d) == n
  {
    BelowQuotient(n, Abs(d));
    assert Truncated(n, d) == 0;
    assert d * 0 == 0;
  }

  lemma BelowQuotient(n: int, a: int)
    requires 0 <= n < a
    ensures n / a == 0
  {
    var q := n / a;
    assert n == a * q + n % a;
    if q >= 1 { MulMonotone(1, q, a); } else if q <= -1 { MulMonotone(q, -1, a); }
  }

  lemma FitsI32(x: int)
    requires -0x8000_0000 <= x < 0x8000_0000
    ensures ToI32(x) == x
  {
  }

  /** The 32-bit results lose remainders that do not fit, and the signed one even its sign. */
  lemma RemainderCanBeLost()
    ensures ToU32(0x1_0000_0000 % 0x2_0000_0000) == 0 && 0x1_0000_0000 % 0x2_0000_0000 != 0
    ensures var n, d := 0x8000_0000, 0x1_0000_0000;
      n - d * Truncated(n, d) == 0x8000_0000 && ToI32(n - d * Truncated(n, d)) == -0x8000_0000
  {
    BelowDivisor(0x8000_0000, 0x1_0000_0000);
  }
}
