/** Octal numbers as text: printing with leading zeros and reading back (stdio.c, ustar.c). */
module OctalText {
  import opened Storage

  const ZERO: Byte := 48
  const ULONG_MAX: nat := 0xffff_ffff

  predicate IsDigit(c: Byte) { 48 <= c <= 55 }

  function Digit(v: nat): Byte
    requires v < 8
  {
    var c: int := 48 + v;
    c
  }

  /** The number a sequence of octal digits stands for. */
  function Value(s: seq<Byte>): int {
    if s == [] then 0
    else
      var c: int := s[|s| - 1];
      8 * Value(s[..|s| - 1]) + (c - 48)
  }

  function Pow8(n: nat): (p: nat)
    ensures p >= 1
  {
    if n == 0 then 1 else 8 * Pow8(n - 1)
  }

  /** `v` in `w` octal digits, the low ones if there are more. */
  function Octal(v: nat, w: nat): (s: seq<Byte>)
    ensures |s| == w && forall i :: 0 <= i < w ==> IsDigit(s[i])
  {
    if w == 0 then [] else Octal(v / 8, w - 1) + [Digit(v % 8)]
  }

  lemma {:induction false} ValueOctal(v: nat, w: nat)
    requires v < Pow8(w)
    ensures Value(Octal(v, w)) == v
  {
    if w > 0 {
      ValueOctal(v / 8, w - 1);
      assert Octal(v, w)[..w - 1] == Octal(v / 8, w - 1);
    }
  }

  function Zeros(n: nat): (s: seq<Byte>)
    ensures |s| == n && forall i :: 0 <= i < n ==> s[i] == ZERO
  {
    seq(n, _ => ZERO)
  }

  lemma {:induction false} OctalZero(w: nat)
    ensures Octal(0, w) == Zeros(w)
  {
    if w > 0 { OctalZero(w - 1); }
  }

  // ---------- Printing ----------

  /** The digits it takes to write `v`. */
  function Length(v: nat): (n: nat)
    ensures n >= 1
  {
    if v < 8 then 1 else 1 + Length(v / 8)
  }

  lemma {:induction false} LengthFits(v: nat)
    ensures v < Pow8(Length(v))
  {
    if v >= 8 { LengthFits(v / 8); }
  }

  lemma {:induction false} LengthLeast(v: nat, w: nat)
    requires v < Pow8(w) && w >= 1
    ensures Length(v) <= w
  {
    if v >= 8 { LengthLeast(v / 8, w - 1); }
  }

  lemma {:induction false} PowGrows(n: nat, w: nat)
    requires n <= w
    ensures Pow8(n) <= Pow8(w)
  {
    if n < w { PowGrows(n, w - 1); }
  }

  /** "%0<width>o": at least `width` digits, with zeros in front. */
  function Printed(v: nat, width: nat): seq<Byte> {
    Octal(v, if Length(v) <= width then width else Length(v))
  }

  /** What snprintf leaves of `s` in a buffer. */
  function Fitted(s: seq<Byte>, bufSize: nat): seq<Byte> {
    if bufSize == 0 then [] else (if |s| < bufSize then s else s[..bufSize - 1]) + [0]
  }

  /** A number of at most `width` digits fills a buffer of one byte more. */
  lemma PrintedFits(v: nat, width: nat)
    requires v < Pow8(width) && width >= 1
    ensures Fitted(Printed(v, width), width + 1) == Octal(v, width) + [0]
  {
    LengthLeast(v, width);
  }

  /** format_integer and vsnprintf_helper for "%0<width>o". */
  method FormatOctal(value: nat, width: nat, bufSize: nat) returns (buf: seq<Byte>)
    ensures buf == Fitted(Printed(value, width), bufSize)
  {
    hide Octal, Pow8, Reversed, Length;
    ghost var w := if Length(value) <= width then width else Length(value);
    LengthFits(value);
    PowGrows(Length(value), w);
    var rev: seq<Byte> := [];
    var v: nat := value;
    // the digits, lowest first
    while v > 0
      invariant |rev| <= w && v < Pow8(w - |rev|) && Octal(value, w) == Octal(v, w - |rev|) + Reversed(rev)
      invariant if v > 0 then |rev| + Length(v) == Length(value) else |rev| == if value == 0 then 0 else Length(value)
      decreases v
    {
      NextDigit(v, w - |rev|, rev);
      rev := rev + [Digit(v % 8)];
      v := v / 8;
    }
    OctalZero(w - |rev|);
    ReversedOne();
    LengthOne();
    if |rev| < 1 {
      assert value == 0;
      assert Zeros(w) == Zeros(w - 1) + [ZERO];
      rev := rev + [ZERO];
      assert rev == [ZERO];
    }
    var padCnt := if width < |rev| then 0 else width - |rev|;
    var out := Zeros(padCnt) + Reversed(rev);
    assert out == Octal(value, w);
    buf := if bufSize == 0 then [] else (if |out| < bufSize then out else out[..bufSize - 1]) + [0];
  }

  lemma LengthOne()
    ensures Length(0) == 1
  {
  }

  lemma NextDigit(v: nat, w: nat, rev: seq<Byte>)
    requires 0 < v < Pow8(w)
    ensures w > 0 && v / 8 < Pow8(w - 1) && Length(v) == if v / 8 > 0 then 1 + Length(v / 8) else 1
    ensures Octal(v, w) + Reversed(rev) == Octal(v / 8, w - 1) + Reversed(rev + [Digit(v % 8)])
  {
    var d := Digit(v % 8);
    assert (rev + [d])[..|rev|] == rev;
    assert Reversed(rev + [d]) == [d] + Reversed(rev);
  }

  lemma ReversedOne()
    ensures Reversed([ZERO]) == [ZERO]
  {
  }

  function Reversed(s: seq<Byte>): (r: seq<Byte>)
    ensures |r| == |s|
  {
    if s == [] then [] else [s[|s| - 1]] + Reversed(s[..|s| - 1])
  }

  // ---------- Reading ----------

  /** How many octal digits `s` begins with. */
  function DigitCount(s: seq<Byte>): (n: nat)
    ensures n <= |s| && (forall i :: 0 <= i < n ==> IsDigit(s[i])) && (n < |s| ==> !IsDigit(s[n]))
  {
    if s == [] || !IsDigit(s[0]) then 0 else 1 + DigitCount(s[1..])
  }

  /** The value of an octal field: digits up to a space or null byte, within 32 bits. */
  function FieldValue(s: seq<Byte>): Option<nat> {
    var n := DigitCount(s);
    if n == 0 || n == |s| || (s[n] != 32 && s[n] != 0) then None
    else if Value(s[..n]) < 0 || Value(s[..n]) > ULONG_MAX then None
    else Some(Value(s[..n]))
  }

  lemma {:induction false} ValueGrows(s: seq<Byte>, i: nat, n: nat)
    requires i <= n <= |s| && forall j :: 0 <= j < n ==> IsDigit(s[j])
    ensures 0 <= Value(s[..i]) <= Value(s[..n])
  {
    if i < n {
      ValueGrows(s, i, n - 1);
      assert s[..n][..n - 1] == s[..n - 1];
    } else if n > 0 {
      ValueGrows(s, n - 1, n - 1);
      assert s[..n][..n - 1] == s[..n - 1];
    }
  }

  lemma CountIs(s: seq<Byte>, n: nat)
    requires n <= |s| && (forall j :: 0 <= j < n ==> IsDigit(s[j])) && (n < |s| ==> !IsDigit(s[n]))
    ensures DigitCount(s) == n
  {
    assert DigitCount(s) < |s| ==> !IsDigit(s[DigitCount(s)]);
  }

  /** parse_octal_field. */
  method ParseOctal(s: seq<Byte>) returns (r: Option<nat>)
    ensures r == FieldValue(s)
  {
    var value: nat := 0;
    var ofs := 0;
    while ofs < |s|
      invariant 0 <= ofs <= |s| && (forall j :: 0 <= j < ofs ==> IsDigit(s[j])) && value == Value(s[..ofs]) && value <= ULONG_MAX
    {
      var c: int := s[ofs];
      if '0' as int <= c <= '7' as int {
        assert s[..ofs + 1][..ofs] == s[..ofs];
        if value > ULONG_MAX / 8 {
          ghost var n := DigitCount(s);
          ValueGrows(s, ofs + 1, n);
          return None;
        }
        value := (c - '0' as int) + value * 8;
      } else if c == ' ' as int || c == 0 {
        CountIs(s, ofs);
        if ofs > 0 {
          return Some(value);
        }
        return None;
      } else {
        CountIs(s, ofs);
        return None;
      }
      ofs := ofs + 1;
    }
    CountIs(s, |s|);
    return None;
  }

  /** A printed number is read back, whatever follows its null byte. */
  lemma FieldRoundTrip(v: nat, w: nat, rest: seq<Byte>)
    requires 1 <= w && v < Pow8(w) && v <= ULONG_MAX
    ensures FieldValue(Octal(v, w) + [0] + rest) == Some(v)
  {
    var s := Octal(v, w) + [0] + rest;
    CountIs(s, w);
    ValueOctal(v, w);
    assert s[..w] == Octal(v, w);
  }
}
