/** The ustar header: seventeen fields in 512 bytes (ustar.c; "ustar Interchange Format" in
    the description of pax in SUSv3). */
module UstarLayout {
  import opened Storage
  import opened OctalText

  const HEADER_SIZE: nat := 512
  const FIELDS: nat := 17

  // name, mode, uid, gid, size, mtime, chksum, typeflag, linkname, magic, version,
  // uname, gname, devmajor, devminor, prefix, padding
  const NAME: nat := 0
  const MODE: nat := 1
  const UID: nat := 2
  const GID: nat := 3
  const SIZE: nat := 4
  const MTIME: nat := 5
  const CHKSUM: nat := 6
  const TYPEFLAG: nat := 7
  const MAGIC: nat := 9
  const VERSION: nat := 10
  const UNAME: nat := 11
  const GNAME: nat := 12
  const PREFIX: nat := 15

  function Len(i: nat): nat
    requires i < FIELDS
  {
    [100, 8, 8, 8, 12, 12, 8, 1, 100, 6, 2, 32, 32, 8, 8, 155, 12][i]
  }

  function Start(i: nat): nat
    requires i <= FIELDS
  {
    if i == 0 then 0 else Start(i - 1) + Len(i - 1)
  }

  lemma Starts()
    ensures Start(1) == 100 && Start(2) == 108 && Start(3) == 116 && Start(4) == 124 && Start(5) == 136 && Start(6) == 148
    ensures Start(7) == 156 && Start(8) == 157 && Start(9) == 257 && Start(10) == 263 && Start(11) == 265
    ensures Start(12) == 297 && Start(13) == 329 && Start(14) == 337 && Start(15) == 345 && Start(16) == 500
    ensures Start(17) == HEADER_SIZE
  {
  }

  lemma {:induction false} StartsGrow(i: nat, j: nat)
    requires i < j <= FIELDS
    ensures Start(i) + Len(i) <= Start(j) <= HEADER_SIZE
  {
    if i + 1 < j {
      StartsGrow(i, j - 1);
    }
    StartBound(j);
  }

  lemma StartBound(j: nat)
    requires j <= FIELDS
    ensures Start(j) <= HEADER_SIZE && (j < FIELDS ==> Start(j) + Len(j) <= HEADER_SIZE)
  {
    Starts();
  }

  function Field(d: seq<Byte>, i: nat): (f: seq<Byte>)
    requires |d| == HEADER_SIZE && i < FIELDS
    ensures |f| == Len(i)
  {
    StartBound(i);
    d[Start(i)..Start(i) + Len(i)]
  }

  /** Every byte is in some field: the fields determine the header. */
  lemma FieldsDetermine(d: seq<Byte>, e: seq<Byte>)
    requires |d| == |e| == HEADER_SIZE && forall i :: 0 <= i < FIELDS ==> Field(d, i) == Field(e, i)
    ensures d == e
  {
    Starts();
    hide Start, Len;
    forall p | 0 <= p < HEADER_SIZE ensures d[p] == e[p] {
      var i := FieldAt(p, FIELDS);
      StartBound(i);
      assert Field(d, i)[p - Start(i)] == d[p] && Field(e, i)[p - Start(i)] == e[p];
    }
  }

  /** The field that byte `p` is in. */
  lemma {:induction false} FieldAt(p: nat, n: nat) returns (i: nat)
    requires n <= FIELDS && p < Start(n)
    ensures i < n && Start(i) <= p < Start(i) + Len(i)
  {
    if p >= Start(n - 1) {
      i := n - 1;
    } else {
      i := FieldAt(p, n - 1);
    }
  }

  // ---------- Checksum ----------

  /** The sum of the first `n` bytes, with spaces for the checksum field. */
  function SumTo(d: seq<Byte>, n: nat): nat
    requires n <= |d|
  {
    if n == 0 then 0
    else
      var c: int := if 148 <= n - 1 < 156 then 32 else d[n - 1];
      SumTo(d, n - 1) + c
  }

  function Chksum(d: seq<Byte>): nat
    requires |d| == HEADER_SIZE
  {
    SumTo(d, HEADER_SIZE)
  }

  lemma {:induction false} SumBound(d: seq<Byte>, n: nat)
    requires n <= |d|
    ensures SumTo(d, n) <= 255 * n
  {
    if n > 0 { SumBound(d, n - 1); }
  }

  lemma ChksumFits(d: seq<Byte>)
    requires |d| == HEADER_SIZE
    ensures Chksum(d) < Pow8(7)
  {
    SumBound(d, HEADER_SIZE);
    assert Pow8(7) == 2097152;
  }

  /** The checksum does not depend on what its own field holds. */
  lemma {:induction false} SumIgnores(d: seq<Byte>, e: seq<Byte>, n: nat)
    requires n <= |d| == |e| && forall p :: 0 <= p < n && !(148 <= p < 156) ==> d[p] == e[p]
    ensures SumTo(d, n) == SumTo(e, n)
  {
    if n > 0 { SumIgnores(d, e, n - 1); }
  }

  /** calculate_chksum. */
  method CalculateChksum(d: seq<Byte>) returns (sum: nat)
    requires |d| == HEADER_SIZE
    ensures sum == Chksum(d)
  {
    sum := 0;
    var i := 0;
    while i < HEADER_SIZE
      invariant 0 <= i <= HEADER_SIZE && sum == SumTo(d, i)
    {
      var inChksum := 148 <= i < 156;
      var c: int := if inChksum then 32 else d[i];
      sum := sum + c;
      i := i + 1;
    }
  }

  // ---------- File names ----------

  const SLASH: Byte := 47
  const DOT: Byte := 46

  /** The name begins with "/", "./" or "../". */
  predicate Antisocial(s: seq<Byte>) {
    || (|s| >= 1 && s[0] == SLASH)
    || (|s| >= 2 && s[0] == DOT && s[1] == SLASH)
    || (|s| >= 3 && s[0] == DOT && s[1] == DOT && s[2] == SLASH)
  }

  function AfterSlash(s: seq<Byte>): (r: seq<Byte>)
    requires Antisocial(s)
    ensures |r| < |s| && r == s[|s| - |r|..]
  {
    if s[0] == SLASH then s[1..] else if s[1] == SLASH then s[2..] else s[3..]
  }

  function Strip(s: seq<Byte>): (r: seq<Byte>)
    decreases |s|
  {
    if Antisocial(s) then Strip(AfterSlash(s))
    else if s == [] || s == [DOT, DOT] then [DOT]
    else s
  }

  /** A stripped name is not empty, does not begin with "/", "./" or "../", is not "..", and is
      the end of the given name or ".". */
  lemma {:induction false} StripSafe(s: seq<Byte>)
    ensures var r := Strip(s);
      r != [] && !Antisocial(r) && r != [DOT, DOT] && (r == [DOT] || (|r| <= |s| && r == s[|s| - |r|..]))
    decreases |s|
  {
    if Antisocial(s) {
      var t, r := AfterSlash(s), Strip(s);
      StripSafe(t);
      if r != [DOT] { assert t[|t| - |r|..] == s[|s| - |r|..]; }
    }
  }

  /** Stripping twice is stripping once. */
  lemma StripIdempotent(s: seq<Byte>)
    ensures Strip(Strip(s)) == Strip(s)
  {
    StripSafe(s);
  }

  /** strip_antisocial_prefixes. */
  method StripPrefixes(name: seq<Byte>) returns (r: seq<Byte>)
    ensures r == Strip(name)
  {
    r := name;
    while Antisocial(r)
      invariant Strip(r) == Strip(name)
      decreases |r|
    {
      var i := 0;
      while r[i] != SLASH
        invariant 0 <= i < |r| && forall j :: 0 <= j < i ==> r[j] != SLASH
        invariant exists j :: i <= j <= 2 && j < |r| && r[j] == SLASH
        decreases |r| - i
      {
        i := i + 1;
      }
      assert r[i + 1..] == AfterSlash(r);
      r := r[i + 1..];
    }
    if r == [] || r == [DOT, DOT] {
      r := [DOT];
    }
  }
}
