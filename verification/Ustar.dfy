/** Making and parsing ustar headers (ustar.c). */
module Ustar {
  import opened Storage
  import opened OctalText
  import opened UstarLayout

  const REGULAR: Byte := 48
  const DIRECTORY: Byte := 53
  const INT_MAX: int := 0x7fff_ffff
  const MTIME_VALUE: nat := 1136102400

  /** A C string: bytes other than null. */
  ghost predicate IsString(s: seq<Byte>) {
    forall i :: 0 <= i < |s| ==> s[i] != 0
  }

  function Nulls(n: nat): (s: seq<Byte>)
    ensures |s| == n && forall i :: 0 <= i < n ==> s[i] == 0
  {
    seq(n, _ => 0)
  }

  /** `s` at the front of a field of `n` null bytes. */
  function Padded(s: seq<Byte>, n: nat): (r: seq<Byte>)
    requires |s| <= n
    ensures |r| == n
  {
    s + Nulls(n - |s|)
  }

  /** An int converted to unsigned. */
  function Unsigned(size: int): (r: nat)
    requires -0x8000_0000 <= size <= INT_MAX
    ensures r <= ULONG_MAX
  {
    if size < 0 then size + 0x1_0000_0000 else size
  }

  const ROOT: seq<Byte> := [114, 111, 111, 116]
  const MAGIC_TEXT: seq<Byte> := [117, 115, 116, 97, 114, 0]

  /** What field `i` of a header holds. */
  function Content(i: nat, name: seq<Byte>, typ: Byte, size: nat, sum: nat): (f: seq<Byte>)
    requires i < FIELDS && |name| <= 99
    ensures |f| == Len(i)
  {
    if i == NAME then Padded(name, 100)
    else if i == MODE then Octal(if typ == REGULAR then 420 else 493, 7) + [0]
    else if i == UID || i == GID then Octal(0, 7) + [0]
    else if i == SIZE then Octal(size, 11) + [0]
    else if i == MTIME then Octal(MTIME_VALUE, 11) + [0]
    else if i == CHKSUM then Octal(sum, 7) + [0]
    else if i == TYPEFLAG then [typ]
    else if i == MAGIC then MAGIC_TEXT
    else if i == VERSION then [ZERO, ZERO]
    else if i == UNAME || i == GNAME then Padded(ROOT, 32)
    else Nulls(Len(i))
  }

  /** `d` is the header of a file with that name, type and size. */
  ghost predicate IsHeader(d: seq<Byte>, name: seq<Byte>, typ: Byte, size: nat) {
    && |d| == HEADER_SIZE && |name| <= 99
    && (forall i :: 0 <= i < FIELDS ==> Field(d, i) == Content(i, name, typ, size, Chksum(d)))
  }

  /** Some of the fields in full: the permissions 0644 or 0755, the owner 0 and its name. */
  lemma HeaderText(d: seq<Byte>, name: seq<Byte>, typ: Byte, size: nat)
    requires IsHeader(d, name, typ, size)
    ensures d[100..108] == (if typ == REGULAR then [48, 48, 48, 48, 54, 52, 52, 0] else [48, 48, 48, 48, 55, 53, 53, 0])
    ensures d[108..116] == d[116..124] == [48, 48, 48, 48, 48, 48, 48, 0]
    ensures d[156] == typ && d[257..263] == [117, 115, 116, 97, 114, 0] && d[263..265] == [48, 48]
    ensures d[265..270] == d[297..302] == [114, 111, 111, 116, 0]
  {
    Starts();
    Permissions();
    hide Octal, Start;
    assert Field(d, MODE) == d[100..108] && Field(d, UID) == d[108..116] && Field(d, GID) == d[116..124];
    assert Field(d, TYPEFLAG) == d[156..157] && Field(d, MAGIC) == d[257..263] && Field(d, VERSION) == d[263..265];
    assert Field(d, UNAME) == d[265..297] && Field(d, GNAME) == d[297..329];
    assert d[265..297][..5] == d[265..270] && d[297..329][..5] == d[297..302];
    assert Padded(ROOT, 32)[..5] == [114, 111, 111, 116, 0];
  }

  lemma Permissions()
    ensures Octal(420, 7) == [48, 48, 48, 48, 54, 52, 52] && Octal(493, 7) == [48, 48, 48, 48, 55, 53, 53]
    ensures Octal(0, 7) == [48, 48, 48, 48, 48, 48, 48]
  {
    assert Octal(0, 1) == [48] && Octal(0, 2) == [48, 48] && Octal(0, 3) == [48, 48, 48] && Octal(0, 4) == [48, 48, 48, 48];
    assert Octal(6, 5) == [48, 48, 48, 48, 54] && Octal(7, 5) == [48, 48, 48, 48, 55];
    assert Octal(52, 6) == [48, 48, 48, 48, 54, 52] && Octal(61, 6) == [48, 48, 48, 48, 55, 53];
    assert Octal(0, 5) == [48, 48, 48, 48, 48] && Octal(0, 6) == [48, 48, 48, 48, 48, 48];
  }

  // ---------- Making ----------

  /** The fields that are not null, but for the checksum. */
  function FilledFields(): set<nat> {
    {NAME, MODE, UID, GID, SIZE, MTIME, TYPEFLAG, MAGIC, VERSION, UNAME, GNAME}
  }

  /** Writes `f` at the front of field `i`. */
  method Put(header: array<Byte>, i: nat, f: seq<Byte>)
    requires header.Length == HEADER_SIZE && i < FIELDS && |f| <= Len(i)
    modifies header
    ensures Field(header[..], i) == f + Field(old(header[..]), i)[|f|..]
    ensures forall j :: 0 <= j < FIELDS && j != i ==> Field(header[..], j) == Field(old(header[..]), j)
    ensures forall p :: 0 <= p < HEADER_SIZE && !(Start(i) <= p < Start(i) + Len(i)) ==> header[p] == old(header[p])
  {
    hide Len, Start;
    StartBound(i);
    var at := Start(i);
    var k := 0;
    while k < |f|
      invariant 0 <= k <= |f|
      invariant forall p :: 0 <= p < HEADER_SIZE ==> header[p] == if at <= p < at + k then f[p - at] else old(header[p])
    {
      header[at + k] := f[k];
      k := k + 1;
    }
    Written(old(header[..]), header[..], i, f);
  }

  lemma Written(d: seq<Byte>, e: seq<Byte>, i: nat, f: seq<Byte>)
    requires |d| == |e| == HEADER_SIZE && i < FIELDS && |f| <= Len(i)
    requires forall p :: 0 <= p < HEADER_SIZE ==> e[p] == if Start(i) <= p < Start(i) + |f| then f[p - Start(i)] else d[p]
    ensures Field(e, i) == f + Field(d, i)[|f|..]
    ensures forall j :: 0 <= j < FIELDS && j != i ==> Field(e, j) == Field(d, j)
  {
    hide Len, Start;
    StartBound(i);
    var at, r := Start(i), f + Field(d, i)[|f|..];
    forall q | 0 <= q < Len(i) ensures Field(e, i)[q] == r[q] {
      assert Field(e, i)[q] == e[at + q] && Field(d, i)[q] == d[at + q];
    }
    forall j | 0 <= j < FIELDS && j != i ensures Field(e, j) == Field(d, j) {
      StartBound(j);
      if i < j { StartsGrow(i, j); } else { StartsGrow(j, i); }
    }
  }

  /** The fields in `done` are filled and the others are null. */
  ghost predicate Filled(d: seq<Byte>, done: set<nat>, name: seq<Byte>, typ: Byte, size: nat) {
    && |d| == HEADER_SIZE && |name| <= 99
    && (forall i :: 0 <= i < FIELDS ==>
          Field(d, i) == if i in done then Content(i, name, typ, size, 0) else Nulls(Len(i)))
  }

  method Fill(header: array<Byte>, i: nat, f: seq<Byte>, ghost done: set<nat>, ghost name: seq<Byte>, ghost typ: Byte, ghost size: nat)
    requires header.Length == HEADER_SIZE && Filled(header[..], done, name, typ, size) && i < FIELDS && i !in done
    requires |f| <= Len(i) && f + Nulls(Len(i) - |f|) == Content(i, name, typ, size, 0)
    modifies header
    ensures Filled(header[..], done + {i}, name, typ, size)
  {
    hide Content, Len, Start;
    assert Field(header[..], i)[|f|..] == Nulls(Len(i) - |f|);
    Put(header, i, f);
  }

  /** memset to null. */
  method Clear(header: array<Byte>)
    requires header.Length == HEADER_SIZE
    modifies header
    ensures forall name, typ, size :: |name| <= 99 ==> Filled(header[..], {}, name, typ, size)
  {
    hide Content, Len, Start;
    var p := 0;
    while p < HEADER_SIZE
      invariant 0 <= p <= HEADER_SIZE && forall j :: 0 <= j < p ==> header[j] == 0
    {
      header[p] := 0;
      p := p + 1;
    }
    forall i | 0 <= i < FIELDS ensures Field(header[..], i) == Nulls(Len(i)) {
      StartBound(i);
    }
  }

  /** The numeric text fields. */
  method FillOctal(header: array<Byte>, i: nat, v: nat, width: nat, ghost done: set<nat>, ghost name: seq<Byte>,
                   ghost typ: Byte, ghost size: nat)
    requires header.Length == HEADER_SIZE && Filled(header[..], done, name, typ, size) && i < FIELDS && i !in done
    requires 1 <= width && v < Pow8(width) && Len(i) == width + 1 && Octal(v, width) + [0] == Content(i, name, typ, size, 0)
    modifies header
    ensures Filled(header[..], done + {i}, name, typ, size)
  {
    hide Content, Start, Octal, Filled, Printed, Fitted;
    var f := FormatOctal(v, width, width + 1);
    PrintedFits(v, width);
    assert f + Nulls(0) == f;
    Fill(header, i, f, done, name, typ, size);
  }

  method FillNumbers(header: array<Byte>, name: seq<Byte>, typ: Byte, size: nat)
    requires header.Length == HEADER_SIZE && |name| <= 99 && (typ == REGULAR || typ == DIRECTORY) && size <= ULONG_MAX
    requires Filled(header[..], {}, name, typ, size)
    modifies header
    ensures Filled(header[..], {NAME, MODE, UID, GID, SIZE, MTIME}, name, typ, size)
  {
    hide Start, Octal, Filled, Pow8, Nulls, Padded;
    Powers8();
    Terminated(name, 100);
    ghost var done := {};
    Fill(header, NAME, name + [0], done, name, typ, size);
    done := done + {NAME};
    FillOctal(header, MODE, if typ == REGULAR then 420 else 493, 7, done, name, typ, size);
    done := done + {MODE};
    FillOctal(header, UID, 0, 7, done, name, typ, size);
    done := done + {UID};
    FillOctal(header, GID, 0, 7, done, name, typ, size);
    done := done + {GID};
    FillOctal(header, SIZE, size, 11, done, name, typ, size);
    done := done + {SIZE};
    FillOctal(header, MTIME, MTIME_VALUE, 11, done, name, typ, size);
    done := done + {MTIME};
    assert done == {NAME, MODE, UID, GID, SIZE, MTIME};
  }

  method FillTexts(header: array<Byte>, ghost name: seq<Byte>, typ: Byte, ghost size: nat)
    requires header.Length == HEADER_SIZE && |name| <= 99
    requires Filled(header[..], {NAME, MODE, UID, GID, SIZE, MTIME}, name, typ, size)
    modifies header
    ensures Filled(header[..], FilledFields(), name, typ, size)
  {
    hide Start, Octal, Filled, Nulls, Padded;
    Whole([typ]);
    Whole(MAGIC_TEXT);
    Whole([ZERO, ZERO]);
    Terminated(ROOT, 32);
    ghost var done := {NAME, MODE, UID, GID, SIZE, MTIME};
    Fill(header, TYPEFLAG, [typ], done, name, typ, size);
    done := done + {TYPEFLAG};
    Fill(header, MAGIC, MAGIC_TEXT, done, name, typ, size);
    done := done + {MAGIC};
    Fill(header, VERSION, [ZERO, ZERO], done, name, typ, size);
    done := done + {VERSION};
    Fill(header, GNAME, ROOT + [0], done, name, typ, size);
    done := done + {GNAME};
    Fill(header, UNAME, ROOT + [0], done, name, typ, size);
    done := done + {UNAME};
    assert done == FilledFields();
  }

  lemma Whole(f: seq<Byte>)
    ensures f + Nulls(0) == f
  {
  }

  /** strlcpy into a cleared field. */
  lemma Terminated(s: seq<Byte>, n: nat)
    requires |s| < n
    ensures s + [0] + Nulls(n - |s| - 1) == Padded(s, n)
  {
  }

  lemma Powers8()
    ensures Pow8(7) == 2097152 && Pow8(11) == 8589934592
  {
  }

  /** ustar_make_header: fails exactly for names that are too long, and else leaves the
      header of the stripped name. */
  method MakeHeader(fileName: seq<Byte>, typ: Byte, size: int, header: array<Byte>) returns (ok: bool)
    requires header.Length == HEADER_SIZE && (typ == REGULAR || typ == DIRECTORY) && -0x8000_0000 <= size <= INT_MAX
    modifies header
    ensures ok <==> |Strip(fileName)| <= 99
    ensures ok ==> IsHeader(header[..], Strip(fileName), typ, Unsigned(size))
    ensures !ok ==> header[..] == old(header[..])
  {
    hide Start, Octal, Filled, Pow8, Content, Printed, Fitted, IsHeader;
    var name := StripPrefixes(fileName);
    if |name| > 99 {
      return false;
    }
    Clear(header);
    FillNumbers(header, name, typ, Unsigned(size));
    FillTexts(header, name, typ, Unsigned(size));
    ghost var d := header[..];
    var sum := CalculateChksum(header[..]);
    ChksumFits(d);
    PrintedFits(sum, 7);
    var f := FormatOctal(sum, 7, 8);
    Put(header, CHKSUM, f);
    Starts();
    Whole(f);
    Summed(d, header[..], name, typ, Unsigned(size), sum);
    return true;
  }

  /** Only the checksum field depends on the sum, and the fields that are not filled are null. */
  lemma ContentSum(i: nat, name: seq<Byte>, typ: Byte, size: nat, sum: nat)
    requires i < FIELDS && i != CHKSUM && |name| <= 99
    ensures Content(i, name, typ, size, sum) == Content(i, name, typ, size, 0)
    ensures i !in FilledFields() ==>
              Content(i, name, typ, size, sum) == Nulls(Len(i))
  {
    hide Octal;
  }

  lemma Summed(d: seq<Byte>, e: seq<Byte>, name: seq<Byte>, typ: Byte, size: nat, sum: nat)
    requires Filled(d, FilledFields(), name, typ, size)
    requires sum == Chksum(d) && |e| == HEADER_SIZE && Field(e, CHKSUM) == Octal(sum, 7) + [0]
    requires forall j :: 0 <= j < FIELDS && j != CHKSUM ==> Field(e, j) == Field(d, j)
    requires forall p :: 0 <= p < HEADER_SIZE && !(148 <= p < 156) ==> e[p] == d[p]
    ensures IsHeader(e, name, typ, size)
  {
    hide Octal, Content, Len, Start, Field, SumTo, FilledFields, Nulls;
    SumIgnores(d, e, HEADER_SIZE);
    forall i | 0 <= i < FIELDS ensures Field(e, i) == Content(i, name, typ, size, sum) {
      if i == CHKSUM { ContentIsSum(name, typ, size, sum); } else { ContentSum(i, name, typ, size, sum); }
    }
  }

  lemma ContentIsSum(name: seq<Byte>, typ: Byte, size: nat, sum: nat)
    requires |name| <= 99
    ensures Content(CHKSUM, name, typ, size, sum) == Octal(sum, 7) + [0]
  {
  }

  // ---------- Parsing ----------

  datatype Parsed = Eof | Entry(name: seq<Byte>, typ: Byte, size: int) | Bad(error: string)

  /** The string at the front of a field. */
  function CString(s: seq<Byte>): (r: seq<Byte>)
    ensures |r| <= |s| && r == s[..|r|] && (forall i :: 0 <= i < |r| ==> r[i] != 0) && (|r| < |s| ==> s[|r|] == 0)
  {
    if s == [] || s[0] == 0 then [] else [s[0]] + CString(s[1..])
  }

  /** What a header says: the end of the archive, an entry, or why it is refused. */
  function Parse(d: seq<Byte>): Parsed
    requires |d| == HEADER_SIZE
  {
    var chksum, size := FieldValue(Field(d, CHKSUM)), FieldValue(Field(d, SIZE));
    var typ := Field(d, TYPEFLAG)[0];
    if forall p :: 0 <= p < HEADER_SIZE ==> d[p] == 0 then Eof
    else if Field(d, MAGIC) != MAGIC_TEXT then Bad("not a ustar archive")
    else if Field(d, VERSION) != [ZERO, ZERO] then Bad("invalid ustar version")
    else if chksum.None? then Bad("corrupt chksum field")
    else if chksum.value != Chksum(d) then Bad("checksum mismatch")
    else if Field(d, NAME)[99] != 0 || Field(d, PREFIX)[0] != 0 then Bad("file name too long")
    else if typ != REGULAR && typ != DIRECTORY then Bad("unimplemented file type")
    else if typ == REGULAR && size.None? then Bad("corrupt file size field")
    else if typ == REGULAR && size.value > INT_MAX then Bad("file too large")
    else Entry(Strip(CString(Field(d, NAME))), typ, if typ == REGULAR then size.value else 0)
  }

  /** is_all_zeros. */
  method IsAllZeros(d: seq<Byte>) returns (b: bool)
    ensures b <==> forall p :: 0 <= p < |d| ==> d[p] == 0
  {
    var p := 0;
    while p < |d|
      invariant 0 <= p <= |d| && forall j :: 0 <= j < p ==> d[j] == 0
    {
      if d[p] != 0 {
        return false;
      }
      p := p + 1;
    }
    return true;
  }

  /** ustar_parse_header. */
  method ParseHeader(d: seq<Byte>) returns (r: Parsed)
    requires |d| == HEADER_SIZE
    ensures r == Parse(d)
  {
    hide Start, FieldValue, Strip;
    var zeros := IsAllZeros(d);
    if zeros {
      return Eof;
    }
    if Field(d, MAGIC) != MAGIC_TEXT {
      return Bad("not a ustar archive");
    }
    if Field(d, VERSION)[0] != ZERO || Field(d, VERSION)[1] != ZERO {
      return Bad("invalid ustar version");
    }
    var chksum := ParseOctal(Field(d, CHKSUM));
    if chksum.None? {
      return Bad("corrupt chksum field");
    }
    var sum := CalculateChksum(d);
    if chksum.value != sum {
      return Bad("checksum mismatch");
    }
    if Field(d, NAME)[99] != 0 || Field(d, PREFIX)[0] != 0 {
      return Bad("file name too long");
    }
    var typ := Field(d, TYPEFLAG)[0];
    if typ != REGULAR && typ != DIRECTORY {
      return Bad("unimplemented file type");
    }
    var size := 0;
    if typ == REGULAR {
      var s := ParseOctal(Field(d, SIZE));
      if s.None? {
        return Bad("corrupt file size field");
      }
      if s.value > INT_MAX {
        return Bad("file too large");
      }
      size := s.value;
    }
    var name := StripPrefixes(CString(Field(d, NAME)));
    return Entry(name, typ, size);
  }

  /** Which headers are accepted, byte by byte, and what is read from them; only one that is all
      zero is the end of the archive. */
  lemma AcceptedExactly(d: seq<Byte>)
    requires |d| == HEADER_SIZE
    ensures Parse(d).Eof? <==> forall p :: 0 <= p < HEADER_SIZE ==> d[p] == 0
    ensures Parse(d).Entry? <==>
      && d[257..263] == [117, 115, 116, 97, 114, 0] && d[263] == 48 && d[264] == 48
      && FieldValue(d[148..156]) == Some(Chksum(d)) && d[99] == 0 && d[345] == 0
      && (d[156] == 53 || (d[156] == 48 && FieldValue(d[124..136]).Some? && FieldValue(d[124..136]).value <= 0x7fff_ffff))
    ensures var e := Parse(d);
      && (e.Entry? ==> e.name == Strip(CString(d[..100])) && e.typ == d[156])
      && (e.Entry? && e.typ == 48 ==> Some(e.size) == FieldValue(d[124..136]))
      && (e.Entry? && e.typ == 53 ==> e.size == 0)
  {
    FieldsAt(d);
    hide Start, Field, FieldValue, Strip, CString, Chksum;
    assert d[263..265] == [48, 48] <==> d[263] == 48 && d[264] == 48;
    assert d[257..263] == MAGIC_TEXT ==> d[257] == 117;
  }

  /** The bytes of the fields that are looked at. */
  lemma FieldsAt(d: seq<Byte>)
    requires |d| == HEADER_SIZE
    ensures Field(d, NAME) == d[..100] && Field(d, SIZE) == d[124..136] && Field(d, CHKSUM) == d[148..156]
    ensures Field(d, TYPEFLAG)[0] == d[156] && Field(d, MAGIC) == d[257..263] && Field(d, VERSION) == d[263..265]
    ensures Field(d, PREFIX)[0] == d[345] && Field(d, NAME)[99] == d[99]
  {
    Starts();
    assert Start(0) == 0 && d[0..100] == d[..100];
    hide Start;
  }

  /** An accepted header belongs to an archive, has the right checksum, and describes a file or
      a directory with a stripped name of at most 99 characters and a size that fits. */
  lemma ParseSound(d: seq<Byte>)
    requires |d| == HEADER_SIZE && Parse(d).Entry?
    ensures Field(d, MAGIC) == MAGIC_TEXT && FieldValue(Field(d, CHKSUM)) == Some(Chksum(d))
    ensures var e := Parse(d);
      && e.name != [] && !Antisocial(e.name) && e.name != [DOT, DOT] && |e.name| <= 99 && IsString(e.name)
      && (e.typ == REGULAR || e.typ == DIRECTORY) && 0 <= e.size <= INT_MAX && (e.typ == DIRECTORY ==> e.size == 0)
  {
    hide Start, Len, Strip, CString, IsString, Antisocial, FieldValue, Chksum;
    var name := CString(Field(d, NAME));
    assert |name| <= 99;
    StripSafe(name);
    StripString(name);
  }

  // ---------- Round trip ----------

  lemma {:induction false} CStringPadded(s: seq<Byte>, n: nat)
    requires IsString(s) && |s| < n
    ensures CString(Padded(s, n)) == s
  {
    if s != [] {
      CStringPadded(s[1..], n - 1);
      assert Padded(s, n)[1..] == Padded(s[1..], n - 1);
    }
  }

  lemma {:induction false} StripString(s: seq<Byte>)
    requires IsString(s)
    ensures IsString(Strip(s))
    decreases |s|
  {
    if Antisocial(s) { StripString(AfterSlash(s)); }
  }

  /** Parsing undoes making: the stripped name, the type and, for a file, the size; a
      directory has size 0, and a size that was negative is refused. */
  lemma RoundTrip(d: seq<Byte>, fileName: seq<Byte>, typ: Byte, size: int)
    requires IsString(fileName) && (typ == REGULAR || typ == DIRECTORY) && -0x8000_0000 <= size <= INT_MAX
    requires IsHeader(d, Strip(fileName), typ, Unsigned(size))
    ensures Parse(d) == if typ == DIRECTORY then Entry(Strip(fileName), typ, 0)
                        else if size >= 0 then Entry(Strip(fileName), typ, size)
                        else Bad("file too large")
  {
    hide Start, Len, Field, Strip, FieldValue, Octal, CString, Content, IsHeader, IsString, SumTo, Padded;
    var name, n := Strip(fileName), Unsigned(size);
    HeaderName(d, name, typ, n);
    StripString(fileName);
    StripIdempotent(fileName);
    CStringPadded(name, 100);
    FieldsRead(d, name, typ, n);
  }

  lemma HeaderName(d: seq<Byte>, name: seq<Byte>, typ: Byte, size: nat)
    requires IsHeader(d, name, typ, size)
    ensures |d| == HEADER_SIZE && |name| <= 99
  {
  }

  lemma FieldsRead(d: seq<Byte>, name: seq<Byte>, typ: Byte, size: nat)
    requires IsHeader(d, name, typ, size) && size <= ULONG_MAX
    ensures Field(d, MAGIC) == MAGIC_TEXT && Field(d, VERSION) == [ZERO, ZERO] && Field(d, TYPEFLAG) == [typ]
    ensures Field(d, NAME) == Padded(name, 100) && Field(d, NAME)[99] == 0 && Field(d, PREFIX)[0] == 0
    ensures FieldValue(Field(d, CHKSUM)) == Some(Chksum(d)) && FieldValue(Field(d, SIZE)) == Some(size)
    ensures exists p :: 0 <= p < HEADER_SIZE && d[p] != 0
  {
    Powers8();
    ChksumFits(d);
    FieldRoundTrip(Chksum(d), 7, []);
    FieldRoundTrip(size, 11, []);
    assert Octal(Chksum(d), 7) + [0] + [] == Octal(Chksum(d), 7) + [0];
    assert Octal(size, 11) + [0] + [] == Octal(size, 11) + [0];
    StartBound(MAGIC);
    assert d[Start(MAGIC)] == Field(d, MAGIC)[0];
  }
}
