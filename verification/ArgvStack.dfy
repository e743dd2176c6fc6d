/** load_stack: the argument vector on the stack page of a new process (process.c). */
module ArgvStack {
  import opened Storage
  import opened Splitting
  import opened ArgvTokens

  // ---------- Reading the stack back ----------

  /** The word at index `p` of the page. */
  function WordAt(mem: seq<Byte>, p: int): nat
    requires 0 <= p && p + 4 <= |mem|
  {
    Decode(mem[p..p + 4])
  }

  /** The null-terminated string at index `p`, if it ends inside the page. */
  function StringAt(mem: seq<Byte>, p: nat): Option<seq<Byte>>
    requires p <= |mem|
    decreases |mem| - p
  {
    if p == |mem| then None
    else if mem[p] == 0 then Some([])
    else
      match StringAt(mem, p + 1)
      case None => None
      case Some(t) => Some([mem[p]] + t)
  }

  /** A program started with stack pointer `esp`, on a page whose first byte has address
      `base`, finds the words `ts`: above the return address the count, then the vector's
      address, then the vector itself, a null pointer after the last string. */
  ghost predicate FindsArgs(mem: seq<Byte>, base: nat, esp: nat, ts: seq<seq<Byte>>) {
    && base <= esp + 4 && esp + 4 - base + 12 + 4 * |ts| <= |mem|
    && var p := esp + 4 - base;
      && WordAt(mem, p) == |ts|
      && WordAt(mem, p + 4) == base + p + 8
      && WordAt(mem, p + 8 + 4 * |ts|) == 0
      && (forall k :: 0 <= k < |ts| ==> Leads(mem, base, p + 8 + 4 * k, ts[k]))
  }

  /** The pointer at index `p` leads to the string `t`. */
  ghost predicate Leads(mem: seq<Byte>, base: nat, p: nat, t: seq<Byte>)
    requires p + 4 <= |mem|
  {
    base <= WordAt(mem, p) <= base + |mem| && StringAt(mem, WordAt(mem, p) - base) == Some(t)
  }

  lemma {:induction false} StringThere(mem: seq<Byte>, p: nat, t: seq<Byte>)
    requires p + |t| < |mem| && mem[p..p + |t|] == t && mem[p + |t|] == 0
    requires forall i :: 0 <= i < |t| ==> t[i] != 0
    ensures StringAt(mem, p) == Some(t)
    decreases |t|
  {
    if t != [] {
      assert mem[p] == mem[p..p + |t|][0];
      assert mem[p + 1..p + |t|] == t[1..];
      StringThere(mem, p + 1, t[1..]);
      assert [mem[p]] + t[1..] == t;
    }
  }

  // ---------- Pushing ----------

  /** Nothing below index `n` has changed. */
  ghost predicate Below(mem: seq<Byte>, before: seq<Byte>, n: nat) {
    n <= |mem| == |before| && mem[..n] == before[..n]
  }

  lemma BelowTrans(a: seq<Byte>, b: seq<Byte>, c: seq<Byte>, n: nat, m: nat)
    requires Below(b, c, n) && Below(a, b, m) && m <= n
    ensures Below(a, c, m)
  {
    assert b[..m] == b[..n][..m] && c[..m] == c[..n][..m];
  }

  lemma BelowSelf(a: seq<Byte>, n: nat)
    requires n <= |a|
    ensures Below(a, a, n)
  {
  }

  method PushChar(page: array<Byte>, sp: nat, c: Byte) returns (sp': nat)
    requires 1 <= sp <= page.Length
    modifies page
    ensures sp' == sp - 1 && page[sp'..] == [c] + old(page[sp..]) && Below(page[..], old(page[..]), sp')
  {
    sp' := sp - 1;
    page[sp'] := c;
  }

  method PushWord(page: array<Byte>, sp: nat, v: nat) returns (sp': nat)
    requires 4 <= sp <= page.Length && v < WORD
    modifies page
    ensures sp' == sp - 4 && Below(page[..], old(page[..]), sp')
    ensures page[sp'..] == Encode(v) + old(page[sp..])
  {
    sp' := sp - 4;
    var b := Encode(v);
    page[sp'], page[sp' + 1], page[sp' + 2], page[sp' + 3] := b[0], b[1], b[2], b[3];
  }

  /** The first loop: the words of the command line, packed, from its end to its front. */
  method PushWords(cmd: seq<Byte>, page: array<Byte>) returns (sp: nat, n: nat)
    requires |Packed(Tokens(SPACE, cmd))| <= page.Length
    modifies page
    ensures n == |Tokens(SPACE, cmd)| && sp == page.Length - |Packed(Tokens(SPACE, cmd))|
    ensures page[sp..] == Packed(Tokens(SPACE, cmd)) && Below(page[..], old(page[..]), sp)
  {
    hide Tokens, Packed;
    NoWords();
    sp, n := page.Length, 0;
    var wasSpace := true;
    var i := |cmd|;
    assert cmd[i..] == [];
    while i > 0
      invariant 0 <= i <= |cmd| && (wasSpace <==> i == |cmd| || cmd[i] == SPACE)
      invariant n == |Tokens(SPACE, cmd[i..])| && 0 <= sp == page.Length - |Packed(Tokens(SPACE, cmd[i..]))|
      invariant page[sp..] == Packed(Tokens(SPACE, cmd[i..])) && Below(page[..], old(page[..]), sp)
    {
      i := i - 1;
      PackedGrows(cmd, i);
      Prepend(cmd, i, wasSpace);
      if cmd[i] != SPACE {
        if wasSpace {
          sp := PushChar(page, sp, 0);
          n := n + 1;
        }
        sp := PushChar(page, sp, cmd[i]);
      }
      wasSpace := cmd[i] == SPACE;
    }
    assert cmd[0..] == cmd;
  }

  lemma NoWords()
    ensures Tokens(SPACE, []) == [] && Packed([]) == []
  {
  }

  /** What one more character in front of the rest of the line adds to the packed words. */
  lemma Prepend(cmd: seq<Byte>, i: nat, wasSpace: bool)
    requires i < |cmd| && (wasSpace <==> i + 1 == |cmd| || cmd[i + 1] == SPACE)
    ensures var ts, ts' := Tokens(SPACE, cmd[i + 1..]), Tokens(SPACE, cmd[i..]);
      if cmd[i] == SPACE then ts' == ts
      else if wasSpace then Packed(ts') == [cmd[i], 0] + Packed(ts) && |ts'| == |ts| + 1
      else Packed(ts') == [cmd[i]] + Packed(ts) && |ts'| == |ts|
  {
    var s := cmd[i..];
    assert s[1..] == cmd[i + 1..];
    if cmd[i] == SPACE {
    } else if wasSpace {
      TokensNewWord(SPACE, s);
      assert Tokens(SPACE, s)[1..] == Tokens(SPACE, s[1..]);
    } else {
      TokensSameWord(SPACE, s);
      var ts := Tokens(SPACE, s[1..]);
      assert Tokens(SPACE, s)[1..] == ts[1..];
      assert [s[0]] + ts[0] + [0] + Packed(ts[1..]) == [s[0]] + (ts[0] + [0] + Packed(ts[1..]));
    }
  }

  /** The rest of a line packs into no more than the line. */
  lemma {:induction false} PackedGrows(cmd: seq<Byte>, i: nat)
    requires i <= |cmd|
    ensures |Packed(Tokens(SPACE, cmd[i..]))| <= |Packed(Tokens(SPACE, cmd))|
  {
    if i > 0 {
      PackedGrows(cmd, i - 1);
      Prepend(cmd, i - 1, i == |cmd| || cmd[i] == SPACE);
    } else {
      assert cmd[0..] == cmd;
    }
  }

  // ---------- Pointers ----------

  /** The vector's entries from `j` on, as the bytes they take: each points to its word in the
      packed form that begins at address `low`. */
  ghost function Pointers(ts: seq<seq<Byte>>, low: nat, j: nat): seq<Byte>
    requires j <= |ts| && low + |Packed(ts)| <= WORD
    decreases |ts| - j
  {
    if j == |ts| then []
    else
      PackedWord(ts, j);
      Encode(low + StartOf(ts, j)) + Pointers(ts, low, j + 1)
  }

  /** Going down through the packed words, exactly their first characters pass the test of
      the third loop. */
  lemma StartTest(ts: seq<seq<Byte>>, k: nat, x: nat)
    requires Plain(ts) && k < |ts| && StartOf(ts, k) <= x < StartOf(ts, k + 1) <= |Packed(ts)|
    ensures x == StartOf(ts, k) <==> x == 0 || (Packed(ts)[x - 1] == 0 && Packed(ts)[x] != 0)
  {
    StartNext(ts, k);
    PackedWord(ts, k);
    var s, p := StartOf(ts, k), Packed(ts);
    if x == s {
      assert p[x] == p[s..s + |ts[k]|][0];
      if k > 0 {
        StartNext(ts, k - 1);
        PackedWord(ts, k - 1);
      }
    } else {
      assert p[x - 1] == p[s..s + |ts[k]|][x - 1 - s] == ts[k][x - 1 - s];
    }
  }

  /** The third loop: a pointer to every word, the last word first. */
  method PushPointers(page: array<Byte>, sp0: nat, n: nat, argvLen: nat, frame: nat, ghost ts: seq<seq<Byte>>)
    returns (sp: nat)
    requires Plain(ts) && n == |ts| && argvLen == |Packed(ts)| && page.Length <= frame < WORD
    requires 4 * n <= sp0 && sp0 + argvLen <= page.Length && page[page.Length - argvLen..] == Packed(ts)
    modifies page
    ensures sp == sp0 - 4 * n && Below(page[..], old(page[..]), sp)
    ensures page[sp..] == Pointers(ts, frame - argvLen, 0) + old(page[sp0..])
  {
    hide *;
    var top := page.Length;
    ghost var low, mem, start := frame - argvLen, page[sp0..], page[..];
    StartEnd(ts);
    NoPointers(ts, low);
    sp := sp0;
    var i := 0;
    var offset := -1;
    if n > 0 { StartGap(ts, n - 1); }
    BelowSelf(start, sp);
    while i < n
      invariant 0 <= i <= n && sp == sp0 - 4 * i && Below(page[..], start, sp)
      invariant page[sp..] == Pointers(ts, low, n - i) + mem
      invariant page[top - argvLen..] == Packed(ts)
      invariant i < n ==> StartOf(ts, n - i - 1) <= argvLen + offset < StartOf(ts, n - i)
      decreases argvLen + offset
    {
      if argvLen + offset < 0 {
        break;
      }
      ghost var k := n - i - 1;
      var isStart := AtStart(page, offset, argvLen, ts, k);
      if isStart {
        ghost var before := page[..];
        sp := PushPointer(page, sp, frame, offset, argvLen, ts, k, mem);
        BelowTrans(page[..], before, start, sp + 4, sp);
        i := i + 1;
        if k > 0 { StartGap(ts, k - 1); }
      }
      offset := offset - 1;
    }
  }

  /** The third loop's test, at a place inside word `k`. */
  method AtStart(page: array<Byte>, offset: int, argvLen: nat, ghost ts: seq<seq<Byte>>, ghost k: nat) returns (b: bool)
    requires Plain(ts) && k < |ts| && argvLen == |Packed(ts)| <= page.Length && page[page.Length - argvLen..] == Packed(ts)
    requires StartOf(ts, k) <= argvLen + offset < StartOf(ts, k + 1)
    ensures b <==> argvLen + offset == StartOf(ts, k)
  {
    hide Packed, StartOf, Plain;
    var top := page.Length;
    StartMonotone(ts, k + 1, |ts|);
    StartEnd(ts);
    StartTest(ts, k, argvLen + offset);
    assert page[top + offset] == page[top - argvLen..][argvLen + offset];
    assert argvLen + offset > 0 ==> page[top + offset - 1] == page[top - argvLen..][argvLen + offset - 1];
    var isChar := page[top + offset] != 0;
    b := argvLen + offset == 0 || (page[top + offset - 1] == 0 && isChar);
  }

  method PushPointer(page: array<Byte>, sp: nat, frame: nat, offset: int, argvLen: nat, ghost ts: seq<seq<Byte>>, ghost k: nat,
                     ghost mem: seq<Byte>)
    returns (sp': nat)
    requires k < |ts| && argvLen == |Packed(ts)| && page.Length <= frame < WORD && 4 <= sp && sp + argvLen <= page.Length
    requires argvLen + offset == StartOf(ts, k) && 0 <= argvLen + offset && offset < 0
    requires page[sp..] == Pointers(ts, frame - argvLen, k + 1) + mem
    modifies page
    ensures sp' == sp - 4 && Below(page[..], old(page[..]), sp')
    ensures page[page.Length - argvLen..] == old(page[page.Length - argvLen..])
    ensures page[sp'..] == Pointers(ts, frame - argvLen, k) + mem
  {
    hide Packed, StartOf, Encode;
    sp' := PushAbove(page, sp, frame + offset, page.Length - argvLen);
    assert page[sp'..] == Encode(frame + offset) + (Pointers(ts, frame - argvLen, k + 1) + mem);
  }

  lemma NoPointers(ts: seq<seq<Byte>>, low: nat)
    requires low + |Packed(ts)| <= WORD
    ensures Pointers(ts, low, |ts|) == []
  {
  }

  lemma StartGap(ts: seq<seq<Byte>>, k: nat)
    requires k < |ts|
    ensures StartOf(ts, k) < StartOf(ts, k + 1)
  {
    StartNext(ts, k);
  }

  /** PushWord, seen from the bytes above `low`. */
  method PushAbove(page: array<Byte>, sp: nat, v: nat, low: nat) returns (sp': nat)
    requires 4 <= sp <= low <= page.Length && v < WORD
    modifies page
    ensures sp' == sp - 4 && Below(page[..], old(page[..]), sp') && page[low..] == old(page[low..])
    ensures page[sp'..] == Encode(v) + old(page[sp..])
  {
    sp' := PushWord(page, sp, v);
    assert page[low..] == page[sp'..][low - sp'..];
    assert old(page[low..]) == old(page[sp..])[low - sp..];
  }

  lemma {:induction false} PointersAt(ts: seq<seq<Byte>>, low: nat, j: nat, k: nat)
    requires j <= k <= |ts| && low + |Packed(ts)| <= WORD
    ensures |Pointers(ts, low, j)| == 4 * (|ts| - j)
    ensures k < |ts| ==>
      && low + StartOf(ts, k) < WORD
      && Pointers(ts, low, j)[4 * (k - j)..4 * (k - j) + 4] == Encode(low + StartOf(ts, k))
    decreases |ts| - j
  {
    if j < |ts| {
      PackedWord(ts, j);
      var p, b := Pointers(ts, low, j + 1), Encode(low + StartOf(ts, j));
      assert Pointers(ts, low, j) == b + p;
      if k > j {
        PointersAt(ts, low, j + 1, k);
        if k < |ts| { assert (b + p)[4 * (k - j)..4 * (k - j) + 4] == p[4 * (k - j - 1)..4 * (k - j - 1) + 4]; }
      } else {
        PointersAt(ts, low, j + 1, j + 1);
        assert (b + p)[..4] == b;
      }
    }
  }

  // ---------- The whole stack ----------

  /** The bytes the alignment takes: the count ends up on a multiple of 16. */
  function Padding(ts: seq<seq<Byte>>): nat {
    (16 - (|Packed(ts)| + (|ts| + 3) * 4) % 16) % 16
  }

  /** The bytes of count, vector address, vector, null pointer, padding and words. */
  function Pushed(ts: seq<seq<Byte>>): nat {
    (|ts| + 3) * 4 + Padding(ts) + |Packed(ts)|
  }

  /** The stack from index `sp` on, for a page that ends at address `frame`. */
  ghost predicate Laid(mem: seq<Byte>, sp: nat, frame: nat, ts: seq<seq<Byte>>, pad: seq<Byte>) {
    && |mem| <= frame < WORD && sp + (|ts| + 3) * 4 + |pad| + |Packed(ts)| == |mem|
    && mem[sp..] == Encode(|ts|) + (Encode(frame - |mem| + sp + 8)
                    + (Pointers(ts, frame - |Packed(ts)|, 0) + (Encode(0) + (pad + Packed(ts)))))
  }

  /** The alignment loop. */
  method PushPadding(page: array<Byte>, sp0: nat, cnt: nat) returns (sp: nat, ghost pad: seq<Byte>)
    requires cnt <= sp0 <= page.Length
    modifies page
    ensures sp == sp0 - cnt && |pad| == cnt && page[sp..] == pad + old(page[sp0..]) && Below(page[..], old(page[..]), sp)
  {
    hide Below;
    ghost var start, tail := page[..], page[sp0..];
    sp, pad := sp0, [];
    BelowSelf(start, sp);
    var i := 0;
    while i < cnt
      invariant 0 <= i <= cnt && sp == sp0 - i && |pad| == i
      invariant page[sp..] == pad + tail && Below(page[..], start, sp)
    {
      ghost var before := page[..];
      sp := PushChar(page, sp, 0);
      BelowTrans(page[..], before, start, sp + 1, sp);
      assert [0] + (pad + tail) == [0] + pad + tail;
      pad := [0] + pad;
      i := i + 1;
    }
  }

  /** What is left after the words: padding, null pointer, vector, its address and the count. */
  method PushVector(page: array<Byte>, sp0: nat, n: nat, padding: nat, frame: nat, ghost ts: seq<seq<Byte>>)
    returns (sp: nat, ghost pad: seq<Byte>)
    requires Plain(ts) && n == |ts| && padding + (n + 3) * 4 <= sp0 <= page.Length <= frame < WORD
    requires page[sp0..] == Packed(ts)
    modifies page
    ensures Laid(page[..], sp, frame, ts, pad) && |pad| == padding && Below(page[..], old(page[..]), sp)
  {
    hide Below, Packed, Pointers, Plain, Encode, Laid;
    ghost var start := page[..];
    var top := page.Length;
    sp, pad := PushPadding(page, sp0, padding);
    ghost var m0 := page[..];
    sp := PushAbove(page, sp, 0, sp0);
    ghost var m1 := page[..];
    BelowTrans(m1, m0, start, sp + 4, sp);
    assert page[sp..] == Encode(0) + (pad + Packed(ts));
    sp := PushPointers(page, sp, n, top - sp0, frame, ts);
    ghost var m2 := page[..];
    BelowTrans(m2, m1, start, sp + 4 * n, sp);
    assert page[sp..] == Pointers(ts, frame - |Packed(ts)|, 0) + (Encode(0) + (pad + Packed(ts)));
    sp := PushCounts(page, sp, n, frame);
    BelowTrans(page[..], m2, start, sp + 8, sp);
    IsLaid(page[..], m2, sp, frame, ts, pad);
  }

  /** The vector's address and the count. */
  method PushCounts(page: array<Byte>, sp0: nat, n: nat, frame: nat) returns (sp: nat)
    requires 8 <= sp0 <= page.Length <= frame < WORD && n < WORD
    modifies page
    ensures sp == sp0 - 8 && Below(page[..], old(page[..]), sp)
    ensures page[sp..] == Encode(n) + (Encode(frame - page.Length + sp0) + old(page[sp0..]))
  {
    hide Below, Encode;
    ghost var start := page[..];
    sp := PushWord(page, sp0, frame - page.Length + sp0);
    ghost var m := page[..];
    sp := PushWord(page, sp, n);
    BelowTrans(page[..], m, start, sp + 4, sp);
  }

  lemma IsLaid(mem: seq<Byte>, before: seq<Byte>, sp: nat, frame: nat, ts: seq<seq<Byte>>, pad: seq<Byte>)
    requires |mem| == |before| <= frame < WORD && sp + (|ts| + 3) * 4 + |pad| + |Packed(ts)| == |mem|
    requires before[sp + 8..] == Pointers(ts, frame - |Packed(ts)|, 0) + (Encode(0) + (pad + Packed(ts)))
    requires mem[sp..] == Encode(|ts|) + (Encode(frame - |mem| + sp + 8) + before[sp + 8..])
    ensures Laid(mem, sp, frame, ts, pad)
  {
  }

  /** load_stack, on a page of any size below `frame` that holds what is pushed.  How much that
      is depends on the line alone: the last byte pushed is at esp + 4, so on a page that is
      too small for it the code runs below the page. */
  method LoadStack(cmd: seq<Byte>, page: array<Byte>, frame: nat) returns (esp: nat)
    requires page.Length + 4 <= frame < WORD && frame % 16 == 0
    requires forall i :: 0 <= i < |cmd| ==> cmd[i] != 0
    requires Pushed(Tokens(SPACE, cmd)) <= page.Length
    modifies page
    ensures esp + 4 == frame - Pushed(Tokens(SPACE, cmd)) && (esp + 4) % 16 == 0
    ensures FindsArgs(page[..], frame - page.Length, esp, Tokens(SPACE, cmd))
    ensures Below(page[..], old(page[..]), esp + 4 - (frame - page.Length))
  {
    hide Below, Packed, Pointers, Plain, Encode, FindsArgs, Tokens;
    TokensPlain(cmd);
    ghost var ts := Tokens(SPACE, cmd);
    var sp, n := PushWords(cmd, page);
    ghost var m, sp0 := page[..], sp;
    var argvLen := page.Length - sp;
    ghost var pad;
    sp, pad := PushVector(page, sp, n, (16 - (argvLen + (n + 3) * 4) % 16) % 16, frame, ts);
    BelowTrans(page[..], m, old(page[..]), sp0, sp);
    LaidFinds(page[..], sp, frame, ts, pad);
    esp := frame - page.Length + sp - 4;
  }

  lemma SliceOfSlice(mem: seq<Byte>, a: nat, b: nat, i: nat, j: nat)
    requires a <= b <= |mem| && i <= j <= b - a
    ensures mem[a..b][i..j] == mem[a + i..a + j]
  {
    forall k | 0 <= k < j - i ensures mem[a..b][i..j][k] == mem[a + i..a + j][k] {
    }
  }

  /** The first piece of what the page holds from index `p` on, and the rest. */
  lemma Piece(mem: seq<Byte>, p: nat, x: seq<Byte>, rest: seq<Byte>)
    requires p <= |mem| && mem[p..] == x + rest
    ensures p + |x| + |rest| == |mem| && mem[p..p + |x|] == x && mem[p + |x|..] == rest
  {
    assert mem[p..][..|x|] == x && mem[p..][|x|..] == rest;
  }

  lemma WordsFound(mem: seq<Byte>, sp: nat, frame: nat, ts: seq<seq<Byte>>, pad: seq<Byte>)
    requires Laid(mem, sp, frame, ts, pad)
    ensures WordAt(mem, sp) == |ts| && WordAt(mem, sp + 4) == frame - |mem| + sp + 8
    ensures WordAt(mem, sp + 8 + 4 * |ts|) == 0
    ensures mem[|mem| - |Packed(ts)|..] == Packed(ts)
    ensures mem[sp + 8..sp + 8 + 4 * |ts|] == Pointers(ts, frame - |Packed(ts)|, 0)
  {
    hide Encode, Decode, Packed, Pointers;
    var e0, e1, z, w := Encode(|ts|), Encode(frame - |mem| + sp + 8), Encode(0), Packed(ts);
    var ps := Pointers(ts, frame - |w|, 0);
    PointersAt(ts, frame - |w|, 0, |ts|);
    DecodeEncode(|ts|);
    DecodeEncode(frame - |mem| + sp + 8);
    DecodeEncode(0);
    var last := pad + w;
    var behind := z + last;
    var vector := ps + behind;
    Piece(mem, sp, e0, e1 + vector);
    Piece(mem, sp + 4, e1, vector);
    Piece(mem, sp + 8, ps, behind);
    Piece(mem, sp + 8 + |ps|, z, last);
    Piece(mem, sp + 12 + |ps|, pad, w);
  }

  lemma PlainWord(ts: seq<seq<Byte>>, k: nat)
    requires Plain(ts) && k < |ts|
    ensures ts[k] != [] && forall i :: 0 <= i < |ts[k]| ==> ts[k][i] != 0
  {
  }

  /** Word `k`, where the packed words end the page. */
  lemma StringFound(mem: seq<Byte>, ts: seq<seq<Byte>>, k: nat)
    requires Plain(ts) && k < |ts| && |Packed(ts)| <= |mem| && mem[|mem| - |Packed(ts)|..] == Packed(ts)
    ensures StartOf(ts, k) < |Packed(ts)| && StringAt(mem, |mem| - |Packed(ts)| + StartOf(ts, k)) == Some(ts[k])
  {
    hide Packed, StringAt, StartOf, Plain;
    PlainWord(ts, k);
    PackedWord(ts, k);
    var w, st, n := Packed(ts), StartOf(ts, k), |ts[k]|;
    var low := |mem| - |w|;
    assert mem[low..|mem|] == w;
    SliceOfSlice(mem, low, |mem|, st, st + n);
    assert mem[low + st + n] == mem[low..|mem|][st + n];
    StringThere(mem, low + st, ts[k]);
  }

  /** Entry `k` of the vector. */
  lemma PointerFound(mem: seq<Byte>, q: nat, ts: seq<seq<Byte>>, low: nat, k: nat)
    requires k < |ts| && low + |Packed(ts)| <= WORD && q + 4 * |ts| <= |mem|
    requires mem[q..q + 4 * |ts|] == Pointers(ts, low, 0)
    ensures WordAt(mem, q + 4 * k) == low + StartOf(ts, k)
  {
    hide Packed, Pointers, Encode, Decode, StartOf;
    PointersAt(ts, low, 0, k);
    SliceOfSlice(mem, q, q + 4 * |ts|, 4 * k, 4 * k + 4);
    DecodeEncode(low + StartOf(ts, k));
  }

  lemma ArgFound(mem: seq<Byte>, sp: nat, frame: nat, ts: seq<seq<Byte>>, pad: seq<Byte>, k: nat)
    requires Laid(mem, sp, frame, ts, pad) && Plain(ts) && k < |ts|
    ensures Leads(mem, frame - |mem|, sp + 8 + 4 * k, ts[k])
  {
    hide Packed, Pointers, Encode, WordAt, StringAt, StartOf, Plain;
    WordsFound(mem, sp, frame, ts, pad);
    PointerFound(mem, sp + 8, ts, frame - |Packed(ts)|, k);
    StringFound(mem, ts, k);
  }

  lemma LaidFinds(mem: seq<Byte>, sp: nat, frame: nat, ts: seq<seq<Byte>>, pad: seq<Byte>)
    requires Laid(mem, sp, frame, ts, pad) && Plain(ts) && |mem| + 4 <= frame
    ensures FindsArgs(mem, frame - |mem|, frame - |mem| + sp - 4, ts)
  {
    hide WordAt, StringAt, Packed, Pointers, Encode, Plain, Leads;
    WordsFound(mem, sp, frame, ts, pad);
    forall k | 0 <= k < |ts| ensures Leads(mem, frame - |mem|, sp + 8 + 4 * k, ts[k]) {
      ArgFound(mem, sp, frame, ts, pad, k);
    }
  }

  // ---------- Which lines fit a page ----------

  /** The words of a line are no longer than the line, and at most every other character
      begins one. */
  lemma {:induction false} LineBounds(cmd: seq<Byte>)
    ensures var ts := Tokens(SPACE, cmd);
      |Packed(ts)| <= |cmd| + 1 && 2 * |ts| <= |cmd| + 1
      && (cmd == [] || cmd[0] == SPACE ==> |Packed(ts)| <= |cmd| && 2 * |ts| <= |cmd|)
  {
    if cmd != [] {
      LineBounds(cmd[1..]);
      if cmd[0] != SPACE {
        if |cmd| == 1 || cmd[1] == SPACE {
          TokensNewWord(SPACE, cmd);
        } else {
          TokensSameWord(SPACE, cmd);
          LongerWord(cmd[0], Tokens(SPACE, cmd[1..]));
        }
      }
    }
  }

  lemma LongerWord(c: Byte, ts: seq<seq<Byte>>)
    requires ts != []
    ensures |Packed([[c] + ts[0]] + ts[1..])| == 1 + |Packed(ts)|
  {
    assert ([[c] + ts[0]] + ts[1..])[1..] == ts[1..];
  }

  /** A line of `n` characters with as many words as possible. */
  function Dense(n: nat): (cmd: seq<Byte>)
    ensures |cmd| == n && forall i :: 0 <= i < n ==> cmd[i] != 0
  {
    if n == 0 then [] else if n == 1 then [97] else [97, SPACE] + Dense(n - 2)
  }

  lemma {:induction false} DenseWords(n: nat)
    ensures var ts := Tokens(SPACE, Dense(n)); |ts| == (n + 1) / 2 && |Packed(ts)| == 2 * ((n + 1) / 2)
  {
    if n == 1 {
      TokensNewWord(SPACE, Dense(1));
      assert Dense(1)[1..] == [];
      NoWords();
    } else if n >= 2 {
      DenseWords(n - 2);
      var s := Dense(n);
      TokensNewWord(SPACE, s);
      assert s[1..][1..] == Dense(n - 2);
      assert Tokens(SPACE, s[1..]) == Tokens(SPACE, Dense(n - 2));
      assert ([[97]] + Tokens(SPACE, Dense(n - 2)))[1..] == Tokens(SPACE, Dense(n - 2));
    } else {
      NoWords();
    }
  }

  /** The padding rounds the rest up to a multiple of 16. */
  lemma PushedRounds(ts: seq<seq<Byte>>)
    ensures var x := |Packed(ts)| + (|ts| + 3) * 4; x <= Pushed(ts) < x + 16 && Pushed(ts) % 16 == 0
  {
    var x := |Packed(ts)| + (|ts| + 3) * 4;
    RoundUp(x);
  }

  lemma RoundUp(x: nat)
    ensures var r := x + (16 - x % 16) % 16; x <= r < x + 16 && r % 16 == 0
  {
  }

  ghost predicate AllFit(n: nat) {
    forall cmd: seq<Byte> :: |cmd| == n && (forall i :: 0 <= i < n ==> cmd[i] != 0) ==> Pushed(Tokens(SPACE, cmd)) <= PAGE_SIZE
  }

  /** Every line of `n` characters fits the page if and only if `n` is at most 1360, though
      process_execute takes lines of up to 4095. */
  lemma LinesFitExactly(n: nat)
    ensures AllFit(n) <==> n <= 1360
  {
    hide Tokens, Packed, Pushed, Dense;
    if AllFit(n) {
      DenseWords(n);
      PushedRounds(Tokens(SPACE, Dense(n)));
      assert Pushed(Tokens(SPACE, Dense(n))) <= PAGE_SIZE;
    }
    if n <= 1360 {
      forall cmd: seq<Byte> | |cmd| == n && (forall i :: 0 <= i < n ==> cmd[i] != 0)
        ensures Pushed(Tokens(SPACE, cmd)) <= PAGE_SIZE
      {
        LineBounds(cmd);
        PushedRounds(Tokens(SPACE, cmd));
      }
    }
  }
}
