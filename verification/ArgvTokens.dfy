/** The words of a command line and their packed form on a new process's stack. */
module ArgvTokens {
  import opened Storage
  import opened Splitting

  const SPACE: Byte := 32

  // ---------- Packed words ----------

  /** The words one after the other, each with a null byte. */
  function Packed(ts: seq<seq<Byte>>): seq<Byte> {
    if ts == [] then [] else ts[0] + [0] + Packed(ts[1..])
  }

  /** No word is empty or has a null byte in it. */
  ghost predicate Plain(ts: seq<seq<Byte>>) {
    forall k :: 0 <= k < |ts| ==> ts[k] != [] && forall i :: 0 <= i < |ts[k]| ==> ts[k][i] != 0
  }

  lemma {:induction false} TokensPlain(s: seq<Byte>)
    requires forall i :: 0 <= i < |s| ==> s[i] != 0
    ensures Plain(Tokens(SPACE, s))
    decreases |s|
  {
    var r := Skip(SPACE, s);
    SkipPlain(s);
    if r != [] {
      TokensPlain(r[WordLen(SPACE, r)..]);
    }
  }

  lemma {:induction false} SkipPlain(s: seq<Byte>)
    requires forall i :: 0 <= i < |s| ==> s[i] != 0
    ensures forall i :: 0 <= i < |Skip(SPACE, s)| ==> Skip(SPACE, s)[i] != 0
  {
    if s != [] && s[0] == SPACE { SkipPlain(s[1..]); }
  }

  /** Where word `k` begins in the packed form. */
  function StartOf(ts: seq<seq<Byte>>, k: nat): nat
    requires k <= |ts|
  {
    if k == 0 then 0 else |ts[0]| + 1 + StartOf(ts[1..], k - 1)
  }

  lemma {:induction false} StartNext(ts: seq<seq<Byte>>, k: nat)
    requires k < |ts|
    ensures StartOf(ts, k + 1) == StartOf(ts, k) + |ts[k]| + 1
  {
    if k > 0 { StartNext(ts[1..], k - 1); }
  }

  lemma {:induction false} StartEnd(ts: seq<seq<Byte>>)
    ensures StartOf(ts, |ts|) == |Packed(ts)|
  {
    if ts != [] { StartEnd(ts[1..]); }
  }

  /** What the packed form holds at the place of word `k`. */
  lemma {:induction false} PackedWord(ts: seq<seq<Byte>>, k: nat)
    requires k < |ts|
    ensures StartOf(ts, k) + |ts[k]| < |Packed(ts)|
    ensures Packed(ts)[StartOf(ts, k)..StartOf(ts, k) + |ts[k]|] == ts[k] && Packed(ts)[StartOf(ts, k) + |ts[k]|] == 0
  {
    var p := Packed(ts);
    if k == 0 {
      assert p[..|ts[0]|] == ts[0];
    } else {
      PackedWord(ts[1..], k - 1);
      var n, j := |ts[0]| + 1, StartOf(ts[1..], k - 1);
      assert p == (ts[0] + [0]) + Packed(ts[1..]);
      assert p[n + j..n + j + |ts[k]|] == Packed(ts[1..])[j..j + |ts[k]|];
    }
  }

  lemma {:induction false} StartMonotone(ts: seq<seq<Byte>>, j: nat, k: nat)
    requires j <= k <= |ts|
    ensures StartOf(ts, j) <= StartOf(ts, k)
  {
    if j < k {
      StartMonotone(ts, j, k - 1);
      StartNext(ts, k - 1);
    }
  }
}
