/** Splitting a string into words at a separator. */
module Splitting {
  import opened Storage

  function Skip(sep: Byte, s: seq<Byte>): (r: seq<Byte>)
    ensures |r| <= |s| && (r != [] ==> r[0] != sep)
  {
    if s == [] || s[0] != sep then s else Skip(sep, s[1..])
  }

  /** The length of the word that `s` begins with. */
  function WordLen(sep: Byte, s: seq<Byte>): (n: nat)
    ensures n <= |s| && (forall i :: 0 <= i < n ==> s[i] != sep) && (n < |s| ==> s[n] == sep)
    ensures s != [] && s[0] != sep ==> n > 0
  {
    if s == [] || s[0] == sep then 0 else 1 + WordLen(sep, s[1..])
  }

  /** The words of `s`: the maximal stretches without the separator. */
  function Tokens(sep: Byte, s: seq<Byte>): (ts: seq<seq<Byte>>)
    decreases |s|
  {
    var r := Skip(sep, s);
    if r == [] then [] else [r[..WordLen(sep, r)]] + Tokens(sep, r[WordLen(sep, r)..])
  }

  // ---------- One more character in front ----------

  lemma TokensNewWord(sep: Byte, s: seq<Byte>)
    requires s != [] && s[0] != sep && (|s| == 1 || s[1] == sep)
    ensures Tokens(sep, s) == [[s[0]]] + Tokens(sep, s[1..])
  {
    assert WordLen(sep, s) == 1;
    assert s[..1] == [s[0]];
  }

  lemma TokensSameWord(sep: Byte, s: seq<Byte>)
    requires |s| > 1 && s[0] != sep && s[1] != sep
    ensures Tokens(sep, s[1..]) != [] && Tokens(sep, s) == [[s[0]] + Tokens(sep, s[1..])[0]] + Tokens(sep, s[1..])[1..]
  {
    var r := s[1..];
    var n := WordLen(sep, r);
    assert Skip(sep, s) == s && Skip(sep, r) == r && WordLen(sep, s) == n + 1;
    assert s[..n + 1] == [s[0]] + r[..n];
    assert s[n + 1..] == r[n..];
  }
}
