/** Counting the positions of a sequence at which something holds. */
module Counting {

  function Count(b: seq<bool>): (n: nat)
    ensures n <= |b|
  {
    if b == [] then 0 else (if b[|b| - 1] then 1 else 0) + Count(b[..|b| - 1])
  }

  function Bit(b: bool): nat { if b then 1 else 0 }

  lemma {:induction false} CountUpdate(b: seq<bool>, t: nat, x: bool)
    requires t < |b|
    ensures Count(b[t := x]) == Count(b) - Bit(b[t]) + Bit(x)
  {
    var n := |b| - 1;
    if t == n {
      assert b[t := x][..n] == b[..n];
    } else {
      assert b[t := x][..n] == b[..n][t := x];
      CountUpdate(b[..n], t, x);
    }
  }

  lemma {:induction false} CountPositive(b: seq<bool>, t: nat)
    requires t < |b| && b[t]
    ensures Count(b) > 0
  {
    if t < |b| - 1 { CountPositive(b[..|b| - 1], t); }
  }

  lemma {:induction false} CountWitness(b: seq<bool>)
    requires Count(b) > 0
    ensures exists t :: 0 <= t < |b| && b[t]
  {
    if !b[|b| - 1] {
      CountWitness(b[..|b| - 1]);
      var t :| 0 <= t < |b| - 1 && b[..|b| - 1][t];
      assert b[t];
    }
  }

  /** Two positions count for two. */
  lemma {:induction false} CountTwo(b: seq<bool>, t: nat, u: nat)
    requires t < u < |b| && b[t] && b[u]
    ensures Count(b) >= 2
  {
    if u < |b| - 1 {
      CountTwo(b[..|b| - 1], t, u);
    } else {
      CountPositive(b[..|b| - 1], t);
    }
  }

  lemma {:induction false} CountAll(b: seq<bool>)
    ensures Count(b) == |b| <==> forall t :: 0 <= t < |b| ==> b[t]
  {
    if b != [] {
      var n := |b| - 1;
      CountAll(b[..n]);
      if Count(b) == |b| {
        forall t | 0 <= t < |b| ensures b[t] {
          if t < n { assert b[..n][t]; }
        }
      }
    }
  }
}
