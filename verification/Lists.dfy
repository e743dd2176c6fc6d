/** Kernel lists as sequences: removal of an element from a list without duplicates. */
module Lists {

  ghost predicate NoDup<T>(xs: seq<T>) {
    forall i, j :: 0 <= i < j < |xs| ==> xs[i] != xs[j]
  }

  lemma NoDupConcat<T>(xs: seq<T>, ys: seq<T>)
    requires NoDup(xs) && NoDup(ys) && forall x :: x in xs ==> x !in ys
    ensures NoDup(xs + ys)
  {
    forall i, j | 0 <= i < j < |xs + ys| ensures (xs + ys)[i] != (xs + ys)[j] {
      if i < |xs| { assert xs[i] in xs; }
    }
  }

  /** list_remove of `c`. */
  function Without<T(==)>(cs: seq<T>, c: T): seq<T> {
    if cs == [] then [] else if cs[0] == c then cs[1..] else [cs[0]] + Without(cs[1..], c)
  }

  lemma {:induction false} WithoutLength<T>(cs: seq<T>, c: T)
    ensures |Without(cs, c)| == |cs| - if c in cs then 1 else 0
  {
    if cs != [] && cs[0] != c { WithoutLength(cs[1..], c); }
  }

  lemma {:induction false} WithoutOk<T(!new)>(cs: seq<T>, c: T)
    requires NoDup(cs)
    ensures NoDup(Without(cs, c)) && forall d :: d in Without(cs, c) <==> d in cs && d != c
  {
    if cs != [] {
      WithoutOk(cs[1..], c);
      assert cs == [cs[0]] + cs[1..];
      if cs[0] == c {
        forall d | d in cs[1..] ensures d != c {
          var i :| 0 <= i < |cs| - 1 && cs[1..][i] == d;
          assert cs[i + 1] == d;
        }
      } else {
        forall i | 0 <= i < |cs| - 1 ensures cs[1..][i] != cs[0] {
          assert cs[i + 1] != cs[0];
        }
        assert cs[0] !in Without(cs[1..], c);
      }
    }
  }
}
