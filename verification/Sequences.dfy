/** Lists as sequences: no element twice, taking one out, joining pieces. */
module Sequences {
  ghost predicate NoRepeat<T>(s: seq<T>) {
    forall i, j :: 0 <= i < j < |s| ==> s[i] != s[j]
  }

  /** A list without one element. */
  function Without<T(==)>(s: seq<T>, x: T): seq<T> {
    if s == [] then []
    else
      var n := |s| - 1;
      if s[n] == x then Without(s[..n], x) else Without(s[..n], x) + [s[n]]
  }

  lemma {:induction false} WithoutAbsent<T>(s: seq<T>, x: T)
    requires x !in s
    ensures Without(s, x) == s
  {
    if s != [] {
      WithoutAbsent(s[..|s| - 1], x);
    }
  }

  lemma {:induction false} WithoutIs<T>(s: seq<T>, x: T)
    ensures forall y :: y in Without(s, x) <==> y in s && y != x
  {
    if s != [] {
      var n := |s| - 1;
      assert s == s[..n] + [s[n]];
      WithoutIs(s[..n], x);
    }
  }

  lemma {:induction false} WithoutNoRepeat<T>(s: seq<T>, x: T)
    requires NoRepeat(s)
    ensures NoRepeat(Without(s, x)) && |Without(s, x)| == |s| - if x in s then 1 else 0
  {
    if s != [] {
      var n := |s| - 1;
      assert s == s[..n] + [s[n]];
      WithoutNoRepeat(s[..n], x);
      WithoutIs(s[..n], x);
      assert s[n] !in s[..n];
      if s[n] == x {
        WithoutAbsent(s[..n], x);
      }
    }
  }

  lemma WithoutLast<T>(s: seq<T>, y: T, x: T)
    ensures Without(s + [y], x) == if y == x then Without(s, x) else Without(s, x) + [y]
  {
    assert (s + [y])[..|s|] == s;
  }

  /** Pieces put together again. */
  function Joined<T>(pieces: seq<seq<T>>): seq<T> {
    if pieces == [] then [] else pieces[0] + Joined(pieces[1..])
  }

  lemma {:induction false} JoinedLast<T>(pieces: seq<seq<T>>, p: seq<T>)
    ensures Joined(pieces + [p]) == Joined(pieces) + p
  {
    if pieces == [] {
      assert [p][1..] == [];
      assert Joined([p]) == p + [];
    } else {
      assert (pieces + [p])[1..] == pieces[1..] + [p];
      JoinedLast(pieces[1..], p);
      assert pieces[0] + (Joined(pieces[1..]) + p) == (pieces[0] + Joined(pieces[1..])) + p;
    }
  }
}
