/** What several parts share. */
module Basics {

  datatype Option<T> = None | Some(value: T)

  predicate NoDup<T(==)>(s: seq<T>) {
    forall i, j :: 0 <= i < j < |s| ==> s[i] != s[j]
  }

  /** s without x, the rest in place. */
  function Without<T(==)>(s: seq<T>, x: T): (r: seq<T>)
    ensures forall y :: y in r ==> y in s
    ensures |r| <= |s|
  {
    if s == [] then []
    else if s[0] == x then Without(s[1..], x)
    else [s[0]] + Without(s[1..], x)
  }

  lemma {:induction false} WithoutMembers<T>(s: seq<T>, x: T)
    requires NoDup(s)
    ensures NoDup(Without(s, x))
    ensures forall y :: y in Without(s, x) <==> y in s && y != x
    decreases |s|
  {
    if s != [] {
      WithoutMembers(s[1..], x);
      assert s == [s[0]] + s[1..];
      var rest := Without(s[1..], x);
      forall i | 0 <= i < |rest|
        ensures rest[i] != s[0]
      {
        assert rest[i] in rest && rest[i] in s[1..];
      }
    }
  }

  lemma {:induction false} WithoutAbsent<T>(s: seq<T>, x: T)
    requires x !in s
    ensures Without(s, x) == s
    decreases |s|
  {
    if s != [] {
      WithoutAbsent(s[1..], x);
    }
  }

  /** Where nothing occurs twice, removing is cutting one place out. */
  lemma {:induction false} WithoutCuts<T>(s: seq<T>, x: T, i: nat)
    requires NoDup(s) && i < |s| && s[i] == x
    ensures Without(s, x) == s[..i] + s[i + 1..]
    decreases i
  {
    if i == 0 {
      WithoutAbsent(s[1..], x);
    } else {
      WithoutCuts(s[1..], x, i - 1);
    }
  }

  /** s without what fits, the rest in place: slices.DeleteFunc. */
  function Rejecting<T>(s: seq<T>, fits: T -> bool): seq<T> {
    if s == [] then []
    else
      var n := |s| - 1;
      Rejecting(s[..n], fits) + if fits(s[n]) then [] else [s[n]]
  }

  /** The loop that keeps what does not fit. */
  method KeepRest<T>(s: seq<T>, fits: T -> bool) returns (kept: seq<T>)
    ensures kept == Rejecting(s, fits)
  {
    kept := [];
    for i := 0 to |s|
      invariant kept == Rejecting(s[..i], fits)
    {
      assert s[..i + 1][..i] == s[..i];
      if !fits(s[i]) {
        kept := kept + [s[i]];
      }
    }
    assert s[..|s|] == s;
  }

  /** The first place that fits, or the length. */
  function FirstIndex<T>(s: seq<T>, fits: T -> bool): (k: nat)
    ensures k <= |s|
    ensures k < |s| ==> fits(s[k])
    ensures forall j :: 0 <= j < k ==> !fits(s[j])
  {
    if s == [] || fits(s[0]) then 0 else 1 + FirstIndex(s[1..], fits)
  }

  function Pow2(n: nat): (p: nat)
    ensures p > 0
  {
    if n == 0 then 1 else 2 * Pow2(n - 1)
  }

  /** Step i of the first n did it, and no later one undid it. */
  ghost predicate SinceStep(does: nat -> bool, undoes: nat -> bool, n: nat, i: nat) {
    i < n && does(i) && forall j :: i < j < n ==> !undoes(j)
  }

  /** Some step did it and none undid it since: the last word on it. */
  ghost predicate Since(does: nat -> bool, undoes: nat -> bool, n: nat) {
    exists i: nat :: SinceStep(does, undoes, n, i)
  }

  lemma SinceGrows(does: nat -> bool, undoes: nat -> bool, n: nat)
    ensures Since(does, undoes, n + 1) <==> does(n) || (Since(does, undoes, n) && !undoes(n))
  {
    if does(n) {
      assert SinceStep(does, undoes, n + 1, n);
    } else if Since(does, undoes, n + 1) {
      var i: nat :| SinceStep(does, undoes, n + 1, i);
      assert SinceStep(does, undoes, n, i);
    } else if Since(does, undoes, n) && !undoes(n) {
      var i: nat :| SinceStep(does, undoes, n, i);
      assert SinceStep(does, undoes, n + 1, i);
    }
  }

  /** What happened in the first n steps does not depend on how later ones are told. */
  lemma SinceSame(does: nat -> bool, undoes: nat -> bool, does': nat -> bool, undoes': nat -> bool, n: nat)
    requires forall j: nat :: j < n ==> does(j) == does'(j) && undoes(j) == undoes'(j)
    ensures Since(does, undoes, n) <==> Since(does', undoes', n)
  {
    if Since(does, undoes, n) {
      var i: nat :| SinceStep(does, undoes, n, i);
      assert SinceStep(does', undoes', n, i);
    }
    if Since(does', undoes', n) {
      var i: nat :| SinceStep(does', undoes', n, i);
      assert SinceStep(does, undoes, n, i);
    }
  }
}
