/** What several components share: options, extrema, slices of lists, and collision freedom. */
module Basics {

  datatype Option<+T> = None | Some(value: T)

  function Min(a: real, b: real): real { if b < a then b else a }

  function Max(a: real, b: real): real { if b > a then b else a }

  function MinInt(a: int, b: int): int { if b < a then b else a }

  function MaxInt(a: int, b: int): int { if b > a then b else a }

  /** A hash has no collision among finitely many named inputs. */
  ghost predicate CollisionFree<T(!new), D>(hash: T -> D, inputs: set<T>) {
    forall x, y :: x in inputs && y in inputs && hash(x) == hash(y) ==> x == y
  }

  /** A list has no repetition exactly when its multiset has none. */
  lemma {:induction false} DistinctOnce<T(!new)>(s: seq<T>)
    ensures (forall i, j :: 0 <= i < j < |s| ==> s[i] != s[j]) <==> (forall x :: multiset(s)[x] <= 1)
  {
    if s != [] {
      var last := |s| - 1;
      var front := s[..last];
      DistinctOnce(front);
      assert s == front + [s[last]];
      if forall i, j :: 0 <= i < j < |s| ==> s[i] != s[j] {
        assert s[last] !in front;
      }
      if forall x :: multiset(s)[x] <= 1 {
        forall x ensures multiset(front)[x] <= 1 {
          assert multiset(s)[x] >= multiset(front)[x];
        }
        assert multiset(s)[s[last]] == multiset(front)[s[last]] + 1;
        assert s[last] !in front;
      }
    }
  }

  /** `f` applied `n` times. */
  function Iterate<T>(f: T -> T, x: T, n: nat): T {
    if n == 0 then x else f(Iterate(f, x, n - 1))
  }

  lemma {:induction false} IterateFromNext<T>(f: T -> T, x: T, n: nat)
    ensures Iterate(f, f(x), n) == Iterate(f, x, n + 1)
  {
    if n > 0 {
      IterateFromNext(f, x, n - 1);
    }
  }

  /** What every step keeps, all steps keep. */
  lemma {:induction false} IterateKeeps<T(!new)>(f: T -> T, kept: T -> bool, x: T, n: nat)
    requires kept(x) && forall y :: kept(y) ==> kept(f(y))
    ensures kept(Iterate(f, x, n))
  {
    if n > 0 {
      IterateKeeps(f, kept, x, n - 1);
    }
  }

  lemma WholePrefix<T>(s: seq<T>, n: nat)
    requires n == |s|
    ensures s[..n] == s
  {
  }

  lemma PrefixOfPrefix<T>(s: seq<T>, i: nat)
    requires i < |s|
    ensures s[..i + 1][..i] == s[..i]
  {
  }
}
