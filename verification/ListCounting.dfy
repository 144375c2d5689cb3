/** Counting lists: a set of m elements has m^k lists of length k over it. */
module ListCounting {

  function Pow(b: nat, e: nat): nat {
    if e == 0 then 1 else b * Pow(b, e - 1)
  }

  ghost function Prefixed<T(!new)>(firsts: set<T>, rest: set<seq<T>>): set<seq<T>> {
    set x, l | x in firsts && l in rest :: [x] + l
  }

  /** All lists of length `k` over `steps`. */
  ghost function Lists<T(!new)>(steps: set<T>, k: nat): set<seq<T>> {
    if k == 0 then {[]} else Prefixed(steps, Lists(steps, k - 1))
  }

  lemma PrefixedHas<T(!new)>(firsts: set<T>, rest: set<seq<T>>, x: T, l: seq<T>)
    requires x in firsts && l in rest
    ensures [x] + l in Prefixed(firsts, rest)
  {
  }

  lemma PrefixedMembers<T(!new)>(firsts: set<T>, rest: set<seq<T>>, m: seq<T>)
    ensures m in Prefixed(firsts, rest) <==> m != [] && m[0] in firsts && m[1..] in rest
  {
    if m in Prefixed(firsts, rest) {
      var x, l :| x in firsts && l in rest && [x] + l == m;
      assert m[1..] == l;
    }
    if m != [] && m[0] in firsts && m[1..] in rest {
      PrefixedHas(firsts, rest, m[0], m[1..]);
      assert [m[0]] + m[1..] == m;
    }
  }

  lemma {:induction false} ListsMembers<T(!new)>(steps: set<T>, k: nat, l: seq<T>)
    ensures l in Lists(steps, k) <==> |l| == k && forall j :: j in l ==> j in steps
  {
    if k == 0 {
      assert |l| == 0 <==> l == [];
    } else {
      PrefixedMembers(steps, Lists(steps, k - 1), l);
      if l != [] {
        ListsMembers(steps, k - 1, l[1..]);
        assert l == [l[0]] + l[1..];
      }
    }
  }

  lemma {:induction false} PrefixedOnce<T(!new)>(x: T, rest: set<seq<T>>)
    ensures |Prefixed({x}, rest)| == |rest|
  {
    if rest == {} {
      assert Prefixed({x}, rest) == {};
    } else {
      var l :| l in rest;
      var fewer := rest - {l};
      PrefixedOnce(x, fewer);
      forall m ensures m in Prefixed({x}, rest) <==> m in Prefixed({x}, fewer) + {[x] + l} {
        PrefixedMembers({x}, rest, m);
        PrefixedMembers({x}, fewer, m);
        assert m != [] ==> m == [m[0]] + m[1..];
      }
      PrefixedMembers({x}, fewer, [x] + l);
      assert Prefixed({x}, rest) == Prefixed({x}, fewer) + {[x] + l};
    }
  }

  lemma {:induction false} PrefixedCount<T(!new)>(firsts: set<T>, rest: set<seq<T>>)
    ensures |Prefixed(firsts, rest)| == |firsts| * |rest|
  {
    if firsts == {} {
      assert Prefixed(firsts, rest) == {};
    } else {
      var x :| x in firsts;
      var fewer := firsts - {x};
      PrefixedCount(fewer, rest);
      PrefixedOnce(x, rest);
      PrefixedSplits(firsts, x, rest);
      DisjointCount(Prefixed(fewer, rest), Prefixed({x}, rest));
      assert firsts == fewer + {x};
      OneMoreRow(|fewer|, |firsts|, |rest|);
    }
  }

  lemma OneMoreRow(n: int, m: int, width: int)
    requires m == n + 1
    ensures n * width + width == m * width
  {
  }

  lemma PrefixedSplits<T(!new)>(firsts: set<T>, x: T, rest: set<seq<T>>)
    requires x in firsts
    ensures Prefixed(firsts, rest) == Prefixed(firsts - {x}, rest) + Prefixed({x}, rest)
    ensures Prefixed(firsts - {x}, rest) !! Prefixed({x}, rest)
  {
    forall m
      ensures m in Prefixed(firsts, rest) <==> m in Prefixed(firsts - {x}, rest) + Prefixed({x}, rest)
      ensures !(m in Prefixed(firsts - {x}, rest) && m in Prefixed({x}, rest))
    {
      PrefixedMembers(firsts, rest, m);
      PrefixedMembers(firsts - {x}, rest, m);
      PrefixedMembers({x}, rest, m);
    }
  }

  lemma DisjointCount<T(!new)>(a: set<seq<T>>, b: set<seq<T>>)
    requires a !! b
    ensures |a + b| == |a| + |b|
  {
  }

  lemma {:induction false} ListsCount<T(!new)>(steps: set<T>, k: nat)
    ensures |Lists(steps, k)| == Pow(|steps|, k)
  {
    if k > 0 {
      ListsCount(steps, k - 1);
      PrefixedCount(steps, Lists(steps, k - 1));
    }
  }
}
