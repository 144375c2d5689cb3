/**
  The one library routine that scheduling and ranking both lean on: Python's stable sort, with a
  pair of numbers as the key and the largest key first.

  A key that Python writes as `(-stake, height)` in ascending order is `Rank(stake, -height)` in
  descending order here, so one definition serves both callers.
 */
module StableSort {

  /** A sort key; pairs are compared lexicographically. */
  datatype Rank = Rank(major: real, minor: int)

  predicate Above(a: Rank, b: Rank) {
    a.major > b.major || (a.major == b.major && a.minor > b.minor)
  }

  /** Some occurrence of `x` comes before some occurrence of `y` in `s`. */
  ghost predicate Precedes<T>(s: seq<T>, x: T, y: T) {
    exists i, j :: 0 <= i < j < |s| && s[i] == x && s[j] == y
  }

  /** `x` belongs ahead of `y`: its key is larger, or the keys tie and `x` came first. */
  ghost predicate Ahead<T>(s: seq<T>, key: T -> Rank, x: T, y: T) {
    Above(key(x), key(y)) || (key(x) == key(y) && Precedes(s, x, y))
  }

  ghost predicate Sorted<T>(s: seq<T>, key: T -> Rank) {
    forall i, j :: 0 <= i < j < |s| ==> !Above(key(s[j]), key(s[i]))
  }

  function Insert<T>(x: T, s: seq<T>, key: T -> Rank): seq<T> {
    if s == [] || !Above(key(s[0]), key(x)) then [x] + s
    else [s[0]] + Insert(x, s[1..], key)
  }

  function Sort<T>(s: seq<T>, key: T -> Rank): seq<T> {
    if s == [] then [] else Insert(s[0], Sort(s[1..], key), key)
  }

  /** Where `x` lands: everything kept in front of it has a strictly larger key. */
  lemma {:induction false} InsertSplits<T>(x: T, s: seq<T>, key: T -> Rank) returns (k: nat)
    ensures k <= |s| && Insert(x, s, key) == s[..k] + [x] + s[k..]
    ensures forall i :: 0 <= i < k ==> Above(key(s[i]), key(x))
    ensures k < |s| ==> !Above(key(s[k]), key(x))
  {
    if s == [] || !Above(key(s[0]), key(x)) {
      k := 0;
    } else {
      var rest := s[1..];
      var k' := InsertSplits(x, rest, key);
      k := k' + 1;
      assert s[..k] == [s[0]] + rest[..k'] && s[k..] == rest[k'..];
      assert Insert(x, s, key) == [s[0]] + (rest[..k'] + [x] + rest[k'..]);
      assert [s[0]] + (rest[..k'] + [x] + rest[k'..]) == ([s[0]] + rest[..k']) + [x] + rest[k'..];
    }
  }

  /** Sorting loses and invents nothing. */
  lemma {:induction false} SortPermutes<T>(s: seq<T>, key: T -> Rank)
    ensures multiset(Sort(s, key)) == multiset(s)
    ensures |Sort(s, key)| == |s|
  {
    if s != [] {
      SortPermutes(s[1..], key);
      var rest := Sort(s[1..], key);
      var k := InsertSplits(s[0], rest, key);
      assert s == [s[0]] + s[1..];
      assert rest == rest[..k] + rest[k..];
    }
  }

  lemma SortSameMembers<T(!new)>(s: seq<T>, key: T -> Rank)
    ensures forall x :: x in Sort(s, key) <==> x in s
  {
    SortPermutes(s, key);
    forall x ensures x in Sort(s, key) <==> x in s {
      assert x in Sort(s, key) <==> x in multiset(Sort(s, key));
      assert x in s <==> x in multiset(s);
    }
  }

  /** The output is in order, and elements with equal keys keep their input order. */
  lemma {:induction false} SortIsStable<T(!new)>(s: seq<T>, key: T -> Rank)
    ensures |Sort(s, key)| == |s|
    ensures forall i, j :: 0 <= i < j < |s| ==> Ahead(s, key, Sort(s, key)[i], Sort(s, key)[j])
  {
    SortPermutes(s, key);
    if s != [] {
      var x, t := s[0], s[1..];
      var rest := Sort(t, key);
      SortIsStable(t, key);
      SortSameMembers(t, key);
      var k := InsertSplits(x, rest, key);
      var r := Sort(s, key);
      forall i, j | 0 <= i < j < |s| ensures Ahead(s, key, r[i], r[j]) {
        StableStep(s, key, rest, k, i, j);
      }
    }
  }

  /** One pair of positions of the list obtained by inserting `s[0]` into the sorted tail. */
  lemma StableStep<T(!new)>(s: seq<T>, key: T -> Rank, rest: seq<T>, k: nat, i: nat, j: nat)
    requires s != [] && |rest| == |s| - 1 && k <= |rest|
    requires forall y :: y in rest <==> y in s[1..]
    requires forall m, n :: 0 <= m < n < |rest| ==> Ahead(s[1..], key, rest[m], rest[n])
    requires forall m :: 0 <= m < k ==> Above(key(rest[m]), key(s[0]))
    requires k < |rest| ==> !Above(key(rest[k]), key(s[0]))
    requires i < j < |s|
    ensures var r := rest[..k] + [s[0]] + rest[k..]; Ahead(s, key, r[i], r[j])
  {
    var r := rest[..k] + [s[0]] + rest[k..];
    if i == k {
      assert r[j] == rest[j - 1];
      if j - 1 > k {
        assert Ahead(s[1..], key, rest[k], rest[j - 1]);
      }
      assert rest[j - 1] in s[1..];
      var m :| 0 <= m < |s[1..]| && s[1..][m] == r[j];
      assert s[0] == r[i] && s[m + 1] == r[j];
    } else if j == k {
      assert r[i] == rest[i];
    } else {
      var i', j' := if i < k then i else i - 1, if j < k then j else j - 1;
      assert r[i] == rest[i'] && r[j] == rest[j'];
      assert Ahead(s[1..], key, rest[i'], rest[j']);
      if !Above(key(r[i]), key(r[j])) {
        var p, q :| 0 <= p < q < |s[1..]| && s[1..][p] == r[i] && s[1..][q] == r[j];
        assert s[p + 1] == r[i] && s[q + 1] == r[j];
      }
    }
  }

  lemma SortIsSorted<T(!new)>(s: seq<T>, key: T -> Rank)
    ensures Sorted(Sort(s, key), key)
  {
    SortIsStable(s, key);
    var r := Sort(s, key);
    forall i, j | 0 <= i < j < |r| ensures !Above(key(r[j]), key(r[i])) {
      assert Ahead(s, key, r[i], r[j]);
    }
  }

  /** When a key identifies its element, a sorted list is fixed by its multiset. */
  lemma {:induction false} SortedListsAgree<T>(a: seq<T>, b: seq<T>, key: T -> Rank)
    requires Sorted(a, key) && Sorted(b, key) && multiset(a) == multiset(b)
    requires forall x, y :: x in a && y in a && key(x) == key(y) ==> x == y
    ensures a == b
  {
    assert |multiset(a)| == |a| && |multiset(b)| == |b|;
    if a != [] {
      SameHead(a, b, key);
      TailMultiset(a);
      TailMultiset(b);
      SortedListsAgree(a[1..], b[1..], key);
    }
  }

  lemma TailMultiset<T>(a: seq<T>)
    requires a != []
    ensures multiset(a[1..]) == multiset(a) - multiset{a[0]}
  {
    assert a == [a[0]] + a[1..];
  }

  lemma SameHead<T>(a: seq<T>, b: seq<T>, key: T -> Rank)
    requires a != [] && Sorted(a, key) && Sorted(b, key) && multiset(a) == multiset(b)
    requires forall x, y :: x in a && y in a && key(x) == key(y) ==> x == y
    ensures b != [] && a[0] == b[0]
  {
    assert a[0] in multiset(b);
    assert a[0] in b;
    assert b[0] in multiset(a);
    assert b[0] in a;
    var i :| 0 <= i < |b| && b[i] == a[0];
    var j :| 0 <= j < |a| && a[j] == b[0];
    assert !Above(key(b[i]), key(b[0])) && !Above(key(a[j]), key(a[0]));
  }

  /** Sorting forgets the input order as soon as keys identify elements. */
  lemma SortIsCanonical<T(!new)>(s: seq<T>, t: seq<T>, key: T -> Rank)
    requires multiset(s) == multiset(t)
    requires forall x, y :: x in s && y in s && key(x) == key(y) ==> x == y
    ensures Sort(s, key) == Sort(t, key)
  {
    SortIsSorted(s, key);
    SortIsSorted(t, key);
    SortSameMembers(s, key);
    SortPermutes(s, key);
    SortPermutes(t, key);
    var r := Sort(s, key);
    forall x, y | x in r && y in r && key(x) == key(y) ensures x == y {
      assert x in s && y in s;
    }
    SortedListsAgree(r, Sort(t, key), key);
  }
}
