/** The root of a tree put together from above: from the roots of its two subtrees, whatever the number of leaves. */
module MerkleFromAbove {
  import opened MerkleTree

  function PowerOfTwo(h: nat): nat { if h == 0 then 1 else 2 * PowerOfTwo(h - 1) }

  /** A node paired with itself, `n` times over. */
  function Doubled(sha: Hash, node: Text, n: nat): Text
    decreases n
  {
    if n == 0 then node else Doubled(sha, sha(node + node), n - 1)
  }

  /**
    Split after a power of two leaves, with no more leaves on the right than on the left: the root is the hash of
    the left subtree's root followed by the right one's, the latter paired with itself up to the height of the left.
   */
  lemma {:induction false} RootOfSubtrees(sha: Hash, left: seq<Text>, right: seq<Text>, h: nat)
    requires |left| == PowerOfTwo(h) && 1 <= |right| <= |left|
    ensures Height(|right|) <= h
    ensures Root(sha, left + right) == sha(Root(sha, left) + Doubled(sha, Root(sha, right), h - Height(|right|)))
    decreases h
  {
    if h == 0 {
      PairOfTwo(sha, left[0], right[0]);
      assert left == [left[0]] && right == [right[0]] && left + right == [left[0], right[0]];
    } else {
      var upLeft, upRight := NextLevel(sha, left), NextLevel(sha, right);
      LevelOfBoth(sha, left, right);
      RootOfSubtrees(sha, upLeft, upRight, h - 1);
      OneLevelUp(sha, left);
      OneLevelUp(sha, left + right);
      RightSide(sha, right, upRight, h);
    }
  }

  lemma OneLevelUp(sha: Hash, level: seq<Text>)
    requires |level| > 1
    ensures Root(sha, level) == Root(sha, NextLevel(sha, level))
  {
  }

  /** A single node is paired with itself where a larger subtree has one level more. */
  lemma DoublesOnTheWay(sha: Hash, root: Text, n: nat, upper: Text, m: nat, h: nat)
    requires n > 0 && m == (n + 1) / 2 && h > 0 && Height(m) <= h - 1
    requires upper == if n == 1 then sha(root + root) else root
    ensures Height(n) <= h && Doubled(sha, upper, h - 1 - Height(m)) == Doubled(sha, root, h - Height(n))
  {
    if n > 1 {
      HeightUp(n, m);
    }
  }

  lemma OneLevelUpOrTwin(sha: Hash, level: seq<Text>)
    requires level != []
    ensures Root(sha, NextLevel(sha, level))
            == if |level| == 1 then sha(Root(sha, level) + Root(sha, level)) else Root(sha, level)
  {
    if |level| == 1 {
      assert NextLevel(sha, level) == [sha(level[0] + level[0])];
    }
  }

  lemma RightSide(sha: Hash, right: seq<Text>, up: seq<Text>, h: nat)
    requires right != [] && h > 0 && up == NextLevel(sha, right) && up != [] && Height(|up|) <= h - 1
    ensures Height(|right|) <= h
    ensures Doubled(sha, Root(sha, up), h - 1 - Height(|up|)) == Doubled(sha, Root(sha, right), h - Height(|right|))
  {
    var root, upper := Root(sha, right), Root(sha, up);
    OneLevelUpOrTwin(sha, right);
    DoublesOnTheWay(sha, root, |right|, upper, |up|, h);
  }

  lemma HeightUp(n: nat, up: nat)
    requires n > 1 && up == (n + 1) / 2
    ensures Height(n) == 1 + Height(up)
  {
  }

  lemma PairOfTwo(sha: Hash, a: Text, b: Text)
    ensures Root(sha, [a, b]) == sha(a + b)
  {
    assert NextLevel(sha, [a, b]) == [sha(a + b)];
  }

  lemma PairOfBoth(left: seq<Text>, right: seq<Text>, k: nat)
    requires |left| % 2 == 0 && 2 * k < |left| + |right|
    ensures 2 * k < |left| ==> Pair(left + right, k) == Pair(left, k)
    ensures 2 * k >= |left| ==> Pair(left + right, k) == Pair(right, k - |left| / 2)
  {
  }

  lemma LevelOfBoth(sha: Hash, left: seq<Text>, right: seq<Text>)
    requires |left| % 2 == 0
    ensures NextLevel(sha, left + right) == NextLevel(sha, left) + NextLevel(sha, right)
  {
    var up, parts := NextLevel(sha, left + right), NextLevel(sha, left) + NextLevel(sha, right);
    assert |up| == |parts|;
    forall k | 0 <= k < |up| ensures up[k] == parts[k] {
      PairOfBoth(left, right, k);
    }
  }
}
