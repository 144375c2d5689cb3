/**
  The Merkle tree over a model file: building the root, checking a path, and what a checked path proves.

  Digests are 64-character hex texts. Concatenated digests are hashed as text, which for hex is the
  same as hashing their bytes, so one `sha` from texts to texts serves leaves and inner nodes.
 */
module MerkleTree {
  import opened Basics

  type Text = seq<char>
  type Hash = Text -> Text

  const DIGEST_LENGTH := 64

  ghost predicate Digests(sha: Hash) {
    forall x :: |sha(x)| == DIGEST_LENGTH
  }

  // ----- the tree

  /** The right partner in pair `k`: a lone last node is paired with itself. */
  function Right(level: seq<Text>, k: nat): Text
    requires 2 * k < |level|
  {
    if 2 * k + 1 < |level| then level[2 * k + 1] else level[2 * k]
  }

  /** The text hashed into node `k` of the next level. */
  function Pair(level: seq<Text>, k: nat): Text
    requires 2 * k < |level|
  {
    level[2 * k] + Right(level, k)
  }

  function FirstNodes(sha: Hash, level: seq<Text>, n: nat): (nodes: seq<Text>)
    requires 2 * n <= |level| + 1
    ensures |nodes| == n && forall k :: 0 <= k < n ==> nodes[k] == sha(Pair(level, k))
  {
    if n == 0 then [] else FirstNodes(sha, level, n - 1) + [sha(Pair(level, n - 1))]
  }

  function NextLevel(sha: Hash, level: seq<Text>): seq<Text> {
    FirstNodes(sha, level, (|level| + 1) / 2)
  }

  function Root(sha: Hash, level: seq<Text>): Text
    requires level != []
    decreases |level|
  {
    if |level| == 1 then level[0] else Root(sha, NextLevel(sha, level))
  }

  function Height(n: nat): nat {
    if n <= 1 then 0 else 1 + Height((n + 1) / 2)
  }

  function Sibling(level: seq<Text>, i: nat): Text
    requires i < |level|
  {
    if i % 2 == 1 then level[i - 1] else if i + 1 < |level| then level[i + 1] else level[i]
  }

  /** The siblings on the way from leaf `i` to the root. */
  function Path(sha: Hash, level: seq<Text>, i: nat): (path: seq<Text>)
    requires i < |level|
    ensures |path| == Height(|level|)
    decreases |level|
  {
    if |level| == 1 then [] else [Sibling(level, i)] + Path(sha, NextLevel(sha, level), i / 2)
  }

  /** The index says on which side the sibling goes. */
  function Combine(i: int, node: Text, sibling: Text): Text {
    if i % 2 == 0 then node + sibling else sibling + node
  }

  /** What hashing up a path yields. */
  function Climb(sha: Hash, node: Text, i: int, path: seq<Text>): Text {
    if path == [] then node
    else
      var last := |path| - 1;
      sha(Combine(Shifted(i, last), Climb(sha, node, i, path[..last]), path[last]))
  }

  /** The index after `n` halvings, rounding down. */
  function Shifted(i: int, n: nat): int {
    if n == 0 then i else Shifted(i, n - 1) / 2
  }

  /** Hashes a file chunk by chunk and folds the digests into a root; an empty file has none. */
  method CreateMerkleTree(sha: Hash, chunks: seq<Text>) returns (root: Text, leaves: seq<Text>)
    ensures |leaves| == |chunks| && forall i :: 0 <= i < |chunks| ==> leaves[i] == sha(chunks[i])
    ensures root == if leaves == [] then "" else Root(sha, leaves)
  {
    leaves := [];
    for i := 0 to |chunks|
      invariant |leaves| == i && forall k :: 0 <= k < i ==> leaves[k] == sha(chunks[k])
    {
      leaves := leaves + [sha(chunks[i])];
    }
    if leaves == [] {
      return "", [];
    }
    var level := leaves;
    while |level| > 1
      invariant level != [] && Root(sha, level) == Root(sha, leaves)
      decreases |level|
    {
      level := BuildNextLevel(sha, level);
    }
    root := level[0];
  }

  method BuildNextLevel(sha: Hash, level: seq<Text>) returns (next: seq<Text>)
    ensures next == NextLevel(sha, level)
  {
    next := [];
    var i := 0;
    while i < |level|
      invariant i % 2 == 0 && i <= |level| + 1
      invariant next == FirstNodes(sha, level, i / 2)
    {
      var left := level[i];
      var right := if i + 1 < |level| then level[i + 1] else left;
      assert left + right == Pair(level, i / 2);
      next := next + [sha(left + right)];
      i := i + 2;
    }
  }

  method VerifyMerkleProof(sha: Hash, leafHash: Text, leafIndex: int, proof: seq<Text>, root: Text) returns (ok: bool)
    ensures ok <==> Climb(sha, leafHash, leafIndex, proof) == root
  {
    var current, index := leafHash, leafIndex;
    for n := 0 to |proof|
      invariant current == Climb(sha, leafHash, leafIndex, proof[..n]) && index == Shifted(leafIndex, n)
    {
      assert proof[..n + 1][..n] == proof[..n];
      if index % 2 == 0 {
        current := sha(current + proof[n]);
      } else {
        current := sha(proof[n] + current);
      }
      index := index / 2;
    }
    assert proof[..|proof|] == proof;
    ok := current == root;
  }

  /** A proof that carries its leaf data; the root it stores is not the one it is checked against. */
  datatype MerkleProof = MerkleProof(leafIndex: int, leafData: Text, proofHashes: seq<Text>, rootHash: Text)

  /** Checking such a proof is checking the hashed leaf. */
  method VerifyProofObject(sha: Hash, p: MerkleProof, expectedRoot: Text) returns (ok: bool)
    ensures ok <==> Climb(sha, sha(p.leafData), p.leafIndex, p.proofHashes) == expectedRoot
  {
    var current, index := sha(p.leafData), p.leafIndex;
    for n := 0 to |p.proofHashes|
      invariant current == Climb(sha, sha(p.leafData), p.leafIndex, p.proofHashes[..n])
                && index == Shifted(p.leafIndex, n)
    {
      assert p.proofHashes[..n + 1][..n] == p.proofHashes[..n];
      current := sha(if index % 2 == 0 then current + p.proofHashes[n] else p.proofHashes[n] + current);
      index := index / 2;
    }
    assert p.proofHashes[..|p.proofHashes|] == p.proofHashes;
    ok := current == expectedRoot;
  }

  // ----- climbing from the bottom

  lemma {:induction false} ShiftedTwice(i: int, n: nat)
    ensures Shifted(i / 2, n) == Shifted(i, n + 1)
  {
    if n > 0 {
      ShiftedTwice(i, n - 1);
    }
  }

  /** The first step of a climb can be taken on its own. */
  lemma {:induction false} ClimbFirst(sha: Hash, node: Text, i: int, path: seq<Text>)
    requires path != []
    ensures Climb(sha, node, i, path)
            == Climb(sha, sha(Combine(i, node, path[0])), i / 2, path[1..])
  {
    var last := |path| - 1;
    if last == 0 {
      assert Climb(sha, node, i, path[..0]) == node && Shifted(i, 0) == i;
    } else {
      ClimbFirst(sha, node, i, path[..last]);
      ShiftedTwice(i, last - 1);
      assert path[..last][1..] == path[1..][..last - 1];
      assert path[..last][0] == path[0] && path[1..][last - 1] == path[last];
    }
  }

  // ----- completeness

  /** The sibling path of a leaf always verifies against the root. */
  lemma {:induction false} PathsVerify(sha: Hash, level: seq<Text>, i: nat)
    requires i < |level|
    ensures Climb(sha, level[i], i, Path(sha, level, i)) == Root(sha, level)
    decreases |level|
  {
    if |level| > 1 {
      var next := NextLevel(sha, level);
      var path := Path(sha, level, i);
      ClimbFirst(sha, level[i], i, path);
      PairAt(level, i);
      assert path[0] == Sibling(level, i) && path[1..] == Path(sha, next, i / 2);
      PathsVerify(sha, next, i / 2);
    }
  }

  /** A node and its sibling, combined, are the pair they belong to. */
  lemma PairAt(level: seq<Text>, i: nat)
    requires i < |level|
    ensures Combine(i, level[i], Sibling(level, i)) == Pair(level, i / 2)
  {
  }

  // ----- soundness

  /** Every text hashed while the tree is built. */
  ghost function TreeInputs(sha: Hash, level: seq<Text>): set<Text>
    decreases |level|
  {
    if |level| <= 1 then {}
    else Pairs(level) + TreeInputs(sha, NextLevel(sha, level))
  }

  ghost function Pairs(level: seq<Text>): set<Text> {
    set i | 0 <= i < |level| :: Pair(level, i / 2)
  }

  /** Every text hashed while a path is climbed. */
  ghost function ClimbInputs(node: Text, i: int, path: seq<Text>, sha: Hash): set<Text>
    decreases path
  {
    if path == [] then {}
    else
      {Combine(i, node, path[0])} + ClimbInputs(sha(Combine(i, node, path[0])), i / 2, path[1..], sha)
  }

  lemma SameHalves(a: Text, b: Text, c: Text, d: Text)
    requires a + b == c + d && (|a| == |c| || |b| == |d|)
    ensures a == c && b == d
  {
    assert |a| == |c|;
    assert a == (a + b)[..|a|] && c == (c + d)[..|c|];
    assert b == (a + b)[|a|..] && d == (c + d)[|c|..];
  }

  ghost predicate DigestLevel(level: seq<Text>) {
    forall k :: 0 <= k < |level| ==> |level[k]| == DIGEST_LENGTH
  }

  lemma {:induction false} VerifiedMeansTrueLeaf(sha: Hash, level: seq<Text>, node: Text, i: nat, path: seq<Text>,
                                                 inputs: set<Text>)
    requires i < |level| && |path| == Height(|level|)
    requires Digests(sha) && |node| == DIGEST_LENGTH && DigestLevel(level)
    requires CollisionFree(sha, inputs) && TreeInputs(sha, level) <= inputs && ClimbInputs(node, i, path, sha) <= inputs
    requires Climb(sha, node, i, path) == Root(sha, level)
    ensures node == level[i] && path == Path(sha, level, i)
    decreases |level|
  {
    if |level| == 1 {
      assert path == [];
    } else {
      InputsShrink(sha, level, node, i, path, inputs);
      ClimbFirst(sha, node, i, path);
      NodesAreDigests(sha, level);
      var next := NextLevel(sha, level);
      VerifiedMeansTrueLeaf(sha, next, sha(Combine(i, node, path[0])), i / 2, path[1..], inputs);
      OneLevelDown(sha, level, node, i, path[0], inputs);
      PathFromItsTail(sha, level, i, path);
    }
  }

  lemma NodesAreDigests(sha: Hash, level: seq<Text>)
    requires Digests(sha)
    ensures DigestLevel(NextLevel(sha, level))
  {
  }

  lemma PathFromItsTail(sha: Hash, level: seq<Text>, i: nat, path: seq<Text>)
    requires |level| > 1 && i < |level| && path != []
    requires path[0] == Sibling(level, i) && path[1..] == Path(sha, NextLevel(sha, level), i / 2)
    ensures path == Path(sha, level, i)
  {
    SameHeadAndTail(path, Sibling(level, i), Path(sha, NextLevel(sha, level), i / 2));
  }

  lemma SameHeadAndTail<T>(s: seq<T>, head: T, tail: seq<T>)
    requires s != [] && s[0] == head && s[1..] == tail
    ensures s == [head] + tail
  {
    assert s == [s[0]] + s[1..];
  }

  /**
    What a verified path proves: for a path of the tree's height and a node of digest length, checking
    succeeds exactly for the true leaf with its true siblings, unless two hashed texts collide.
   */
  lemma VerifiedIffTrueLeaf(sha: Hash, level: seq<Text>, node: Text, i: nat, path: seq<Text>)
    requires i < |level| && |path| == Height(|level|)
    requires Digests(sha) && |node| == DIGEST_LENGTH && DigestLevel(level)
    requires CollisionFree(sha, TreeInputs(sha, level) + ClimbInputs(node, i, path, sha))
    ensures Climb(sha, node, i, path) == Root(sha, level) <==> node == level[i] && path == Path(sha, level, i)
  {
    PathsVerify(sha, level, i);
    if Climb(sha, node, i, path) == Root(sha, level) {
      VerifiedMeansTrueLeaf(sha, level, node, i, path, TreeInputs(sha, level) + ClimbInputs(node, i, path, sha));
    }
  }

  lemma InputsShrink(sha: Hash, level: seq<Text>, node: Text, i: nat, path: seq<Text>, inputs: set<Text>)
    requires |level| > 1 && path != [] && i < |level|
    requires TreeInputs(sha, level) <= inputs && ClimbInputs(node, i, path, sha) <= inputs
    ensures TreeInputs(sha, NextLevel(sha, level)) <= inputs
    ensures Pair(level, i / 2) in inputs && Combine(i, node, path[0]) in inputs
    ensures ClimbInputs(sha(Combine(i, node, path[0])), i / 2, path[1..], sha) <= inputs
  {
    assert Pair(level, i / 2) in Pairs(level);
  }

  lemma OneLevelDown(sha: Hash, level: seq<Text>, node: Text, i: nat, sibling: Text, inputs: set<Text>)
    requires i < |level| && |level| > 1 && |node| == |level[i]|
    requires CollisionFree(sha, inputs) && Pair(level, i / 2) in inputs && Combine(i, node, sibling) in inputs
    requires sha(Combine(i, node, sibling)) == NextLevel(sha, level)[i / 2]
    ensures node == level[i] && sibling == Sibling(level, i)
  {
    PairAt(level, i);
    SameCombination(i, node, sibling, level[i], Sibling(level, i));
  }

  lemma SameCombination(i: int, a: Text, b: Text, c: Text, d: Text)
    requires Combine(i, a, b) == Combine(i, c, d) && |a| == |c|
    ensures a == c && b == d
  {
    if i % 2 == 0 {
      SameHalves(a, b, c, d);
    } else {
      SameHalves(b, a, d, c);
    }
  }

  /** With no collision among the hashed texts, equal roots of equally long leaf lists mean equal leaves. */
  lemma RootBindsLeaves(sha: Hash, a: seq<Text>, b: seq<Text>)
    requires |a| == |b| > 0 && Digests(sha) && Root(sha, a) == Root(sha, b)
    requires DigestLevel(a) && DigestLevel(b)
    requires forall i :: 0 <= i < |b| ==>
               CollisionFree(sha, TreeInputs(sha, a) + ClimbInputs(b[i], i, Path(sha, b, i), sha))
    ensures a == b
  {
    forall i | 0 <= i < |a| ensures a[i] == b[i] {
      PathsVerify(sha, b, i);
      VerifiedIffTrueLeaf(sha, a, b[i], i, Path(sha, b, i));
    }
  }

  // ----- what the verifier does not check

  /** Without the length of the leaf hash, anything goes: the empty text verifies as the first of two leaves. */
  lemma LeafLengthIsNeeded(sha: Hash, left: Text, right: Text)
    ensures Climb(sha, "", 0, [left + right]) == Root(sha, [left, right])
  {
    var level := [left, right];
    assert Pair(level, 0) == left + right && |NextLevel(sha, level)| == 1;
    assert Climb(sha, "", 0, [left + right][..0]) == "";
    assert "" + (left + right) == left + right;
  }

  /** Without the height, an inner node verifies as if it were a leaf. */
  lemma HeightIsNeeded(sha: Hash, level: seq<Text>, k: nat)
    requires |level| > 1 && k < |NextLevel(sha, level)|
    ensures Climb(sha, NextLevel(sha, level)[k], k, Path(sha, NextLevel(sha, level), k)) == Root(sha, level)
  {
    PathsVerify(sha, NextLevel(sha, level), k);
  }

  /** Without the number of leaves, repeating the last of an odd number of them keeps the root. */
  lemma LeafCountIsNeeded(sha: Hash, level: seq<Text>)
    requires |level| % 2 == 1 && |level| > 1
    ensures Root(sha, level + [level[|level| - 1]]) == Root(sha, level)
  {
    SameNextLevel(sha, level + [level[|level| - 1]], level, |level| / 2);
  }

  lemma SameNextLevel(sha: Hash, longer: seq<Text>, level: seq<Text>, m: nat)
    requires |level| == 2 * m + 1 && longer == level + [level[|level| - 1]]
    ensures NextLevel(sha, longer) == NextLevel(sha, level)
  {
    SameNodes(sha, longer, level, m + 1);
  }

  lemma SamePair(longer: seq<Text>, level: seq<Text>, k: nat)
    requires |level| % 2 == 1 && longer == level + [level[|level| - 1]] && 2 * k + 1 <= |level|
    ensures Pair(longer, k) == Pair(level, k)
  {
  }

  lemma {:induction false} SameNodes(sha: Hash, longer: seq<Text>, level: seq<Text>, n: nat)
    requires |level| % 2 == 1 && longer == level + [level[|level| - 1]] && 2 * n <= |level| + 1
    ensures FirstNodes(sha, longer, n) == FirstNodes(sha, level, n)
  {
    if n > 0 {
      SameNodes(sha, longer, level, n - 1);
      SamePair(longer, level, n - 1);
    }
  }
}
