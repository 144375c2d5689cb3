/**
  Chain synchronisation by gossip: receiving block messages, answering with the blocks after a digest, and
  the local path, which collects attestations and finalises a block.

  A block is what is transmitted of it and what stays with the node that holds it.
 */
module Gossip {

  import opened Basics

  /** The transmitted fields; `body` stands for all that only matter to the hash. */
  datatype Wire = Wire(index: int, miner: string, hash: string, body: string)

  datatype Opinion = Positive | Negative | Unclear

  datatype Attestation = Attestation(sender: string, blockHash: string, opinion: Opinion)

  datatype Local = Local(finalizationBlock: Option<int>, attestations: seq<Attestation>, timing: string)

  datatype Block = Block(wire: Wire, local: Local)

  /** Block data that cannot be parsed makes the handler give up on the message. */
  datatype Message = BlockData(wire: Wire) | Unparsable | Notification(hash: string) | Transaction

  type Digest = Wire -> string

  const UNSET := Local(None, [], "")

  function GenesisWire(digest: Digest): Wire {
    var w := Wire(0, "genesis", "", "");
    w.(hash := digest(w))
  }

  /** Every node starts from the same block. */
  function Genesis(digest: Digest): Block { Block(GenesisWire(digest), Local(Some(0), [], "")) }

  /** A block without a hash computes its own. */
  function Hashed(digest: Digest, w: Wire): Wire {
    if w.hash == "" then w.(hash := digest(w)) else w
  }

  predicate HasHash(chain: seq<Block>, hash: string) {
    exists k :: 0 <= k < |chain| && chain[k].wire.hash == hash
  }

  /** Whether a parsed block is appended. */
  predicate Accepts(digest: Digest, chain: seq<Block>, w: Wire) {
    && (w.index == 0 ==> w.hash == GenesisWire(digest).hash)
    && !HasHash(chain, w.hash)
    && w.index == |chain|
  }

  function Received(digest: Digest, chain: seq<Block>, m: Message): seq<Block> {
    if m.BlockData? && Accepts(digest, chain, Hashed(digest, m.wire))
    then chain + [Block(Hashed(digest, m.wire), UNSET)]
    else chain
  }

  function ReceivedAll(digest: Digest, chain: seq<Block>, ms: seq<Message>): seq<Block> {
    if ms == [] then chain else Received(digest, ReceivedAll(digest, chain, ms[..|ms| - 1]), ms[|ms| - 1])
  }

  /** Where the blocks after a digest start: right after its first occurrence, or at the beginning. */
  function StartAfter(chain: seq<Block>, hash: string, n: nat): (start: nat)
    requires n <= |chain|
    ensures start <= |chain|
    decreases |chain| - n
  {
    if n == |chain| then 0
    else if chain[n].wire.hash == hash then n + 1
    else StartAfter(chain, hash, n + 1)
  }

  function MessagesFrom(chain: seq<Block>, start: nat): (ms: seq<Message>)
    requires start <= |chain|
    ensures |ms| == |chain| - start && forall k :: 0 <= k < |ms| ==> ms[k] == BlockData(chain[start + k].wire)
  {
    seq(|chain| - start, k requires 0 <= k < |chain| - start => BlockData(chain[start + k].wire))
  }

  // ----- attestations

  function Count(votes: seq<Attestation>, opinion: Opinion): nat {
    if votes == [] then 0
    else Count(votes[..|votes| - 1], opinion) + (if votes[|votes| - 1].opinion == opinion then 1 else 0)
  }

  predicate Reaches(positive: nat, total: nat, threshold: real) {
    total != 0 && positive as real / total as real >= threshold
  }

  /** The positive share of the votes that take a side reaches the threshold. */
  predicate Attested(votes: seq<Attestation>, threshold: real) {
    Reaches(Count(votes, Positive), Count(votes, Positive) + Count(votes, Negative), threshold)
  }

  function Votes(attestations: map<string, seq<Attestation>>, hash: string): seq<Attestation> {
    if hash in attestations then attestations[hash] else []
  }

  predicate HasVoted(votes: seq<Attestation>, sender: string) {
    exists k :: 0 <= k < |votes| && votes[k].sender == sender
  }

  /** Every sender has one vote on a block, and votes stand under the hash they are for. */
  ghost predicate OneVoteEach(attestations: map<string, seq<Attestation>>) {
    forall hash :: hash in attestations ==>
      && (forall k :: 0 <= k < |attestations[hash]| ==> attestations[hash][k].blockHash == hash)
      && (forall j, k :: 0 <= j < k < |attestations[hash]| ==>
          attestations[hash][j].sender != attestations[hash][k].sender)
  }

  lemma CountOneMore(votes: seq<Attestation>, vote: Attestation, opinion: Opinion)
    ensures Count(votes + [vote], opinion) == Count(votes, opinion) + (if vote.opinion == opinion then 1 else 0)
  {
    assert (votes + [vote])[..|votes|] == votes;
  }

  function Share(threshold: real, total: nat): real { threshold * total as real }

  lemma ReachesIff(positive: nat, total: nat, threshold: real)
    ensures Reaches(positive, total, threshold) <==> total != 0 && positive as real >= Share(threshold, total)
  {
    if total != 0 {
      var share := positive as real / total as real;
      assert share * total as real == positive as real;
      assert (share - threshold) * total as real == positive as real - Share(threshold, total);
    }
  }

  lemma ShareStep(threshold: real, total: nat)
    requires 0.0 < threshold <= 1.0
    ensures 0.0 <= Share(threshold, total) <= Share(threshold, total + 1) <= Share(threshold, total) + 1.0
    ensures Share(threshold, 1) > 0.0
  {
  }

  lemma OneMoreVote(positive: nat, total: nat, threshold: real)
    requires positive <= total && 0.0 < threshold <= 1.0
    ensures Reaches(positive, total, threshold) ==> Reaches(positive + 1, total + 1, threshold)
    ensures Reaches(positive, total + 1, threshold) ==> Reaches(positive, total, threshold)
  {
    ReachesIff(positive, total, threshold);
    ReachesIff(positive + 1, total + 1, threshold);
    ReachesIff(positive, total + 1, threshold);
    ShareStep(threshold, total);
  }

  /** The votes of one opinion, by place. */
  ghost function Places(votes: seq<Attestation>, opinion: Opinion): set<nat> {
    set k: nat | k < |votes| && votes[k].opinion == opinion
  }

  lemma {:induction false} CountIsPlaces(votes: seq<Attestation>, opinion: Opinion)
    ensures Count(votes, opinion) == |Places(votes, opinion)|
  {
    if votes != [] {
      var last := |votes| - 1;
      CountIsPlaces(votes[..last], opinion);
      assert Places(votes, opinion)
             == Places(votes[..last], opinion) + (if votes[last].opinion == opinion then {last} else {});
    }
  }

  /**
    A block is attested exactly when somebody took a side and the positive votes, weighed with what the threshold
    leaves, are no fewer than the negative ones weighed with the threshold.
   */
  lemma AttestedIff(votes: seq<Attestation>, threshold: real)
    ensures Attested(votes, threshold)
            <==> && |Places(votes, Positive)| + |Places(votes, Negative)| > 0
                 && |Places(votes, Positive)| as real * (1.0 - threshold)
                    >= |Places(votes, Negative)| as real * threshold
  {
    CountIsPlaces(votes, Positive);
    CountIsPlaces(votes, Negative);
    var yes, no := Count(votes, Positive), Count(votes, Negative);
    ReachesIff(yes, yes + no, threshold);
    assert Share(threshold, yes + no) == yes as real * threshold + no as real * threshold;
    assert yes as real * (1.0 - threshold) == yes as real - yes as real * threshold;
  }

  /** So enough dissent always prevents a finalisation: at two thirds, more than half as many against as in favour. */
  lemma DissentPrevents(votes: seq<Attestation>, threshold: real)
    requires |Places(votes, Negative)| as real * threshold > |Places(votes, Positive)| as real * (1.0 - threshold)
    ensures !Attested(votes, threshold)
  {
    AttestedIff(votes, threshold);
  }

  /** Agreement never takes a finalisation back, dissent never brings one about, and other votes do not matter. */
  lemma VotesMoveTheirWay(votes: seq<Attestation>, vote: Attestation, threshold: real)
    requires 0.0 < threshold <= 1.0
    ensures vote.opinion.Positive? && Attested(votes, threshold) ==> Attested(votes + [vote], threshold)
    ensures vote.opinion.Negative? && Attested(votes + [vote], threshold) ==> Attested(votes, threshold)
    ensures vote.opinion.Unclear? ==> (Attested(votes, threshold) <==> Attested(votes + [vote], threshold))
  {
    CountOneMore(votes, vote, Positive);
    CountOneMore(votes, vote, Negative);
    OneMoreVote(Count(votes, Positive), Count(votes, Positive) + Count(votes, Negative), threshold);
  }

  class PogoConsensus {
    var chain: seq<Block>
    var attestations: map<string, seq<Attestation>>
    const digest: Digest
    const threshold: real

    constructor (digest: Digest, threshold: real)
      ensures this.digest == digest && this.threshold == threshold
      ensures chain == [Genesis(digest)] && attestations == map[]
    {
      this.digest, this.threshold, chain, attestations := digest, threshold, [Genesis(digest)], map[];
    }

    method AddAttestation(vote: Attestation) returns (ok: bool)
      modifies `attestations
      ensures ok <==> !HasVoted(Votes(old(attestations), vote.blockHash), vote.sender)
      ensures !ok <==> vote.blockHash in old(attestations)
                       && exists v :: v in old(attestations)[vote.blockHash] && v.sender == vote.sender
      ensures Votes(attestations, vote.blockHash)
              == Votes(old(attestations), vote.blockHash) + (if ok then [vote] else [])
      ensures forall hash :: hash != vote.blockHash ==> Votes(attestations, hash) == Votes(old(attestations), hash)
      ensures OneVoteEach(old(attestations)) ==> OneVoteEach(attestations)
    {
      if vote.blockHash !in attestations {
        attestations := attestations[vote.blockHash := []];
      }
      var votes := attestations[vote.blockHash];
      if HasVoted(votes, vote.sender) {
        return false;
      }
      attestations := attestations[vote.blockHash := votes + [vote]];
      ok := true;
    }

    /** Counts the two sides and compares the positive share with the threshold. */
    method CheckFinalization(hash: string) returns (attested: bool)
      ensures attested <==> Attested(Votes(attestations, hash), threshold)
    {
      var votes := Votes(attestations, hash);
      var positive, negative := 0, 0;
      for i := 0 to |votes|
        invariant positive == Count(votes[..i], Positive) && negative == Count(votes[..i], Negative)
      {
        assert votes[..i + 1] == votes[..i] + [votes[i]];
        CountOneMore(votes[..i], votes[i], Positive);
        CountOneMore(votes[..i], votes[i], Negative);
        if votes[i].opinion.Positive? {
          positive := positive + 1;
        } else if votes[i].opinion.Negative? {
          negative := negative + 1;
        }
      }
      assert votes[..|votes|] == votes;
      if positive + negative == 0 {
        return false;
      }
      attested := positive as real / (positive + negative) as real >= threshold;
    }

    method HasDigest(hash: string) returns (found: bool)
      ensures found <==> HasHash(chain, hash)
    {
      for i := 0 to |chain|
        invariant forall k :: 0 <= k < i ==> chain[k].wire.hash != hash
      {
        if chain[i].wire.hash == hash {
          return true;
        }
      }
      return false;
    }

    method AddMessage(m: Message)
      modifies `chain
      ensures chain == Received(digest, old(chain), m)
    {
      if !m.BlockData? {
        return;
      }
      var block := Block(Hashed(digest, m.wire), UNSET);
      if block.wire.index == 0 && block.wire.hash != GenesisWire(digest).hash {
        return;
      }
      if block.wire.index < |chain| {
        return;
      }
      var known := HasDigest(block.wire.hash);
      if known {
        return;
      }
      if block.wire.index == |chain| {
        chain := chain + [block];
      }
    }

    method GossipObject(hash: string) returns (messages: seq<Message>)
      ensures messages == MessagesFrom(chain, StartAfter(chain, hash, 0))
    {
      messages := [];
      var start, i := 0, 0;
      while i < |chain|
        invariant i <= |chain| && start == 0 && StartAfter(chain, hash, 0) == StartAfter(chain, hash, i)
      {
        if chain[i].wire.hash == hash {
          start := i + 1;
          break;
        }
        i := i + 1;
      }
      for k := start to |chain|
        invariant |messages| == k - start
        invariant forall j :: 0 <= j < |messages| ==> messages[j] == BlockData(chain[start + j].wire)
      {
        messages := messages + [BlockData(chain[k].wire)];
      }
    }

    /** The local path: a block that is next in line and has its attestations is appended as it is. */
    method FinalizeBlock(block: Block) returns (ok: bool)
      modifies `chain
      ensures ok <==> block.wire.index == |old(chain)| && Attested(Votes(attestations, block.wire.hash), threshold)
      ensures chain == if ok then old(chain) + [Finalized(block, |old(chain)|, Votes(attestations, block.wire.hash))]
                       else old(chain)
    {
      if block.wire.index != |chain| {
        return false;
      }
      var attested := CheckFinalization(block.wire.hash);
      if !attested {
        return false;
      }
      chain := chain + [Finalized(block, |chain|, Votes(attestations, block.wire.hash))];
      ok := true;
    }
  }

  function Finalized(block: Block, height: nat, attestations: seq<Attestation>): Block {
    block.(local := block.local.(finalizationBlock := Some(height), attestations := attestations))
  }
}
