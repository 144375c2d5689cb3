/**
  What gossip keeps, and when two nodes end up with the same chain.
 */
module GossipRuns {
  import opened Basics
  import opened Gossip

  /** A digest is never the empty text. */
  ghost predicate Hashing(digest: Digest) {
    forall w :: digest(w) != ""
  }

  /** Indexed by height, rooted in the canonical genesis, every block hashed and no hash twice. */
  ghost predicate WellFormed(digest: Digest, chain: seq<Block>) {
    && Indexed(digest, chain)
    && forall j, k :: 0 <= j < k < |chain| ==> chain[j].wire.hash != chain[k].wire.hash
  }

  ghost predicate Indexed(digest: Digest, chain: seq<Block>) {
    && chain != [] && chain[0] == Genesis(digest)
    && forall k :: 0 <= k < |chain| ==> chain[k].wire.index == k && chain[k].wire.hash != ""
  }

  // ----- what a message and a request come to

  /** A block is taken exactly when it is the next in height, its hash is new, and a first one is the genesis. */
  lemma ReceivedIff(digest: Digest, chain: seq<Block>, w: Wire)
    requires w.hash != ""
    ensures Received(digest, chain, BlockData(w)) == chain + [Block(w, UNSET)]
            <==> && w.index == |chain| && (forall k :: 0 <= k < |chain| ==> chain[k].wire.hash != w.hash)
                 && (|chain| == 0 ==> w.hash == digest(Wire(0, "genesis", "", "")))
    ensures Received(digest, chain, BlockData(w)) != chain + [Block(w, UNSET)] ==>
              Received(digest, chain, BlockData(w)) == chain
  {
    assert chain != chain + [Block(w, UNSET)];
  }

  /** A block that comes without its hash is given the digest of what came. */
  lemma HashedIs(digest: Digest, chain: seq<Block>, w: Wire)
    requires w.hash == ""
    ensures Received(digest, chain, BlockData(w)) == chain
            || Received(digest, chain, BlockData(w)) == chain + [Block(w.(hash := digest(w)), UNSET)]
  {
  }

  /** Only block data changes a chain. */
  lemma OthersAreIgnored(digest: Digest, chain: seq<Block>, m: Message)
    requires !m.BlockData?
    ensures Received(digest, chain, m) == chain
  {
  }

  /** A request that names block `k` first is answered with all after it; one that names none with all there are. */
  lemma AnswerIs(chain: seq<Block>, hash: string, k: nat)
    requires k <= |chain| && (k < |chain| ==> chain[k].wire.hash == hash)
    requires forall j :: 0 <= j < k ==> chain[j].wire.hash != hash
    ensures StartAfter(chain, hash, 0) == if k < |chain| then k + 1 else 0
  {
    AnswerFrom(chain, hash, k, 0);
  }

  lemma {:induction false} AnswerFrom(chain: seq<Block>, hash: string, k: nat, n: nat)
    requires n <= k <= |chain| && (k < |chain| ==> chain[k].wire.hash == hash)
    requires forall j :: n <= j < k ==> chain[j].wire.hash != hash
    ensures StartAfter(chain, hash, n) == if k < |chain| then k + 1 else 0
    decreases k - n
  {
    if n < k {
      AnswerFrom(chain, hash, k, n + 1);
    }
  }

  // ----- invariants of every run

  datatype Op = Receive(m: Message) | Finalize(block: Block, attestations: seq<Attestation>)

  function After(digest: Digest, chain: seq<Block>, op: Op): seq<Block> {
    match op
    case Receive(m) => Received(digest, chain, m)
    case Finalize(block, attestations) =>
      if block.wire.index == |chain| then chain + [Finalized(block, |chain|, attestations)] else chain
  }

  function AfterAll(digest: Digest, chain: seq<Block>, ops: seq<Op>): seq<Block> {
    if ops == [] then chain else After(digest, AfterAll(digest, chain, ops[..|ops| - 1]), ops[|ops| - 1])
  }

  /** Blocks a node finalises itself carry a hash. */
  ghost predicate OwnBlocksHashed(ops: seq<Op>) {
    forall k :: 0 <= k < |ops| && ops[k].Finalize? ==> ops[k].block.wire.hash != ""
  }

  lemma StepKeepsIndexed(digest: Digest, chain: seq<Block>, op: Op)
    requires Hashing(digest) && Indexed(digest, chain) && (op.Finalize? ==> op.block.wire.hash != "")
    ensures Indexed(digest, After(digest, chain, op)) && chain <= After(digest, chain, op)
  {
  }

  /** On any run, local finalisation included, heights stay indices, genesis stays first, and the chain only grows. */
  lemma {:induction false} RunsKeepIndexed(digest: Digest, start: seq<Block>, ops: seq<Op>)
    requires Hashing(digest) && Indexed(digest, start) && OwnBlocksHashed(ops)
    ensures Indexed(digest, AfterAll(digest, start, ops)) && start <= AfterAll(digest, start, ops)
  {
    if ops != [] {
      RunsKeepIndexed(digest, start, ops[..|ops| - 1]);
      StepKeepsIndexed(digest, AfterAll(digest, start, ops[..|ops| - 1]), ops[|ops| - 1]);
    }
  }

  lemma StartIsWellFormed(digest: Digest)
    requires Hashing(digest)
    ensures WellFormed(digest, [Genesis(digest)])
  {
  }

  /** On every run the first block stays the one hashed from fixed data alone, final at height 0 and without votes. */
  lemma GenesisStaysFinal(digest: Digest, ops: seq<Op>)
    requires Hashing(digest) && OwnBlocksHashed(ops)
    ensures var chain := AfterAll(digest, [Genesis(digest)], ops);
            && chain != [] && chain[0].wire == Wire(0, "genesis", digest(Wire(0, "genesis", "", "")), "")
            && chain[0].local == Local(Some(0), [], "")
  {
    StartIsWellFormed(digest);
    RunsKeepIndexed(digest, [Genesis(digest)], ops);
  }

  /** Hashes stay distinct exactly when the block, if finalised locally, brings a new one. */
  lemma StaysWellFormedIff(digest: Digest, chain: seq<Block>, op: Op)
    requires Hashing(digest) && WellFormed(digest, chain) && (op.Finalize? ==> op.block.wire.hash != "")
    ensures WellFormed(digest, After(digest, chain, op))
            <==> !(op.Finalize? && op.block.wire.index == |chain| && HasHash(chain, op.block.wire.hash))
  {
    StepKeepsIndexed(digest, chain, op);
    var after := After(digest, chain, op);
    if op.Finalize? && op.block.wire.index == |chain| && HasHash(chain, op.block.wire.hash) {
      var k :| 0 <= k < |chain| && chain[k].wire.hash == op.block.wire.hash;
      assert after[k].wire.hash == after[|chain|].wire.hash;
    } else if |after| > |chain| {
      assert forall k :: 0 <= k < |chain| ==> after[k] == chain[k] && chain[k].wire.hash != after[|chain|].wire.hash;
    }
  }

  /** Messages alone keep everything. */
  lemma {:induction false} GossipKeepsWellFormed(digest: Digest, chain: seq<Block>, ms: seq<Message>)
    requires Hashing(digest) && WellFormed(digest, chain)
    ensures WellFormed(digest, ReceivedAll(digest, chain, ms)) && chain <= ReceivedAll(digest, chain, ms)
  {
    if ms != [] {
      var before := ReceivedAll(digest, chain, ms[..|ms| - 1]);
      GossipKeepsWellFormed(digest, chain, ms[..|ms| - 1]);
      StaysWellFormedIff(digest, before, Receive(ms[|ms| - 1]));
      StepKeepsIndexed(digest, before, Receive(ms[|ms| - 1]));
    }
  }

  // ----- following an honest sender

  /** The receiver's chain is a prefix of the sender's on everything transmitted. */
  ghost predicate Follows(receiver: seq<Block>, sender: seq<Block>) {
    |receiver| <= |sender| && forall k :: 0 <= k < |receiver| ==> receiver[k].wire == sender[k].wire
  }

  ghost predicate SendersBlocks(sender: seq<Block>, ms: seq<Message>) {
    forall k :: 0 <= k < |ms| ==> exists i :: 0 <= i < |sender| && ms[k] == BlockData(sender[i].wire)
  }

  /** One of the sender's blocks is appended exactly when it is the next one. */
  lemma ReceiveFollows(digest: Digest, receiver: seq<Block>, sender: seq<Block>, i: nat)
    requires WellFormed(digest, sender) && Follows(receiver, sender) && receiver != [] && i < |sender|
    ensures var after := Received(digest, receiver, BlockData(sender[i].wire));
            && Follows(after, sender) && |after| == if i == |receiver| then |receiver| + 1 else |receiver|
  {
    if i == |receiver| {
      assert forall k :: 0 <= k < |receiver| ==> receiver[k].wire.hash != sender[i].wire.hash;
    }
  }

  /** Whatever of the sender's blocks arrive, in any order and any number of times, the receiver stays a prefix. */
  lemma {:induction false} PrefixIsKept(digest: Digest, receiver: seq<Block>, sender: seq<Block>, ms: seq<Message>)
    requires WellFormed(digest, sender) && Follows(receiver, sender) && receiver != [] && SendersBlocks(sender, ms)
    ensures var after := ReceivedAll(digest, receiver, ms);
            Follows(after, sender) && |receiver| <= |after|
  {
    if ms != [] {
      PrefixIsKept(digest, receiver, sender, ms[..|ms| - 1]);
      var i :| 0 <= i < |sender| && ms[|ms| - 1] == BlockData(sender[i].wire);
      ReceiveFollows(digest, ReceivedAll(digest, receiver, ms[..|ms| - 1]), sender, i);
    }
  }

  // ----- catching up

  lemma {:induction false} TipStart(chain: seq<Block>, hash: string, k: nat, n: nat)
    requires n <= k < |chain| && chain[k].wire.hash == hash
    requires forall j :: n <= j < k ==> chain[j].wire.hash != hash
    ensures StartAfter(chain, hash, n) == k + 1
    decreases k - n
  {
    if n < k {
      TipStart(chain, hash, k, n + 1);
    }
  }

  /** Delivering the first `n` of the blocks from the receiver's height on, in order. */
  lemma {:induction false} InOrderDelivery(digest: Digest, receiver: seq<Block>, sender: seq<Block>, ms: seq<Message>,
                                           n: nat)
    requires WellFormed(digest, sender) && Follows(receiver, sender) && receiver != []
    requires ms == MessagesFrom(sender, |receiver|) && n <= |ms|
    ensures var after := ReceivedAll(digest, receiver, ms[..n]);
            Follows(after, sender) && |after| == |receiver| + n
  {
    if n > 0 {
      InOrderDelivery(digest, receiver, sender, ms, n - 1);
      assert ms[..n][..n - 1] == ms[..n - 1];
      ReceiveFollows(digest, ReceivedAll(digest, receiver, ms[..n - 1]), sender, |receiver| + n - 1);
    }
  }

  /** The answer to the receiver's tip, delivered in order, makes the chains equal on everything transmitted. */
  lemma AnswerSynchronises(digest: Digest, receiver: seq<Block>, sender: seq<Block>)
    requires WellFormed(digest, sender) && Follows(receiver, sender) && receiver != []
    ensures var tip := receiver[|receiver| - 1].wire.hash;
            var after := ReceivedAll(digest, receiver, MessagesFrom(sender, StartAfter(sender, tip, 0)));
            |after| == |sender| && forall k :: 0 <= k < |sender| ==> after[k].wire == sender[k].wire
  {
    var tip := receiver[|receiver| - 1].wire.hash;
    TipStart(sender, tip, |receiver| - 1, 0);
    var ms := MessagesFrom(sender, |receiver|);
    InOrderDelivery(digest, receiver, sender, ms, |ms|);
    assert ms[..|ms|] == ms;
  }

  // ----- catching up without any order

  /** The height the receiver reaches when blocks of these heights arrive one after the other. */
  function Reach(height: nat, arrivals: seq<nat>): (reached: nat)
    ensures height <= reached <= height + |arrivals|
  {
    if arrivals == [] then height
    else
      var before := Reach(height, arrivals[..|arrivals| - 1]);
      if arrivals[|arrivals| - 1] == before then before + 1 else before
  }

  ghost predicate Carries(sender: seq<Block>, ms: seq<Message>, arrivals: seq<nat>) {
    |ms| == |arrivals|
    && forall k :: 0 <= k < |ms| ==> arrivals[k] < |sender| && ms[k] == BlockData(sender[arrivals[k]].wire)
  }

  /** What a receiver ends up with depends on the order of arrival only through the height it reaches. */
  lemma {:induction false} ArrivalsDecideHeight(digest: Digest, receiver: seq<Block>, sender: seq<Block>,
                                                ms: seq<Message>, arrivals: seq<nat>)
    requires WellFormed(digest, sender) && Follows(receiver, sender) && receiver != [] && Carries(sender, ms, arrivals)
    ensures var after := ReceivedAll(digest, receiver, ms);
            Follows(after, sender) && |after| == Reach(|receiver|, arrivals)
  {
    if ms != [] {
      var last := |ms| - 1;
      ArrivalsDecideHeight(digest, receiver, sender, ms[..last], arrivals[..last]);
      ReceiveFollows(digest, ReceivedAll(digest, receiver, ms[..last]), sender, arrivals[last]);
    }
  }

  /** A batch that holds the next block moves the receiver on, whatever else it holds and in whatever order. */
  lemma {:induction false} BatchMovesOn(height: nat, arrivals: seq<nat>)
    requires height in arrivals
    ensures Reach(height, arrivals) > height
  {
    var last := |arrivals| - 1;
    if height in arrivals[..last] {
      BatchMovesOn(height, arrivals[..last]);
    } else {
      NotYet(height, arrivals[..last]);
    }
  }

  lemma {:induction false} NotYet(height: nat, arrivals: seq<nat>)
    requires height !in arrivals
    ensures Reach(height, arrivals) == height
  {
    if arrivals != [] {
      NotYet(height, arrivals[..|arrivals| - 1]);
      assert arrivals[|arrivals| - 1] in arrivals;
    }
  }

  function Flatten(batches: seq<seq<nat>>): seq<nat> {
    if batches == [] then [] else Flatten(batches[..|batches| - 1]) + batches[|batches| - 1]
  }

  lemma {:induction false} ReachAppend(height: nat, a: seq<nat>, b: seq<nat>)
    ensures Reach(height, a + b) == Reach(Reach(height, a), b)
  {
    if b == [] {
      assert a + b == a;
    } else {
      ReachAppend(height, a, b[..|b| - 1]);
      assert (a + b)[..|a + b| - 1] == a + b[..|b| - 1];
    }
  }

  /** A batch of all heights below `length`, in any order and with any repetition. */
  ghost predicate Whole(batch: seq<nat>, length: nat) {
    (forall h: nat :: h < length ==> h in batch) && forall k :: 0 <= k < |batch| ==> batch[k] < length
  }

  lemma {:induction false} ReachStaysBelow(height: nat, arrivals: seq<nat>, length: nat)
    requires height <= length && forall k :: 0 <= k < |arrivals| ==> arrivals[k] < length
    ensures Reach(height, arrivals) <= length
  {
    if arrivals != [] {
      ReachStaysBelow(height, arrivals[..|arrivals| - 1], length);
    }
  }

  lemma {:induction false} RepeatedBatchesReach(height: nat, batches: seq<seq<nat>>, length: nat)
    requires height <= length && forall k :: 0 <= k < |batches| ==> Whole(batches[k], length)
    ensures Reach(height, Flatten(batches)) <= length
    ensures Reach(height, Flatten(batches)) >= height + |batches| || Reach(height, Flatten(batches)) == length
  {
    if batches != [] {
      var last := |batches| - 1;
      RepeatedBatchesReach(height, batches[..last], length);
      var before := Reach(height, Flatten(batches[..last]));
      ReachAppend(height, Flatten(batches[..last]), batches[last]);
      ReachStaysBelow(before, batches[last], length);
      if before < length {
        BatchMovesOn(before, batches[last]);
      }
    }
  }

  /**
    Sending all blocks over and over, shuffled anew each time, makes the chains equal on everything
    transmitted within as many rounds as the receiver lacks blocks.
   */
  lemma ShuffledRoundsSynchronise(digest: Digest, receiver: seq<Block>, sender: seq<Block>,
                                  ms: seq<Message>, rounds: seq<seq<nat>>)
    requires WellFormed(digest, sender) && Follows(receiver, sender) && receiver != []
    requires Carries(sender, ms, Flatten(rounds)) && |rounds| >= |sender| - |receiver|
    requires forall k :: 0 <= k < |rounds| ==> Whole(rounds[k], |sender|)
    ensures var after := ReceivedAll(digest, receiver, ms);
            |after| == |sender| && forall k :: 0 <= k < |sender| ==> after[k].wire == sender[k].wire
  {
    ArrivalsDecideHeight(digest, receiver, sender, ms, Flatten(rounds));
    RepeatedBatchesReach(|receiver|, rounds, |sender|);
  }

  /** Diverged chains never meet: what a receiver holds stays, whatever arrives. */
  lemma DivergenceIsPermanent(digest: Digest, receiver: seq<Block>, sender: seq<Block>, ms: seq<Message>, k: nat)
    requires Hashing(digest) && WellFormed(digest, receiver) && k < |receiver| && k < |sender|
             && receiver[k].wire != sender[k].wire
    ensures !Follows(ReceivedAll(digest, receiver, ms), sender)
  {
    GossipKeepsWellFormed(digest, receiver, ms);
    assert ReceivedAll(digest, receiver, ms)[k] == receiver[k];
  }
}
