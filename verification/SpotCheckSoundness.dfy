/** What a passed spot check proves about the miner, and how often a cheat escapes it. */
module SpotCheckSoundness {
  import opened Basics
  import opened ListCounting
  import opened SpotCheck

  // ----- the honest run

  /** The state after `i` replayed steps from `start`. */
  function RunState(replay: Replay, start: Bytes, i: nat): Bytes {
    if i == 0 then start else replay(i, RunState(replay, start, i - 1)).stateAfter
  }

  /** What replaying step `i + 1` of the run from `start` yields. */
  function RunOutcome(replay: Replay, start: Bytes, i: nat): Outcome {
    replay(i + 1, RunState(replay, start, i))
  }

  function RunGrads(replay: Replay, start: Bytes, n: nat): (grads: seq<Bytes>)
    ensures |grads| == n
  {
    seq(n, i requires 0 <= i < n => RunOutcome(replay, start, i).grad)
  }

  /** The states whose hashes the verifier compares. */
  ghost function ComparedStates(v: Verifier, w: Witness, n: nat): set<Bytes>
    requires |w.stateBefore| == n > 0
  {
    (set s | s in w.stateBefore) + (set i | 0 <= i <= n :: RunState(v.replay, w.stateBefore[0], i))
  }

  /** How far a norm may be from the published one: a share of it, or of one when it is smaller. */
  function Leeway(tolerance: real, claimed: real): real {
    if claimed > 1.0 then tolerance * claimed else tolerance
  }

  /** The true norm lies around the published one, on either side. */
  predicate NormWithin(tolerance: real, claimed: real, norm: real) {
    claimed - Leeway(tolerance, claimed) <= norm <= claimed + Leeway(tolerance, claimed)
  }

  lemma NormAgreesIff(v: Verifier, norm: real, claimed: real)
    ensures NormAgrees(v, norm, claimed) <==> NormWithin(v.tolerance, claimed, norm)
  {
  }

  /** The published trace and the witness are those of the true run from the first witnessed state. */
  ghost predicate Honest(v: Verifier, t: Trace, w: Witness)
    requires Indexable(t) && WitnessFits(t, w) && t.numSteps > 0
  {
    var n, start := t.numSteps, w.stateBefore[0];
    && v.stateHash(start) == t.state0Hash
    && (forall i :: 0 <= i < n ==> w.stateBefore[i] == RunState(v.replay, start, i))
    && v.stateHash(RunState(v.replay, start, n)) == t.stateNHash
    && t.gradientHashChain == GradChain(v.sha, RunGrads(v.replay, start, n))
    && (forall i :: 0 <= i < n ==> v.sha(w.grad[i]) == v.sha(RunOutcome(v.replay, start, i).grad))
    && (forall i :: 0 <= i < n ==> NormWithin(v.tolerance, t.gradientNorms[i], RunOutcome(v.replay, start, i).norm))
  }

  ghost predicate Covers(challenges: seq<int>, n: int) {
    forall j :: 1 <= j <= n ==> j in challenges
  }

  // ----- the hash chain

  /** Entry by entry, a chain is its recurrence. */
  ghost predicate Chained(sha: Hash, prev: Bytes, grads: seq<Bytes>, chain: seq<Bytes>) {
    |chain| == |grads|
    && forall i :: 0 <= i < |grads| ==> chain[i] == ChainStep(sha, Prev(prev, chain, i), grads[i])
  }

  lemma {:induction false} ChainIsItsRecurrence(sha: Hash, prev: Bytes, grads: seq<Bytes>, chain: seq<Bytes>)
    ensures Chained(sha, prev, grads, chain) <==> chain == ChainFrom(sha, prev, grads)
    decreases grads
  {
    if grads != [] && chain != [] {
      var first := ChainStep(sha, prev, grads[0]);
      var gs, cs := grads[1..], chain[1..];
      ChainIsItsRecurrence(sha, first, gs, cs);
      assert chain == [chain[0]] + cs;
      if |chain| == |grads| && chain[0] == first {
        ChainedTail(sha, prev, grads, chain);
      }
      var whole := ChainFrom(sha, prev, grads);
      assert whole[0] == first && whole[1..] == ChainFrom(sha, first, gs);
      assert chain[0] == first && cs == whole[1..] ==> chain == whole;
    }
  }

  /** A gradient chain starts from 32 zero bytes; every digest hashes domain, predecessor and gradient hash. */
  lemma GradChainIff(sha: Hash, grads: seq<Bytes>, chain: seq<Bytes>)
    ensures chain == GradChain(sha, grads)
            <==> && |chain| == |grads|
                 && (chain != [] ==> chain[0] == sha("DESSIN/spot-check/grad-chain/v1" + Zeros() + sha(grads[0])))
                 && forall i :: 1 <= i < |chain| ==>
                      chain[i] == sha("DESSIN/spot-check/grad-chain/v1" + chain[i - 1] + sha(grads[i]))
    ensures |Zeros()| == 32 && forall i :: 0 <= i < 32 ==> Zeros()[i] as int == 0
  {
    ChainIsItsRecurrence(sha, Zeros(), grads, chain);
    assert forall i :: 1 <= i < |chain| ==> Prev(Zeros(), chain, i) == chain[i - 1];
  }

  /** Structure is accepted exactly when all counts, both anchors and all lengths of digests are right. */
  lemma StructureIff(t: Trace, expectedSteps: int, prevHash: Bytes, claimedEnd: Bytes)
    ensures (forall f :: !Violates(t, expectedSteps, prevHash, claimedEnd, f))
            <==> && t.numSteps == expectedSteps == |t.gradientHashChain| == |t.gradientNorms|
                 && |t.lossCurve| == expectedSteps + 1
                 && t.state0Hash == prevHash && t.stateNHash == claimedEnd && |prevHash| == |claimedEnd| == 32
                 && forall i :: 0 <= i < |t.gradientHashChain| ==> |t.gradientHashChain[i]| == 32
  {
    var digests := [t.state0Hash, t.stateNHash] + t.gradientHashChain;
    assert digests[0] == t.state0Hash && digests[1] == t.stateNHash;
    assert forall i :: 0 <= i < |t.gradientHashChain| ==> digests[i + 2] == t.gradientHashChain[i];
    if forall f :: !Violates(t, expectedSteps, prevHash, claimedEnd, f) {
      assert !Violates(t, expectedSteps, prevHash, claimedEnd, NumSteps);
      assert !Violates(t, expectedSteps, prevHash, claimedEnd, LossCurveLength);
      assert !Violates(t, expectedSteps, prevHash, claimedEnd, ChainLength);
      assert !Violates(t, expectedSteps, prevHash, claimedEnd, NormsLength);
      assert !Violates(t, expectedSteps, prevHash, claimedEnd, StartAnchor);
      assert !Violates(t, expectedSteps, prevHash, claimedEnd, EndClaim);
      assert !Violates(t, expectedSteps, prevHash, claimedEnd, MalformedDigest);
    }
  }

  /** A challenged step passes exactly when anchor, gradient, chain entry, norm and the state it ends in are right. */
  lemma StepPassesIff(v: Verifier, t: Trace, w: Witness, j: int, pre: Bytes, prev: Bytes, next: Bytes)
    requires WitnessFits(t, w) && Indexable(t)
    requires 1 <= j <= t.numSteps ==> pre == w.stateBefore[j - 1]
    requires 1 < j <= t.numSteps ==> prev == t.gradientHashChain[j - 2]
    requires j == 1 ==> prev == Zeros()
    requires next == if 1 <= j < t.numSteps then v.stateHash(w.stateBefore[j]) else t.stateNHash
    ensures StepFailure(v, t, w, j).None?
            <==> && 1 <= j <= t.numSteps && (j == 1 ==> v.stateHash(pre) == t.state0Hash)
                 && var o, claimed := v.replay(j, pre), t.gradientNorms[j - 1];
                    && v.sha(o.grad) == v.sha(w.grad[j - 1])
                    && (v.recomputeChain ==>
                          t.gradientHashChain[j - 1]
                          == v.sha("DESSIN/spot-check/grad-chain/v1" + prev + v.sha(o.grad)))
                    && NormWithin(v.tolerance, claimed, o.norm)
                    && v.stateHash(o.stateAfter) == next
  {
    if 1 <= j <= t.numSteps {
      NormAgreesIff(v, v.replay(j, pre).norm, t.gradientNorms[j - 1]);
    }
  }

  /** A published list is overrun exactly at a step whose anchor and gradient are right but which it does not reach. */
  lemma RunsOffIff(v: Verifier, t: Trace, w: Witness, j: int, pre: Bytes, prev: Bytes)
    requires WitnessFits(t, w)
    requires 1 <= j <= t.numSteps ==> pre == w.stateBefore[j - 1]
    requires 1 < j <= t.numSteps && j - 2 < |t.gradientHashChain| ==> prev == t.gradientHashChain[j - 2]
    requires j == 1 ==> prev == Zeros()
    ensures RunsOff(v, t, w, j)
            <==> && 1 <= j <= t.numSteps && (j == 1 ==> v.stateHash(pre) == t.state0Hash)
                 && var grad := v.replay(j, pre).grad;
                    && v.sha(grad) == v.sha(w.grad[j - 1])
                    && if v.recomputeChain && |t.gradientHashChain| < j then true
                       else
                         && (v.recomputeChain ==>
                               t.gradientHashChain[j - 1]
                               == v.sha("DESSIN/spot-check/grad-chain/v1" + prev + v.sha(grad)))
                         && |t.gradientNorms| < j
  {
  }

  lemma ChainedTail(sha: Hash, prev: Bytes, grads: seq<Bytes>, chain: seq<Bytes>)
    requires |chain| == |grads| > 0 && chain[0] == ChainStep(sha, prev, grads[0])
    ensures Chained(sha, prev, grads, chain) <==> Chained(sha, chain[0], grads[1..], chain[1..])
  {
    var gs, cs := grads[1..], chain[1..];
    forall i | 0 < i < |grads|
      ensures chain[i] == ChainStep(sha, Prev(prev, chain, i), grads[i])
              <==> cs[i - 1] == ChainStep(sha, Prev(chain[0], cs, i - 1), gs[i - 1])
    {
      assert Prev(prev, chain, i) == Prev(chain[0], cs, i - 1);
    }
    if Chained(sha, prev, grads, chain) {
      forall k | 0 <= k < |gs| ensures cs[k] == ChainStep(sha, Prev(chain[0], cs, k), gs[k]) {
        assert chain[k + 1] == ChainStep(sha, Prev(prev, chain, k + 1), grads[k + 1]);
      }
    }
    if Chained(sha, chain[0], gs, cs) {
      forall i | 0 <= i < |grads| ensures chain[i] == ChainStep(sha, Prev(prev, chain, i), grads[i]) {
        assert i > 0 ==> cs[i - 1] == ChainStep(sha, Prev(chain[0], cs, i - 1), gs[i - 1]);
      }
    }
  }

  /** Everything SHA-256 is applied to while a chain is computed. */
  ghost function ChainInputs(sha: Hash, prev: Bytes, grads: seq<Bytes>): set<Bytes>
    decreases grads
  {
    if grads == [] then {}
    else
      {grads[0], GRAD_CHAIN_DOMAIN + prev + sha(grads[0])}
      + ChainInputs(sha, ChainStep(sha, prev, grads[0]), grads[1..])
  }

  /** The last digest alone binds the whole gradient list. */
  lemma {:induction false} ChainBindsGradients(sha: Hash, p: Bytes, a: seq<Bytes>, q: Bytes, b: seq<Bytes>)
    requires |a| == |b| > 0 && |p| == |q|
    requires forall x :: |sha(x)| == DIGEST_LENGTH
    requires CollisionFree(sha, ChainInputs(sha, p, a) + ChainInputs(sha, q, b))
    requires ChainFrom(sha, p, a)[|a| - 1] == ChainFrom(sha, q, b)[|b| - 1]
    ensures a == b && p == q
    decreases a
  {
    var c, d := ChainStep(sha, p, a[0]), ChainStep(sha, q, b[0]);
    if |a| > 1 {
      ChainBindsGradients(sha, c, a[1..], d, b[1..]);
    }
    assert c == d;
    assert GRAD_CHAIN_DOMAIN + p + sha(a[0]) == GRAD_CHAIN_DOMAIN + q + sha(b[0]);
    SamePieces(GRAD_CHAIN_DOMAIN, p, sha(a[0]), q, sha(b[0]));
    assert a == [a[0]] + a[1..] && b == [b[0]] + b[1..];
  }

  lemma SamePieces(d: Bytes, p: Bytes, x: Bytes, q: Bytes, y: Bytes)
    requires |p| == |q| && d + p + x == d + q + y
    ensures p == q && x == y
  {
    var l, r := d + p + x, d + q + y;
    assert p == l[|d|..|d| + |p|] && q == r[|d|..|d| + |q|];
    assert x == l[|d| + |p|..] && y == r[|d| + |q|..];
  }

  // ----- soundness and completeness of the replay

  /** If every step was challenged and none complained, the witnessed states are the true run. */
  lemma {:induction false} StatesAreTheRun(v: Verifier, t: Trace, w: Witness, challenges: seq<int>, i: nat)
    requires Indexable(t) && Passes(v, t, w, challenges) && Covers(challenges, t.numSteps) && i < t.numSteps
    requires CollisionFree(v.stateHash, ComparedStates(v, w, t.numSteps))
    ensures w.stateBefore[i] == RunState(v.replay, w.stateBefore[0], i)
  {
    if i > 0 {
      StatesAreTheRun(v, t, w, challenges, i - 1);
      assert StepFailure(v, t, w, i).None?;
      var after := RunState(v.replay, w.stateBefore[0], i);
      assert after == v.replay(i, w.stateBefore[i - 1]).stateAfter;
      assert v.stateHash(after) == v.stateHash(w.stateBefore[i]);
      assert w.stateBefore[i] in ComparedStates(v, w, t.numSteps);
      assert after in ComparedStates(v, w, t.numSteps);
    }
  }

  /**
    Soundness and completeness at once: when all steps are challenged, the replay accepts exactly the
    honest traces.
   */
  lemma FullReplayAcceptsExactlyHonestRuns(v: Verifier, t: Trace, w: Witness, challenges: seq<int>)
    requires Indexable(t) && WitnessFits(t, w) && t.numSteps > 0 && v.recomputeChain
    requires Covers(challenges, t.numSteps) && forall j :: j in challenges ==> 1 <= j <= t.numSteps
    requires CollisionFree(v.stateHash, ComparedStates(v, w, t.numSteps))
    ensures Passes(v, t, w, challenges) <==> Honest(v, t, w)
  {
    if Passes(v, t, w, challenges) {
      PassedMeansHonest(v, t, w, challenges);
    }
    if Honest(v, t, w) {
      HonestRunsPass(v, t, w, challenges);
    }
  }

  /** What an accepted step says about the run, once its state is known to be that of the run. */
  lemma AcceptedStep(v: Verifier, t: Trace, w: Witness, start: Bytes, i: nat)
    requires Indexable(t) && WitnessFits(t, w) && i < t.numSteps && v.recomputeChain
    requires StepFailure(v, t, w, i + 1).None? && w.stateBefore[i] == RunState(v.replay, start, i)
    ensures var o := RunOutcome(v.replay, start, i);
            && t.gradientHashChain[i] == ChainStep(v.sha, Prev(Zeros(), t.gradientHashChain, i), o.grad)
            && v.sha(w.grad[i]) == v.sha(o.grad) && NormWithin(v.tolerance, t.gradientNorms[i], o.norm)
  {
    NormAgreesIff(v, RunOutcome(v.replay, start, i).norm, t.gradientNorms[i]);
  }

  /** The ends of an accepted run are the published ones. */
  lemma AcceptedEnds(v: Verifier, t: Trace, w: Witness)
    requires Indexable(t) && WitnessFits(t, w) && t.numSteps > 0
    requires StepFailure(v, t, w, 1).None? && StepFailure(v, t, w, t.numSteps).None?
    requires w.stateBefore[t.numSteps - 1] == RunState(v.replay, w.stateBefore[0], t.numSteps - 1)
    ensures v.stateHash(w.stateBefore[0]) == t.state0Hash
    ensures v.stateHash(RunState(v.replay, w.stateBefore[0], t.numSteps)) == t.stateNHash
  {
  }

  lemma PassedMeansHonest(v: Verifier, t: Trace, w: Witness, challenges: seq<int>)
    requires Indexable(t) && Passes(v, t, w, challenges) && t.numSteps > 0 && v.recomputeChain
    requires Covers(challenges, t.numSteps)
    requires CollisionFree(v.stateHash, ComparedStates(v, w, t.numSteps))
    ensures Honest(v, t, w)
  {
    var n, start := t.numSteps, w.stateBefore[0];
    var grads := RunGrads(v.replay, start, n);
    forall i | 0 <= i < n
      ensures w.stateBefore[i] == RunState(v.replay, start, i)
      ensures t.gradientHashChain[i] == ChainStep(v.sha, Prev(Zeros(), t.gradientHashChain, i), grads[i])
      ensures v.sha(w.grad[i]) == v.sha(RunOutcome(v.replay, start, i).grad)
      ensures NormWithin(v.tolerance, t.gradientNorms[i], RunOutcome(v.replay, start, i).norm)
    {
      StatesAreTheRun(v, t, w, challenges, i);
      AcceptedStep(v, t, w, start, i);
    }
    AcceptedEnds(v, t, w);
    ChainIsItsRecurrence(v.sha, Zeros(), grads, t.gradientHashChain);
  }

  /** A step that is as the run has it is accepted. */
  lemma TrueStepPasses(v: Verifier, t: Trace, w: Witness, start: Bytes, i: nat)
    requires Indexable(t) && WitnessFits(t, w) && i < t.numSteps && w.stateBefore[i] == RunState(v.replay, start, i)
    requires i == 0 ==> v.stateHash(start) == t.state0Hash
    requires var after := v.stateHash(RunState(v.replay, start, i + 1));
             after == if i + 1 < t.numSteps then v.stateHash(w.stateBefore[i + 1]) else t.stateNHash
    requires var o := RunOutcome(v.replay, start, i);
             && t.gradientHashChain[i] == ChainStep(v.sha, Prev(Zeros(), t.gradientHashChain, i), o.grad)
             && v.sha(w.grad[i]) == v.sha(o.grad) && NormWithin(v.tolerance, t.gradientNorms[i], o.norm)
    ensures StepFailure(v, t, w, i + 1).None?
  {
    NormAgreesIff(v, RunOutcome(v.replay, start, i).norm, t.gradientNorms[i]);
  }

  lemma HonestStepPasses(v: Verifier, t: Trace, w: Witness, i: nat)
    requires Indexable(t) && WitnessFits(t, w) && i < t.numSteps && Honest(v, t, w)
    ensures StepFailure(v, t, w, i + 1).None?
  {
    var start := w.stateBefore[0];
    var grads := RunGrads(v.replay, start, t.numSteps);
    ChainIsItsRecurrence(v.sha, Zeros(), grads, t.gradientHashChain);
    assert grads[i] == RunOutcome(v.replay, start, i).grad;
    TrueStepPasses(v, t, w, start, i);
  }

  /** Completeness needs nothing from the hashes: an honest trace passes any challenge of real steps. */
  lemma HonestRunsPass(v: Verifier, t: Trace, w: Witness, challenges: seq<int>)
    requires Indexable(t) && WitnessFits(t, w) && t.numSteps > 0 && Honest(v, t, w)
    requires forall j :: j in challenges ==> 1 <= j <= t.numSteps
    ensures Passes(v, t, w, challenges)
  {
    forall j | j in challenges ensures StepFailure(v, t, w, j).None? {
      HonestStepPasses(v, t, w, j - 1);
    }
  }

  /** The published chain is the chain of the true gradients and of no other list of that length. */
  lemma PublishedChainBindsTrueGradients(v: Verifier, t: Trace, w: Witness, challenges: seq<int>, other: seq<Bytes>)
    requires Indexable(t) && Passes(v, t, w, challenges) && t.numSteps > 0 && v.recomputeChain
    requires Covers(challenges, t.numSteps)
    requires CollisionFree(v.stateHash, ComparedStates(v, w, t.numSteps))
    requires forall x :: |v.sha(x)| == DIGEST_LENGTH
    requires |other| == t.numSteps && GradChain(v.sha, other) == t.gradientHashChain
    requires var grads := RunGrads(v.replay, w.stateBefore[0], t.numSteps);
             CollisionFree(v.sha, ChainInputs(v.sha, Zeros(), other) + ChainInputs(v.sha, Zeros(), grads))
    ensures other == RunGrads(v.replay, w.stateBefore[0], t.numSteps)
  {
    PassedMeansHonest(v, t, w, challenges);
    var grads := RunGrads(v.replay, w.stateBefore[0], t.numSteps);
    ChainIsItsRecurrence(v.sha, Zeros(), other, t.gradientHashChain);
    ChainBindsGradients(v.sha, Zeros(), other, Zeros(), grads);
  }

  // ----- what an accepted replay says about the published norms

  /** After a covering replay every true norm is within the tolerance of the published one; with none they are equal. */
  lemma AcceptedNorms(v: Verifier, t: Trace, w: Witness, challenges: seq<int>, i: nat)
    requires Indexable(t) && Passes(v, t, w, challenges) && t.numSteps > 0 && v.recomputeChain
    requires Covers(challenges, t.numSteps) && i < t.numSteps
    requires CollisionFree(v.stateHash, ComparedStates(v, w, t.numSteps))
    ensures var norm, claimed := RunOutcome(v.replay, w.stateBefore[0], i).norm, t.gradientNorms[i];
            && (claimed >= 1.0 ==> claimed * (1.0 - v.tolerance) <= norm <= claimed * (1.0 + v.tolerance))
            && (claimed < 1.0 ==> claimed - v.tolerance <= norm <= claimed + v.tolerance)
            && (v.tolerance == 0.0 ==> norm == claimed)
  {
    PassedMeansHonest(v, t, w, challenges);
    var norm, claimed := RunOutcome(v.replay, w.stateBefore[0], i).norm, t.gradientNorms[i];
    assert NormWithin(v.tolerance, claimed, norm);
    IntervalOf(v.tolerance, claimed, norm);
  }

  lemma IntervalOf(tolerance: real, claimed: real, norm: real)
    ensures claimed >= 1.0 ==>
              (NormWithin(tolerance, claimed, norm)
               <==> claimed * (1.0 - tolerance) <= norm <= claimed * (1.0 + tolerance))
    ensures claimed < 1.0 ==>
              (NormWithin(tolerance, claimed, norm) <==> claimed - tolerance <= norm <= claimed + tolerance)
    ensures tolerance == 0.0 ==> (NormWithin(tolerance, claimed, norm) <==> norm == claimed)
  {
    assert claimed * (1.0 - tolerance) == claimed - tolerance * claimed;
    assert claimed * (1.0 + tolerance) == claimed + tolerance * claimed;
  }

  /** When all but the norms is that of the true run, and they are at least one, their intervals decide. */
  lemma NormsDecide(v: Verifier, t: Trace, w: Witness, norms: seq<real>, challenges: seq<int>)
    requires Indexable(t) && WitnessFits(t, w) && t.numSteps > 0 && v.recomputeChain && |norms| == t.numSteps
    requires Covers(challenges, t.numSteps) && forall j :: j in challenges ==> 1 <= j <= t.numSteps
    requires CollisionFree(v.stateHash, ComparedStates(v, w, t.numSteps))
    requires Honest(v, t, w) && forall i :: 0 <= i < t.numSteps ==> norms[i] >= 1.0
    ensures Passes(v, t.(gradientNorms := norms), w, challenges)
            <==> forall i :: 0 <= i < t.numSteps ==>
                   norms[i] * (1.0 - v.tolerance) <= RunOutcome(v.replay, w.stateBefore[0], i).norm
                   <= norms[i] * (1.0 + v.tolerance)
  {
    SameButNorms(v, t, w, norms);
    AllIntervals(v, w.stateBefore[0], norms);
    FullReplayAcceptsExactlyHonestRuns(v, t.(gradientNorms := norms), w, challenges);
  }

  lemma AllIntervals(v: Verifier, start: Bytes, norms: seq<real>)
    requires forall i :: 0 <= i < |norms| ==> norms[i] >= 1.0
    ensures (forall i :: 0 <= i < |norms| ==> NormWithin(v.tolerance, norms[i], RunOutcome(v.replay, start, i).norm))
            <==> forall i :: 0 <= i < |norms| ==>
                   norms[i] * (1.0 - v.tolerance) <= RunOutcome(v.replay, start, i).norm
                   <= norms[i] * (1.0 + v.tolerance)
  {
    forall i | 0 <= i < |norms|
      ensures NormWithin(v.tolerance, norms[i], RunOutcome(v.replay, start, i).norm)
              <==> norms[i] * (1.0 - v.tolerance) <= RunOutcome(v.replay, start, i).norm
                   <= norms[i] * (1.0 + v.tolerance)
    {
      IntervalOf(v.tolerance, norms[i], RunOutcome(v.replay, start, i).norm);
    }
  }

  lemma SameButNorms(v: Verifier, t: Trace, w: Witness, norms: seq<real>)
    requires Indexable(t) && WitnessFits(t, w) && t.numSteps > 0 && |norms| == t.numSteps && Honest(v, t, w)
    ensures Honest(v, t.(gradientNorms := norms), w)
            <==> forall i :: 0 <= i < t.numSteps ==>
                   NormWithin(v.tolerance, norms[i], RunOutcome(v.replay, w.stateBefore[0], i).norm)
  {
  }

  // ----- how often a cheat escapes

  ghost function AllSteps(n: nat): (steps: set<int>)
    ensures |steps| == n
    ensures forall j :: j in steps <==> 1 <= j <= n
  {
    if n == 0 then {} else AllSteps(n - 1) + {n}
  }

  /** The steps that would survive a replay. */
  ghost function SoundSteps(v: Verifier, t: Trace, w: Witness): set<int>
    requires WitnessFits(t, w)
  {
    set j | j in AllSteps(t.numSteps) && StepFailure(v, t, w, j).None?
  }

  /** The lists of `k` challenges that accept the trace. */
  ghost function Accepting(v: Verifier, t: Trace, w: Witness, k: nat): set<seq<int>>
    requires t.numSteps >= 0
  {
    set l | l in Lists(AllSteps(t.numSteps), k) && Passes(v, t, w, l)
  }

  /**
    The escape rate: of the N^k challenge lists, exactly m^k accept a trace with m sound steps, so k
    independent uniform draws miss the forgery with probability (m / N)^k.
   */
  lemma EscapeRate(v: Verifier, t: Trace, w: Witness, k: nat)
    requires WitnessFits(t, w)
    ensures |Lists(AllSteps(t.numSteps), k)| == Pow(t.numSteps, k)
    ensures |Accepting(v, t, w, k)| == Pow(|SoundSteps(v, t, w)|, k)
  {
    ListsCount(AllSteps(t.numSteps), k);
    ListsCount(SoundSteps(v, t, w), k);
    forall l ensures l in Accepting(v, t, w, k) <==> l in Lists(SoundSteps(v, t, w), k) {
      ListsMembers(AllSteps(t.numSteps), k, l);
      ListsMembers(SoundSteps(v, t, w), k, l);
    }
    assert Accepting(v, t, w, k) == Lists(SoundSteps(v, t, w), k);
  }

  /** The trace with another end hash. */
  function ForgedEnd(t: Trace, end: Bytes): Trace { t.(stateNHash := end) }

  lemma ForgedStep(v: Verifier, t: Trace, w: Witness, end: Bytes, i: nat)
    requires Indexable(t) && WitnessFits(t, w) && i < t.numSteps && Honest(v, t, w) && end != t.stateNHash
    ensures StepFailure(v, ForgedEnd(t, end), w, i + 1).None? <==> i + 1 < t.numSteps
  {
    HonestStepPasses(v, t, w, i);
  }

  lemma SoundAllButLast(v: Verifier, t: Trace, w: Witness, n: nat)
    requires WitnessFits(t, w) && t.numSteps == n + 1
    requires forall j :: 1 <= j <= n + 1 ==> (StepFailure(v, t, w, j).None? <==> j <= n)
    ensures SoundSteps(v, t, w) == AllSteps(n)
  {
    assert SoundSteps(v, t, w) == AllSteps(n);
  }

  lemma EscapeAllButLast(v: Verifier, t: Trace, w: Witness, n: nat, k: nat)
    requires WitnessFits(t, w) && t.numSteps == n + 1
    requires forall j :: 1 <= j <= n + 1 ==> (StepFailure(v, t, w, j).None? <==> j <= n)
    ensures |Accepting(v, t, w, k)| == Pow(n, k)
  {
    SoundAllButLast(v, t, w, n);
    EscapeRate(v, t, w, k);
  }

  /**
    An honest trace whose end hash is replaced survives every step but the last: of the N^k challenge lists
    exactly (N - 1)^k accept it.
   */
  lemma ForgedEndEscapes(v: Verifier, t: Trace, w: Witness, end: Bytes, k: nat)
    requires Indexable(t) && WitnessFits(t, w) && t.numSteps >= 1 && Honest(v, t, w) && end != t.stateNHash
    ensures |Accepting(v, ForgedEnd(t, end), w, k)| == Pow(t.numSteps - 1, k)
  {
    forall j | 1 <= j <= t.numSteps ensures StepFailure(v, ForgedEnd(t, end), w, j).None? <==> j <= t.numSteps - 1 {
      ForgedStep(v, t, w, end, j - 1);
    }
    EscapeAllButLast(v, ForgedEnd(t, end), w, t.numSteps - 1, k);
  }
}
