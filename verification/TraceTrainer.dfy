/**
  The trainer that emits a spot-checkable trace, and the single-step replayer that must match it.

  One step of stochastic gradient descent is a parameter `sgd` from a minibatch seed and a model to
  what the step yields; `flatten` and `load` are the parameter codec. The optimiser is stateless, so
  the model is all a step carries forward.
 */
module TraceTrainer {
  import opened ParamCodec
  import opened SpotCheck
  import opened SpotCheckSoundness

  const SEED_STRIDE := 10007

  datatype StepResult<M> = StepResult(loss: real, grad: Bytes, norm: real, model: M)

  type Sgd<!M> = (int, M) -> StepResult<M>

  /** The model before step `i + 1`. */
  function ModelAt<M>(sgd: Sgd<M>, dataSeed: int, start: M, i: nat): M
    decreases i, 0
  {
    if i == 0 then start else StepAt(sgd, dataSeed, start, i - 1).model
  }

  /** What step `i + 1` yields. */
  function StepAt<M>(sgd: Sgd<M>, dataSeed: int, start: M, i: nat): StepResult<M>
    decreases i, 1
  {
    sgd(dataSeed + (i + 1) * SEED_STRIDE, ModelAt(sgd, dataSeed, start, i))
  }

  /** Everything the training loop records, for the first `n` steps. */
  ghost predicate Recorded<M>(sgd: Sgd<M>, dataSeed: int, start: M, flatten: M -> Bytes, n: nat,
                              w: Witness, norms: seq<real>, losses: seq<real>) {
    && |w.stateBefore| == |w.grad| == |norms| == |losses| == n
    && forall i :: 0 <= i < n ==>
         var o := StepAt(sgd, dataSeed, start, i);
         && w.stateBefore[i] == flatten(ModelAt(sgd, dataSeed, start, i))
         && w.grad[i] == o.grad && norms[i] == o.norm && losses[i] == o.loss
  }

  /** The published curve: the first per-step loss is replaced by the loss measured before training. */
  function LossCurve(before: real, perStep: seq<real>, after: real, steps: nat): seq<real> {
    var curve := if perStep != [] then [before] + perStep[1..] + [after] else [before, after];
    if |curve| == steps + 1 then curve
    else
      var long := [before] + perStep + [after];
      if |long| > steps + 1 then long[..steps + 1] else long
  }

  method TrainWithTrace<M>(sgd: Sgd<M>, flatten: M -> Bytes, sha: Hash, evalLoss: M -> real,
                           start: M, dataSeed: int, steps: nat)
    returns (t: Trace, w: Witness, final: M)
    ensures final == ModelAt(sgd, dataSeed, start, steps)
    ensures |t.lossCurve| == steps + 1
    ensures Recorded(sgd, dataSeed, start, flatten, steps, w, t.gradientNorms, StepLosses(sgd, dataSeed, start, steps))
    ensures t == Trace(steps, sha(flatten(start)), sha(flatten(final)),
                       LossCurve(evalLoss(start), StepLosses(sgd, dataSeed, start, steps), evalLoss(final), steps),
                       GradChain(sha, w.grad), t.gradientNorms)
  {
    var states, grads, norms, losses := [], [], [], [];
    var model := start;
    for step := 0 to steps
      invariant model == ModelAt(sgd, dataSeed, start, step)
      invariant Recorded(sgd, dataSeed, start, flatten, step, Witness(states, grads), norms, losses)
    {
      states := states + [flatten(model)];
      var o := sgd(dataSeed + (step + 1) * SEED_STRIDE, model);
      losses := losses + [o.loss];
      grads := grads + [o.grad];
      norms := norms + [o.norm];
      model := o.model;
    }
    final := model;
    w := Witness(states, grads);
    assert losses == StepLosses(sgd, dataSeed, start, steps);
    var chain := ComputeGradHashChain(sha, grads);
    t := Trace(steps, sha(flatten(start)), sha(flatten(final)),
               LossCurve(evalLoss(start), losses, evalLoss(final), steps), chain, norms);
  }

  ghost function StepLosses<M>(sgd: Sgd<M>, dataSeed: int, start: M, n: nat): (losses: seq<real>)
    ensures |losses| == n && forall i :: 0 <= i < n ==> losses[i] == StepAt(sgd, dataSeed, start, i).loss
  {
    seq(n, i requires 0 <= i < n => StepAt(sgd, dataSeed, start, i).loss)
  }

  /** Reloads the witnessed state and repeats step `j` on the minibatch of that number. */
  function MakeReplay<M>(sgd: Sgd<M>, flatten: M -> Bytes, load: Bytes -> M, dataSeed: int): Replay {
    (j: int, pre: Bytes) =>
      var o := sgd(dataSeed + j * SEED_STRIDE, load(pre));
      Outcome(o.grad, o.norm, flatten(o.model))
  }

  /** The codec restores the models that the first `n` steps start from. */
  ghost predicate Restores<M>(sgd: Sgd<M>, flatten: M -> Bytes, load: Bytes -> M, dataSeed: int, start: M, n: nat) {
    forall i: nat :: i < n ==> Reloaded(flatten, load, ModelAt(sgd, dataSeed, start, i))
  }

  ghost predicate Reloaded<M>(flatten: M -> Bytes, load: Bytes -> M, m: M) { load(flatten(m)) == m }

  lemma {:induction false} ReplayFollowsTraining<M(!new)>(
      sgd: Sgd<M>, flatten: M -> Bytes, load: Bytes -> M, dataSeed: int, start: M, i: nat)
    requires Restores(sgd, flatten, load, dataSeed, start, i)
    ensures RunState(MakeReplay(sgd, flatten, load, dataSeed), flatten(start), i)
            == flatten(ModelAt(sgd, dataSeed, start, i))
  {
    if i > 0 {
      ReplayFollowsTraining(sgd, flatten, load, dataSeed, start, i - 1);
      var before := ModelAt(sgd, dataSeed, start, i - 1);
      assert Reloaded(flatten, load, before);
      assert StepAt(sgd, dataSeed, start, i - 1) == sgd(dataSeed + i * SEED_STRIDE, before);
    }
  }

  /** Step for step, replaying the witness yields what training recorded. */
  lemma RunIsTraining<M(!new)>(
      sgd: Sgd<M>, flatten: M -> Bytes, load: Bytes -> M, dataSeed: int, start: M, i: nat)
    requires Restores(sgd, flatten, load, dataSeed, start, i + 1)
    ensures var o := RunOutcome(MakeReplay(sgd, flatten, load, dataSeed), flatten(start), i);
            var s := StepAt(sgd, dataSeed, start, i);
            o.grad == s.grad && o.norm == s.norm
  {
    ReplayFollowsTraining(sgd, flatten, load, dataSeed, start, i);
    assert Reloaded(flatten, load, ModelAt(sgd, dataSeed, start, i));
  }

  /** Step `i + 1` trains on the minibatch seeded 10007 times its number after the data seed, and so is it replayed. */
  lemma SeedsAre<M>(sgd: Sgd<M>, flatten: M -> Bytes, load: Bytes -> M, dataSeed: int, start: M, i: nat, pre: Bytes)
    ensures ModelAt(sgd, dataSeed, start, 0) == start
    ensures ModelAt(sgd, dataSeed, start, i + 1)
            == sgd(dataSeed + 10007 * (i + 1), ModelAt(sgd, dataSeed, start, i)).model
    ensures var o := sgd(dataSeed + 10007 * i, load(pre));
            MakeReplay(sgd, flatten, load, dataSeed)(i, pre) == Outcome(o.grad, o.norm, flatten(o.model))
  {
  }

  /** The curve runs from the loss before training over the losses of all steps but the first to the loss after it. */
  lemma CurveIs(before: real, perStep: seq<real>, after: real)
    ensures var steps, curve := |perStep|, LossCurve(before, perStep, after, |perStep|);
            && |curve| == steps + 1 && curve[0] == before
            && (steps > 0 ==> curve[steps] == after && forall k :: 0 < k < steps ==> curve[k] == perStep[k])
  {
  }

  /** What the trainer emits is an honest run for the replayer. */
  lemma TracedTrainingIsHonest<M(!new)>(
      v: Verifier, sgd: Sgd<M>, flatten: M -> Bytes, load: Bytes -> M, dataSeed: int, start: M,
      t: Trace, w: Witness, losses: seq<real>)
    requires t.numSteps >= 1 && Restores(sgd, flatten, load, dataSeed, start, t.numSteps)
    requires v.replay == MakeReplay(sgd, flatten, load, dataSeed) && v.stateHash == v.sha && v.tolerance >= 0.0
    requires Recorded(sgd, dataSeed, start, flatten, t.numSteps, w, t.gradientNorms, losses)
    requires t.gradientHashChain == GradChain(v.sha, w.grad)
    requires t.state0Hash == v.sha(flatten(start))
    requires t.stateNHash == v.sha(flatten(ModelAt(sgd, dataSeed, start, t.numSteps)))
    ensures Indexable(t) && WitnessFits(t, w) && Honest(v, t, w)
  {
    var n, first := t.numSteps, flatten(start);
    assert w.stateBefore[0] == first;
    ReplayFollowsTraining(sgd, flatten, load, dataSeed, start, n);
    forall i | 0 <= i < n ensures w.stateBefore[i] == RunState(v.replay, first, i) {
      ReplayFollowsTraining(sgd, flatten, load, dataSeed, start, i);
    }
    forall i | 0 <= i < n
      ensures RunOutcome(v.replay, first, i).grad == w.grad[i]
      ensures NormWithin(v.tolerance, t.gradientNorms[i], RunOutcome(v.replay, first, i).norm)
    {
      RunIsTraining(sgd, flatten, load, dataSeed, start, i);
      ZeroGapAgrees(v, t.gradientNorms[i]);
    }
    assert RunGrads(v.replay, first, n) == w.grad;
  }

  /** Completeness: every structural check passes and every list of real steps is accepted. */
  lemma TracedTrainingIsAccepted<M(!new)>(
      v: Verifier, sgd: Sgd<M>, flatten: M -> Bytes, load: Bytes -> M, dataSeed: int, start: M,
      t: Trace, w: Witness, losses: seq<real>, challenges: seq<int>)
    requires t.numSteps >= 1 && Restores(sgd, flatten, load, dataSeed, start, t.numSteps)
    requires v.replay == MakeReplay(sgd, flatten, load, dataSeed) && v.stateHash == v.sha && v.tolerance >= 0.0
    requires forall x :: |v.sha(x)| == DIGEST_LENGTH
    requires |t.lossCurve| == t.numSteps + 1
    requires Recorded(sgd, dataSeed, start, flatten, t.numSteps, w, t.gradientNorms, losses)
    requires t.gradientHashChain == GradChain(v.sha, w.grad)
    requires t.state0Hash == v.sha(flatten(start))
    requires t.stateNHash == v.sha(flatten(ModelAt(sgd, dataSeed, start, t.numSteps)))
    requires forall j :: j in challenges ==> 1 <= j <= t.numSteps
    ensures forall f :: !Violates(t, t.numSteps, v.sha(flatten(start)), t.stateNHash, f)
    ensures Passes(v, t, w, challenges)
  {
    TracedTrainingIsHonest(v, sgd, flatten, load, dataSeed, start, t, w, losses);
    HonestRunsPass(v, t, w, challenges);
    ChainOfDigests(v.sha, Zeros(), w.grad);
  }

  // ----- with the parameter codec

  ghost predicate SameShape<V>(a: seq<seq<V>>, b: seq<seq<V>>) {
    |a| == |b| && forall k :: 0 <= k < |a| ==> |a[k]| == |b[k]|
  }

  /** A training step changes the values of parameters, never their number or sizes. */
  ghost predicate KeepsShape<V(!new)>(sgd: Sgd<seq<seq<V>>>) {
    forall seed, m :: SameShape(sgd(seed, m).model, m)
  }

  lemma {:induction false} TrainingKeepsShape<V(!new)>(
      sgd: Sgd<seq<seq<V>>>, dataSeed: int, start: seq<seq<V>>, i: nat)
    requires KeepsShape(sgd)
    ensures SameShape(ModelAt(sgd, dataSeed, start, i), start)
  {
    if i > 0 {
      TrainingKeepsShape(sgd, dataSeed, start, i - 1);
      var before := ModelAt(sgd, dataSeed, start, i - 1);
      assert SameShape(sgd(dataSeed + i * SEED_STRIDE, before).model, before);
    }
  }

  /** A checkpoint spells the flat vector of the parameters; loading overwrites a model of that shape. */
  function Checkpoint<V, W>(spell: seq<W> -> Bytes, widen: V -> W): seq<seq<V>> -> Bytes {
    (m: seq<seq<V>>) => spell(Flat(m, widen))
  }

  function Restore<V, W>(read: Bytes -> seq<W>, narrow: W -> V, target: seq<seq<V>>): Bytes -> seq<seq<V>> {
    (b: Bytes) => Loaded(target, read(b), narrow)
  }

  /** The codec restores every model a run visits, into any model of the shape trained. */
  lemma CodecRestores<V(!new), W(!new)>(
      sgd: Sgd<seq<seq<V>>>, spell: seq<W> -> Bytes, read: Bytes -> seq<W>, widen: V -> W, narrow: W -> V,
      target: seq<seq<V>>, dataSeed: int, start: seq<seq<V>>, n: nat)
    requires KeepsShape(sgd) && SameShape(start, target)
    requires (forall x :: narrow(widen(x)) == x) && (forall ws :: read(spell(ws)) == ws)
    ensures Restores(sgd, Checkpoint(spell, widen), Restore(read, narrow, target), dataSeed, start, n)
  {
    forall i: nat | i < n
      ensures Reloaded(Checkpoint(spell, widen), Restore(read, narrow, target), ModelAt(sgd, dataSeed, start, i))
    {
      TrainingKeepsShape(sgd, dataSeed, start, i);
      LoadUndoesFlatten(ModelAt(sgd, dataSeed, start, i), target, widen, narrow);
    }
  }

  /** End to end: training checkpointed with the parameter codec is accepted for every list of real steps. */
  lemma CheckpointedTrainingIsAccepted<V(!new), W(!new)>(
      v: Verifier, sgd: Sgd<seq<seq<V>>>, spell: seq<W> -> Bytes, read: Bytes -> seq<W>, widen: V -> W, narrow: W -> V,
      target: seq<seq<V>>, dataSeed: int, start: seq<seq<V>>, t: Trace, w: Witness, losses: seq<real>,
      challenges: seq<int>)
    requires KeepsShape(sgd) && SameShape(start, target)
    requires (forall x :: narrow(widen(x)) == x) && (forall ws :: read(spell(ws)) == ws)
    requires v.replay == MakeReplay(sgd, Checkpoint(spell, widen), Restore(read, narrow, target), dataSeed)
    requires v.stateHash == v.sha && v.tolerance >= 0.0 && forall x :: |v.sha(x)| == DIGEST_LENGTH
    requires t.numSteps >= 1 && |t.lossCurve| == t.numSteps + 1
    requires Recorded(sgd, dataSeed, start, Checkpoint(spell, widen), t.numSteps, w, t.gradientNorms, losses)
    requires t.gradientHashChain == GradChain(v.sha, w.grad)
    requires t.state0Hash == v.sha(Checkpoint(spell, widen)(start))
    requires t.stateNHash == v.sha(Checkpoint(spell, widen)(ModelAt(sgd, dataSeed, start, t.numSteps)))
    requires forall j :: j in challenges ==> 1 <= j <= t.numSteps
    ensures forall f :: !Violates(t, t.numSteps, v.sha(Checkpoint(spell, widen)(start)), t.stateNHash, f)
    ensures Passes(v, t, w, challenges)
  {
    CodecRestores(sgd, spell, read, widen, narrow, target, dataSeed, start, t.numSteps);
    TracedTrainingIsAccepted(v, sgd, Checkpoint(spell, widen), Restore(read, narrow, target), dataSeed, start,
                             t, w, losses, challenges);
  }

  lemma ZeroGapAgrees(v: Verifier, norm: real)
    requires v.tolerance >= 0.0
    ensures NormWithin(v.tolerance, norm, norm)
  {
    assert norm > 1.0 ==> v.tolerance * norm >= 0.0;
  }

  lemma {:induction false} ChainOfDigests(sha: Hash, prev: Bytes, grads: seq<Bytes>)
    requires forall x :: |sha(x)| == DIGEST_LENGTH
    ensures WellFormed(ChainFrom(sha, prev, grads))
    decreases grads
  {
    if grads != [] {
      ChainOfDigests(sha, ChainStep(sha, prev, grads[0]), grads[1..]);
    }
  }
}
