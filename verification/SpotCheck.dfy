/**
  Spot-check verification of a training block: the rolling gradient hash chain, the structural
  checks on what a miner publishes, and the replay of challenged steps.

  A byte string is a `Bytes`; a published hex digest is modelled as the digest it spells. SHA-256 is a
  parameter `sha`, and replaying one training step is a parameter `replay`. Nothing is assumed about
  `sha` except where a lemma says so, and then only that it has no collision among finitely many
  named inputs.
 */
module SpotCheck {

  import opened Basics

  type Bytes = seq<char>

  const GRAD_CHAIN_DOMAIN: Bytes := "DESSIN/spot-check/grad-chain/v1"
  const DIGEST_LENGTH := 32

  /** What the miner publishes. */
  datatype Trace = Trace(
    numSteps: int, state0Hash: Bytes, stateNHash: Bytes,
    lossCurve: seq<real>, gradientHashChain: seq<Bytes>, gradientNorms: seq<real>)

  /** What the miner keeps and reveals on challenge: the state before each step and its gradient. */
  datatype Witness = Witness(stateBefore: seq<Bytes>, grad: seq<Bytes>)

  datatype Outcome = Outcome(grad: Bytes, norm: real, stateAfter: Bytes)

  type Hash = Bytes -> Bytes
  type Replay = (int, Bytes) -> Outcome

  /** Everything a verifier is configured with. */
  datatype Verifier = Verifier(sha: Hash, stateHash: Hash, replay: Replay, recomputeChain: bool, tolerance: real)

  // ----- the gradient hash chain

  function Zeros(): Bytes { seq(DIGEST_LENGTH, _ => '\0') }

  function ChainStep(sha: Hash, prev: Bytes, grad: Bytes): Bytes {
    sha(GRAD_CHAIN_DOMAIN + prev + sha(grad))
  }

  /** The digests from `prev` on, one per gradient, each folding in the one before it. */
  function ChainFrom(sha: Hash, prev: Bytes, grads: seq<Bytes>): (chain: seq<Bytes>)
    ensures |chain| == |grads|
    decreases grads
  {
    if grads == [] then []
    else [ChainStep(sha, prev, grads[0])] + ChainFrom(sha, ChainStep(sha, prev, grads[0]), grads[1..])
  }

  function GradChain(sha: Hash, grads: seq<Bytes>): seq<Bytes> { ChainFrom(sha, Zeros(), grads) }

  method ComputeGradHashChain(sha: Hash, grads: seq<Bytes>) returns (chain: seq<Bytes>)
    ensures chain == GradChain(sha, grads)
  {
    chain := [];
    var prev := Zeros();
    for i := 0 to |grads|
      invariant chain + ChainFrom(sha, prev, grads[i..]) == GradChain(sha, grads)
    {
      var h := sha(GRAD_CHAIN_DOMAIN + prev + sha(grads[i]));
      prev := h;
      chain := chain + [h];
    }
  }

  // ----- structural checks

  datatype StructuralFailure =
    | NumSteps | LossCurveLength | ChainLength | NormsLength | StartAnchor | EndClaim | MalformedDigest

  /** When a check of the published commitments fails. */
  predicate Violates(t: Trace, expectedSteps: int, prevHash: Bytes, claimedEnd: Bytes, f: StructuralFailure) {
    match f
    case NumSteps => t.numSteps != expectedSteps
    case LossCurveLength => |t.lossCurve| != t.numSteps + 1
    case ChainLength => |t.gradientHashChain| != t.numSteps
    case NormsLength => |t.gradientNorms| != t.numSteps
    case StartAnchor => t.state0Hash != prevHash
    case EndClaim => t.stateNHash != claimedEnd
    case MalformedDigest => !WellFormed([t.state0Hash, t.stateNHash] + t.gradientHashChain)
  }

  predicate WellFormed(digests: seq<Bytes>) {
    forall i :: 0 <= i < |digests| ==> |digests[i]| == DIGEST_LENGTH
  }

  method VerifyStructural(t: Trace, expectedSteps: int, prevHash: Bytes, claimedEnd: Bytes)
    returns (ok: bool, failures: seq<StructuralFailure>)
    ensures ok <==> forall f :: !Violates(t, expectedSteps, prevHash, claimedEnd, f)
    ensures forall f :: f in failures <==> Violates(t, expectedSteps, prevHash, claimedEnd, f)
  {
    failures := AppendIf([], t.numSteps != expectedSteps, NumSteps);
    failures := AppendIf(failures, |t.lossCurve| != t.numSteps + 1, LossCurveLength);
    failures := AppendIf(failures, |t.gradientHashChain| != t.numSteps, ChainLength);
    failures := AppendIf(failures, |t.gradientNorms| != t.numSteps, NormsLength);
    failures := AppendIf(failures, t.state0Hash != prevHash, StartAnchor);
    failures := AppendIf(failures, t.stateNHash != claimedEnd, EndClaim);
    var wellFormed := AllWellFormed([t.state0Hash, t.stateNHash] + t.gradientHashChain);
    failures := AppendIf(failures, !wellFormed, MalformedDigest);
    forall f ensures f in failures <==> Violates(t, expectedSteps, prevHash, claimedEnd, f) {
      match f {
        case NumSteps => case LossCurveLength => case ChainLength => case NormsLength =>
        case StartAnchor => case EndClaim => case MalformedDigest =>
      }
    }
    ok := failures == [];
    assert !ok ==> failures[0] in failures;
  }

  method AppendIf(failures: seq<StructuralFailure>, failed: bool, f: StructuralFailure)
    returns (r: seq<StructuralFailure>)
    ensures forall g :: g in r <==> g in failures || (failed && g == f)
  {
    r := if failed then failures + [f] else failures;
  }

  method AllWellFormed(digests: seq<Bytes>) returns (ok: bool)
    ensures ok == WellFormed(digests)
  {
    for i := 0 to |digests|
      invariant WellFormed(digests[..i])
    {
      if |digests[i]| != DIGEST_LENGTH {
        return false;
      }
    }
    return true;
  }

  // ----- replaying challenged steps

  datatype ReplayFailure =
    | WitnessLengths | OutOfRange(step: int) | StartMismatch(step: int) | GradientMismatch(step: int)
    | ChainMismatch(step: int) | NormMismatch(step: int) | EndMismatch(step: int)
    | NotPublished(step: int)

  /** Published lists that are too short for a challenged step end the whole replay with an error. */
  datatype Report = Judged(ok: bool, failures: seq<ReplayFailure>) | IndexError

  function Abs(x: real): real { if x < 0.0 then -x else x }

  predicate NormAgrees(v: Verifier, replayed: real, claimed: real) {
    Abs(replayed - claimed) <= v.tolerance * Max(claimed, 1.0)
  }

  /** The published lists have one entry for each step, as the structural checks demand. */
  predicate Indexable(t: Trace) {
    |t.gradientHashChain| == t.numSteps && |t.gradientNorms| == t.numSteps
  }

  predicate WitnessFits(t: Trace, w: Witness) {
    |w.stateBefore| == t.numSteps && |w.grad| == t.numSteps
  }

  /** What entry `i` of a chain folds in: its predecessor, or `start` for the first. */
  function Prev(start: Bytes, chain: seq<Bytes>, i: nat): Bytes
    requires i <= |chain|
  {
    if i == 0 then start else chain[i - 1]
  }

  predicate ChainEntryAgrees(v: Verifier, chain: seq<Bytes>, i: nat, grad: Bytes)
    requires i < |chain|
  {
    ChainStep(v.sha, Prev(Zeros(), chain, i), grad) == chain[i]
  }

  /** The first complaint about step `j`, if any. */
  function StepFailure(v: Verifier, t: Trace, w: Witness, j: int): Option<ReplayFailure>
    requires WitnessFits(t, w)
  {
    if j < 1 || j > t.numSteps then Some(OutOfRange(j))
    else
      var i := j - 1;
      var pre := w.stateBefore[i];
      if i == 0 && v.stateHash(pre) != t.state0Hash then Some(StartMismatch(j))
      else
        var o := v.replay(j, pre);
        if v.sha(o.grad) != v.sha(w.grad[i]) then Some(GradientMismatch(j))
        else if v.recomputeChain && i >= |t.gradientHashChain| then Some(NotPublished(j))
        else if v.recomputeChain && !ChainEntryAgrees(v, t.gradientHashChain, i, o.grad) then Some(ChainMismatch(j))
        else if i >= |t.gradientNorms| then Some(NotPublished(j))
        else if !NormAgrees(v, o.norm, t.gradientNorms[i]) then Some(NormMismatch(j))
        else if v.stateHash(o.stateAfter) != (if j < t.numSteps then v.stateHash(w.stateBefore[j]) else t.stateNHash)
        then Some(EndMismatch(j))
        else None
  }

  /** Replaying step `j` runs off the end of a published list. */
  predicate RunsOff(v: Verifier, t: Trace, w: Witness, j: int)
    requires WitnessFits(t, w)
  {
    StepFailure(v, t, w, j) == Some(NotPublished(j))
  }

  function Complaints(v: Verifier, t: Trace, w: Witness, challenges: seq<int>): seq<ReplayFailure>
    requires WitnessFits(t, w)
  {
    if challenges == [] then []
    else
      var last := |challenges| - 1;
      var f := StepFailure(v, t, w, challenges[last]);
      Complaints(v, t, w, challenges[..last]) + if f.Some? then [f.value] else []
  }

  ghost predicate Passes(v: Verifier, t: Trace, w: Witness, challenges: seq<int>) {
    WitnessFits(t, w) && forall j :: j in challenges ==> StepFailure(v, t, w, j).None?
  }

  method VerifySpotReplay(v: Verifier, t: Trace, w: Witness, challenges: seq<int>) returns (r: Report)
    ensures r.Judged? && r.ok <==> Passes(v, t, w, challenges)
    ensures r.IndexError? <==> WitnessFits(t, w) && exists j :: j in challenges && RunsOff(v, t, w, j)
    ensures r.Judged? ==> r.failures == if WitnessFits(t, w) then Complaints(v, t, w, challenges) else [WitnessLengths]
  {
    if |w.stateBefore| != t.numSteps || |w.grad| != t.numSteps {
      return Judged(false, [WitnessLengths]);
    }
    var failures, finished := ReplayAll(v, t, w, challenges);
    if !finished {
      return IndexError;
    }
    NoComplaints(v, t, w, challenges);
    return Judged(failures == [], failures);
  }

  method ReplayAll(v: Verifier, t: Trace, w: Witness, challenges: seq<int>)
    returns (failures: seq<ReplayFailure>, finished: bool)
    requires WitnessFits(t, w)
    ensures finished <==> forall j :: j in challenges ==> !RunsOff(v, t, w, j)
    ensures finished ==> failures == Complaints(v, t, w, challenges)
  {
    failures := [];
    for k := 0 to |challenges|
      invariant failures == Complaints(v, t, w, challenges[..k])
      invariant forall i :: 0 <= i < k ==> !RunsOff(v, t, w, challenges[i])
    {
      var f := ReplayOne(v, t, w, challenges[k]);
      PrefixOfPrefix(challenges, k);
      if f.Some? && f.value.NotPublished? {
        return failures, false;
      }
      if f.Some? {
        failures := failures + [f.value];
      }
    }
    WholePrefix(challenges, |challenges|);
    finished := true;
  }

  /** The body of the loop: the first check that step `j` fails. */
  method ReplayOne(v: Verifier, t: Trace, w: Witness, j: int) returns (f: Option<ReplayFailure>)
    requires WitnessFits(t, w)
    ensures f == StepFailure(v, t, w, j) && (f.Some? && f.value.NotPublished? ==> RunsOff(v, t, w, j))
  {
    var n := t.numSteps;
    if j < 1 || j > n {
      return Some(OutOfRange(j));
    }
    var i := j - 1;
    var pre := w.stateBefore[i];
    if i == 0 && v.stateHash(pre) != t.state0Hash {
      return Some(StartMismatch(j));
    }
    var outcome := v.replay(j, pre);
    if v.sha(outcome.grad) != v.sha(w.grad[i]) {
      return Some(GradientMismatch(j));
    }
    if v.recomputeChain {
      if i >= |t.gradientHashChain| {
        return Some(NotPublished(j));
      }
      var prev := if i == 0 then Zeros() else t.gradientHashChain[i - 1];
      if ChainStep(v.sha, prev, outcome.grad) != t.gradientHashChain[i] {
        return Some(ChainMismatch(j));
      }
    }
    if i >= |t.gradientNorms| {
      return Some(NotPublished(j));
    }
    if !NormAgrees(v, outcome.norm, t.gradientNorms[i]) {
      return Some(NormMismatch(j));
    }
    var expected := if i + 1 < n then v.stateHash(w.stateBefore[i + 1]) else t.stateNHash;
    if v.stateHash(outcome.stateAfter) != expected {
      return Some(EndMismatch(j));
    }
    return None;
  }

  lemma {:induction false} NoComplaints(v: Verifier, t: Trace, w: Witness, challenges: seq<int>)
    requires WitnessFits(t, w)
    ensures Complaints(v, t, w, challenges) == [] <==> Passes(v, t, w, challenges)
  {
    if challenges != [] {
      var last := |challenges| - 1;
      NoComplaints(v, t, w, challenges[..last]);
      assert challenges == challenges[..last] + [challenges[last]];
    }
  }

  // ----- drawing the challenge

  /** Big-endian reading of a byte string. */
  function BigEndian(b: Bytes): nat {
    if b == [] then 0 else BigEndian(b[..|b| - 1]) * 256 + (b[|b| - 1] as int) % 256
  }

  /** The i-th eight-byte word of the stream whose blocks are `block(0), block(1), ...`. */
  function StreamWord(block: nat -> Bytes, i: nat): nat
    requires forall c: nat :: |block(c)| == DIGEST_LENGTH
  {
    BigEndian(block(i / 4)[i % 4 * 8..i % 4 * 8 + 8])
  }

  lemma OneMoreByte(b: Bytes, n: nat)
    requires n < |b| && b[n] as int < 256
    ensures BigEndian(b[..n + 1]) == BigEndian(b[..n]) * 256 + b[n] as int
  {
    assert b[..n + 1][..n] == b[..n];
  }

  lemma FourBytes(b: Bytes, n: nat)
    requires n + 4 <= |b| && forall k :: n <= k < n + 4 ==> b[k] as int < 256
    ensures BigEndian(b[..n + 4])
            == BigEndian(b[..n]) * 0x1_0000_0000
               + b[n] as int * 0x100_0000 + b[n + 1] as int * 0x1_0000 + b[n + 2] as int * 0x100 + b[n + 3] as int
  {
    OneMoreByte(b, n);
    OneMoreByte(b, n + 1);
    OneMoreByte(b, n + 2);
    OneMoreByte(b, n + 3);
  }

  /** Word `j` of block `c` is made of its eight bytes from `8 * j` on, the first of them the most significant. */
  lemma WordIs(block: nat -> Bytes, c: nat, j: nat, b: Bytes)
    requires forall d: nat :: |block(d)| == DIGEST_LENGTH
    requires j < 4 && b == block(c)[8 * j..8 * j + 8] && forall k :: 0 <= k < 8 ==> b[k] as int < 256
    ensures StreamWord(block, 4 * c + j)
            == b[0] as int * 0x100_0000_0000_0000 + b[1] as int * 0x1_0000_0000_0000
               + b[2] as int * 0x100_0000_0000 + b[3] as int * 0x1_0000_0000 + b[4] as int * 0x100_0000
               + b[5] as int * 0x1_0000 + b[6] as int * 0x100 + b[7] as int
  {
    assert (4 * c + j) / 4 == c && (4 * c + j) % 4 == j;
    assert b[..0] == [] && b[..8] == b;
    FourBytes(b, 0);
    FourBytes(b, 4);
  }

  method IntStream(block: nat -> Bytes, count: nat) returns (out: seq<nat>)
    requires forall c: nat :: |block(c)| == DIGEST_LENGTH
    ensures |out| == count
    ensures forall i :: 0 <= i < count ==> out[i] == StreamWord(block, i)
  {
    out := [];
    var counter := 0;
    while |out| < count
      invariant |out| == 4 * counter || |out| == count
      invariant |out| <= count
      invariant forall i :: 0 <= i < |out| ==> out[i] == StreamWord(block, i)
      decreases count - |out|
    {
      var bytes := block(counter);
      var i := 0;
      while i < |bytes|
        invariant i <= |bytes| && i % 8 == 0
        invariant |out| == 4 * counter + i / 8 && (|out| < count || i == |bytes|)
        invariant |out| <= count
        invariant forall k :: 0 <= k < |out| ==> out[k] == StreamWord(block, k)
      {
        assert |out| / 4 == counter && |out| % 4 * 8 == i;
        out := out + [BigEndian(bytes[i..i + 8])];
        if |out| == count {
          break;
        }
        i := i + 8;
      }
      counter := counter + 1;
    }
  }

  datatype Draw = Indices(steps: seq<int>) | ValueError

  /** `k` step numbers in [1, numSteps], or the error the source raises. */
  method DeriveChallengeStepIndices(block: nat -> Bytes, numSteps: int, k: int) returns (d: Draw)
    requires forall c: nat :: |block(c)| == DIGEST_LENGTH
    ensures d.ValueError? <==> numSteps < 1 || k < 1
    ensures d.Indices? ==> |d.steps| == k
                           && forall i :: 0 <= i < k ==> 1 <= d.steps[i] <= numSteps
                                                         && d.steps[i] == StreamWord(block, i) % numSteps + 1
  {
    if numSteps < 1 || k < 1 {
      return ValueError;
    }
    var raw := IntStream(block, k);
    d := Indices(seq(k, i requires 0 <= i < k => raw[i] % numSteps + 1));
  }
}
