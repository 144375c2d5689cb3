/** Paying a miner for training: what a payment moves, and whether the pre-flight check predicts it. */
module TrainingPayment {
  import opened Basics
  import opened MapSums
  import opened Ledger
  import opened LedgerRuns

  const BYTES_PER_GB := 1073741824

  datatype Block = Block(index: int, miner: string, modelId: string, steps: int, sizeBytes: int)

  function TrainingCost(perStep: real, steps: int, sizeBytes: int): real {
    steps as real * perStep * (1.0 + sizeBytes as real / BYTES_PER_GB as real * 0.1)
  }

  /** One step of an empty model costs the price of a step, and every ten gigabytes add as much again. */
  lemma TrainingCostIs(perStep: real, steps: int, tens: nat)
    ensures TrainingCost(perStep, steps, tens * 10 * BYTES_PER_GB) == steps as real * perStep * (tens + 1) as real
    ensures BYTES_PER_GB == 1024 * 1024 * 1024
  {
    assert (tens * 10 * BYTES_PER_GB) as real / BYTES_PER_GB as real == (tens * 10) as real;
  }

  // ----- the estimate

  /** The size of the newest block for the model that records one, or 0. */
  function LatestSize(chain: seq<Block>, modelId: string): int {
    if chain == [] then 0
    else
      var tip := chain[|chain| - 1];
      if tip.modelId == modelId && tip.sizeBytes > 0 then tip.sizeBytes else LatestSize(chain[..|chain| - 1], modelId)
  }

  function EstimatedSize(chain: seq<Block>, catalogBytes: Option<int>, modelId: string): int {
    if LatestSize(chain, modelId) > 0 then LatestSize(chain, modelId)
    else if catalogBytes.Some? then catalogBytes.value
    else 0
  }

  /** No block from place `n` on records a size of the model, and the one before it does. */
  ghost predicate NewestBefore(chain: seq<Block>, modelId: string, n: nat) {
    && n <= |chain| && (n > 0 ==> chain[n - 1].modelId == modelId && chain[n - 1].sizeBytes > 0)
    && forall j :: n <= j < |chain| ==> chain[j].modelId != modelId || chain[j].sizeBytes <= 0
  }

  /** The size of the newest block that records one; without any, that of the catalogue, or nothing. */
  lemma {:induction false} EstimatedSizeIs(chain: seq<Block>, catalogBytes: Option<int>, modelId: string, n: nat)
    requires NewestBefore(chain, modelId, n)
    ensures EstimatedSize(chain, catalogBytes, modelId)
            == if n > 0 then chain[n - 1].sizeBytes else if catalogBytes.Some? then catalogBytes.value else 0
  {
    if n < |chain| {
      EstimatedSizeIs(chain[..|chain| - 1], catalogBytes, modelId, n);
    }
  }

  /** The newest recorded size counts; the catalogue is asked only when no block records one. */
  method EstimateTrainingCost(chain: seq<Block>, catalogBytes: Option<int>, perStep: real, modelId: string, steps: int)
    returns (cost: real)
    ensures cost == TrainingCost(perStep, steps, EstimatedSize(chain, catalogBytes, modelId))
  {
    var size := 0;
    var k := |chain|;
    assert chain[..k] == chain;
    while k > 0
      invariant 0 <= k <= |chain|
      invariant size == 0 && LatestSize(chain[..k], modelId) == LatestSize(chain, modelId)
    {
      assert chain[..k][..k - 1] == chain[..k - 1];
      var b := chain[k - 1];
      if b.modelId == modelId && b.sizeBytes > 0 {
        size := b.sizeBytes;
        break;
      }
      k := k - 1;
    }
    if size <= 0 && catalogBytes.Some? {
      size := catalogBytes.value;
    }
    cost := TrainingCost(perStep, steps, size);
  }

  // ----- what a payment moves

  /** All real funds of an address: liquid, staked, and on the way out of stake. */
  function Owned(l: Ledger, a: string): real {
    Get(l.liquid, a) + Get(l.staked, a) + Principal(Queue(l, a))
  }

  ghost predicate SameAccount(l: Ledger, t: Ledger, a: string) {
    Get(l.liquid, a) == Get(t.liquid, a) && Get(l.staked, a) == Get(t.staked, a) && Queue(l, a) == Queue(t, a)
  }

  /** `t` differs from `l` only in how the owner's funds are spread over liquid, stake and queue. */
  ghost predicate OnlyRearranged(l: Ledger, t: Ledger, owner: string) {
    t.escrow == l.escrow && Owned(t, owner) == Owned(l, owner) && forall a :: a != owner ==> SameAccount(l, t, a)
  }

  /** Moves liquid funds between two accounts and touches nothing else. */
  function Moved(l: Ledger, payer: string, payee: string, amount: real): Ledger {
    l.(liquid := Credit(Credit(l.liquid, payer, -amount), payee, amount))
  }

  lemma MovedAccounts(l: Ledger, payer: string, payee: string, amount: real)
    ensures var t := Moved(l, payer, payee, amount);
            && (forall a :: a != payer && a != payee ==> SameAccount(l, t, a))
            && (payer != payee ==> Get(t.liquid, payer) == Get(l.liquid, payer) - amount
                                   && Get(t.liquid, payee) == Get(l.liquid, payee) + amount)
            && (payer == payee ==> Get(t.liquid, payer) == Get(l.liquid, payer))
  {
  }

  /** Crediting matured exits never changes what an address owns. */
  lemma FinalizeKeepsOwned(l: Ledger, address: string, height: int, slack: real)
    requires Solvent(l, slack)
    ensures Owned(Finalize(l, address, height), address) == Owned(l, address)
    ensures forall a :: a != address ==> SameAccount(l, Finalize(l, address, height), a)
  {
    FinalizeEffect(l, address, height, slack);
    QueueSplits(Queue(l, address), height);
  }

  /** A transfer succeeds exactly when liquid and matured funds cover it, and then moves exactly the amount. */
  lemma TransferMoves(l: Ledger, payer: string, payee: string, amount: real, height: int, slack: real)
    requires Solvent(l, slack) && payer != SYSTEM && amount > 0.0
    ensures var (t, r) := Transfer(l, payer, payee, amount, height);
            && (r.Accepted? <==> PreviewLiquid(l, payer, height) >= amount)
            && (r.Accepted? ==> t == Moved(Finalize(l, payer, height), payer, payee, amount))
            && (!r.Accepted? ==> r.Rejected? && t == Finalize(l, payer, height))
  {
    FinalizeEffect(l, payer, height, slack);
  }

  /** A second flush at the same height finds nothing to do. */
  lemma FinalizeIdle(l: Ledger, address: string, height: int)
    requires PositiveExits(l.unbonding) && Pending(Queue(l, address), height) == Queue(l, address)
    requires Matured(Queue(l, address), height) == 0.0
    ensures Finalize(l, address, height) == l
  {
    if address in l.unbonding {
      assert Positive(l.unbonding[address]);
      assert l.unbonding[address := Queue(l, address)] == l.unbonding;
    }
  }

  lemma {:induction false} PendingMaturesNothing(q: seq<Exit>, height: int)
    ensures Matured(Pending(q, height), height) == 0.0
    ensures Pending(Pending(q, height), height) == Pending(q, height)
  {
    MaturedTwice(q, height, height);
    PendingTwice(q, height, height);
  }

  /** Readying the owner moves the owner's own funds around, and succeeds exactly as stated. */
  lemma ReadiedEffect(l: Ledger, owner: string, remainder: real, height: int, debitStake: bool, slack: real)
    requires Solvent(l, slack) && remainder > 0.0
    ensures var r := Readied(l, owner, remainder, height, debitStake);
            && OnlyRearranged(l, r, owner) && Queue(r, owner) == Pending(Queue(l, owner), height)
            && (Get(r.liquid, owner) >= remainder <==> CanCover(l, owner, remainder, height, debitStake))
  {
    FinalizeEffect(l, owner, height, slack);
    FinalizeKeepsOwned(l, owner, height, slack);
    var f := Finalize(l, owner, height);
    UnwrapEffect(f, owner, remainder, debitStake);
    RearrangedTwice(l, f, Unwrapped(f, owner, remainder, debitStake), owner);
  }

  lemma RearrangedTwice(l: Ledger, f: Ledger, r: Ledger, owner: string)
    requires OnlyRearranged(l, f, owner) && OnlyRearranged(f, r, owner)
    ensures OnlyRearranged(l, r, owner)
  {
    forall a | a != owner ensures SameAccount(l, r, a) {
      assert SameAccount(l, f, a) && SameAccount(f, r, a);
    }
  }

  /** The unstaking half of readying the owner, on a ledger already flushed. */
  lemma UnwrapEffect(f: Ledger, owner: string, remainder: real, debitStake: bool)
    requires remainder > 0.0
    ensures var r := Unwrapped(f, owner, remainder, debitStake);
            && OnlyRearranged(f, r, owner) && r.unbonding == f.unbonding
            && (Get(r.liquid, owner) >= remainder <==>
                  Get(f.liquid, owner) >= remainder
                  || (debitStake && DUST < remainder - Get(f.liquid, owner) <= Get(f.staked, owner)))
  {
    UnwrapAccounts(f, owner, Min(Max(0.0, remainder - Get(f.liquid, owner)), Get(f.staked, owner)));
  }

  lemma UnwrapAccounts(l: Ledger, owner: string, amount: real)
    requires amount <= Get(l.staked, owner)
    ensures var t := UnstakeNow(l, owner, amount).0;
            && (forall a :: a != owner ==> SameAccount(l, t, a))
            && Owned(t, owner) == Owned(l, owner) && Get(t.liquid, owner) == Get(l.liquid, owner) + amount
            && t.escrow == l.escrow && t.unbonding == l.unbonding
  {
  }

  /** The two payments, from escrow and from the owner. */
  function Settled(l: Ledger, owner: string, miner: string, modelId: string, fromEscrow: real, remainder: real):
    Ledger
  {
    var paid := PayFromEscrow(l, modelId, miner, fromEscrow);
    if remainder > 0.0 then Moved(paid, owner, miner, remainder) else paid
  }

  /**
    `t` is `l` after the miner was paid: so much out of the model's escrow, the remainder from the
    owner, all of it into the miner's liquid balance, and every other account as it was.
   */
  ghost predicate PaidExactly(l: Ledger, t: Ledger, owner: string, miner: string, modelId: string, fromEscrow: real,
                              remainder: real) {
    && t.escrow == (if fromEscrow > 0.0 then Credit(l.escrow, modelId, -fromEscrow) else l.escrow)
    && (forall a :: a != owner && a != miner ==> SameAccount(l, t, a))
    && (miner != owner ==> Owned(t, owner) == Owned(l, owner) - remainder
                           && Owned(t, miner) == Owned(l, miner) + fromEscrow + remainder
                           && Get(t.liquid, miner) == Get(l.liquid, miner) + fromEscrow + remainder)
    && (miner == owner ==> Owned(t, owner) == Owned(l, owner) + fromEscrow)
  }

  lemma PaidAfterRearranging(l: Ledger, r: Ledger, t: Ledger, owner: string, miner: string, modelId: string,
                             fromEscrow: real, remainder: real)
    requires OnlyRearranged(l, r, owner) && PaidExactly(r, t, owner, miner, modelId, fromEscrow, remainder)
    ensures PaidExactly(l, t, owner, miner, modelId, fromEscrow, remainder)
  {
    assert miner != owner ==> SameAccount(l, r, miner);
    forall a | a != owner && a != miner ensures SameAccount(l, t, a) {
      assert SameAccount(l, r, a) && SameAccount(r, t, a);
    }
  }

  lemma EscrowPaidAccounts(l: Ledger, miner: string, modelId: string, amount: real)
    requires amount >= 0.0
    ensures var t := PayFromEscrow(l, modelId, miner, amount);
            && t.escrow == (if amount > 0.0 then Credit(l.escrow, modelId, -amount) else l.escrow)
            && t.staked == l.staked && t.unbonding == l.unbonding
            && Get(t.liquid, miner) == Get(l.liquid, miner) + amount
            && (forall a :: a != miner ==> SameAccount(l, t, a))
  {
  }

  lemma SettledAccounts(l: Ledger, owner: string, miner: string, modelId: string, fromEscrow: real, remainder: real)
    requires fromEscrow >= 0.0 && remainder >= 0.0
    ensures PaidExactly(l, Settled(l, owner, miner, modelId, fromEscrow, remainder), owner, miner, modelId, fromEscrow,
                        remainder)
  {
    var paid := PayFromEscrow(l, modelId, miner, fromEscrow);
    EscrowPaidExactly(l, owner, miner, modelId, fromEscrow);
    if remainder > 0.0 {
      MovedAfterEscrow(l, paid, owner, miner, modelId, fromEscrow, remainder);
    }
  }

  lemma EscrowPaidExactly(l: Ledger, owner: string, miner: string, modelId: string, fromEscrow: real)
    requires fromEscrow >= 0.0
    ensures PaidExactly(l, PayFromEscrow(l, modelId, miner, fromEscrow), owner, miner, modelId, fromEscrow, 0.0)
  {
    EscrowPaidAccounts(l, miner, modelId, fromEscrow);
    assert owner != miner ==> SameAccount(l, PayFromEscrow(l, modelId, miner, fromEscrow), owner);
  }

  /** Moving the remainder on top of the escrow payment. */
  lemma MovedAfterEscrow(l: Ledger, paid: Ledger, owner: string, miner: string, modelId: string, fromEscrow: real,
                         remainder: real)
    requires PaidExactly(l, paid, owner, miner, modelId, fromEscrow, 0.0)
    ensures PaidExactly(l, Moved(paid, owner, miner, remainder), owner, miner, modelId, fromEscrow, remainder)
  {
    var t := Moved(paid, owner, miner, remainder);
    MovedAccounts(paid, owner, miner, remainder);
    forall a | a != owner && a != miner ensures SameAccount(l, t, a) {
      assert SameAccount(l, paid, a) && SameAccount(paid, t, a);
    }
  }

  /** Nothing of the owner's queue is left to flush at this height. */
  ghost predicate ReadyToSettle(l: Ledger, owner: string, height: int) {
    Pending(Queue(l, owner), height) == Queue(l, owner) && Matured(Queue(l, owner), height) == 0.0
  }

  /** Liquid and matured funds cover the amount, or the shortfall is more than dust and stake may and can fill it. */
  predicate CanCover(l: Ledger, owner: string, amount: real, height: int, debitStake: bool) {
    var short := amount - PreviewLiquid(l, owner, height);
    short <= 0.0 || (debitStake && DUST < short <= Get(l.staked, owner))
  }

  /** Once the owner is ready, settling succeeds exactly when the remainder is covered, and flushes nothing more. */
  lemma SettleIff(ready: Ledger, owner: string, miner: string, modelId: string, fromEscrow: real, remainder: real,
                  height: int, slack: real)
    requires Solvent(ready, slack) && owner != SYSTEM && fromEscrow <= Get(ready.escrow, modelId)
    requires remainder > 0.0 ==> ReadyToSettle(ready, owner, height)
    ensures Settle(ready, owner, miner, modelId, fromEscrow, remainder, height)
            == if remainder > 0.0 && Get(ready.liquid, owner) < remainder then (ready, Rejected)
               else (Settled(ready, owner, miner, modelId, fromEscrow, remainder), Accepted)
  {
    var paid := PayFromEscrow(ready, modelId, miner, fromEscrow);
    PayFromEscrowStep(ready, modelId, miner, fromEscrow, slack);
    if remainder > 0.0 {
      FinalizeIdle(paid, owner, height);
    }
  }

  /** What readying the owner leaves for the settlement to find. */
  lemma ReadiedSettles(l: Ledger, owner: string, remainder: real, height: int, debitStake: bool, slack: real)
    requires Solvent(l, slack) && remainder > 0.0
    ensures var r := Readied(l, owner, remainder, height, debitStake);
            Solvent(r, slack) && ReadyToSettle(r, owner, height)
  {
    ReadiedStep(l, owner, remainder, height, debitStake, slack);
    ReadiedEffect(l, owner, remainder, height, debitStake, slack);
    PendingMaturesNothing(Queue(l, owner), height);
  }

  /** One payment, as a ledger rearranged and then settled, or rearranged and rejected. */
  lemma PaymentForm(l: Ledger, owner: string, miner: string, modelId: string, cost: real, height: int,
                    debitStake: bool, slack: real) returns (ready: Ledger)
    requires Solvent(l, slack) && owner != SYSTEM
    ensures OnlyRearranged(l, ready, owner)
    ensures var fromEscrow := EscrowPart(l, modelId, cost);
            PayForTraining(l, owner, miner, modelId, cost, height, debitStake)
            == if cost <= fromEscrow || CanCover(l, owner, cost - fromEscrow, height, debitStake)
               then (Settled(ready, owner, miner, modelId, fromEscrow, cost - fromEscrow), Accepted)
               else (ready, Rejected)
  {
    var fromEscrow := EscrowPart(l, modelId, cost);
    if cost > fromEscrow {
      ready := Readied(l, owner, cost - fromEscrow, height, debitStake);
      ReadiedSettles(l, owner, cost - fromEscrow, height, debitStake, slack);
      ReadiedEffect(l, owner, cost - fromEscrow, height, debitStake, slack);
    } else {
      ready := l;
    }
    SettleIff(ready, owner, miner, modelId, fromEscrow, cost - fromEscrow, height, slack);
  }

  /** When a payment goes through, in terms of the balances before it. */
  lemma PaymentAcceptedIff(l: Ledger, owner: string, miner: string, modelId: string, cost: real, height: int,
                           debitStake: bool, slack: real)
    requires Solvent(l, slack) && owner != SYSTEM
    ensures var r := PayForTraining(l, owner, miner, modelId, cost, height, debitStake).1;
            && r != MissingAccount
            && (r.Accepted? <==> cost <= Get(l.escrow, modelId)
                                 || CanCover(l, owner, cost - EscrowPart(l, modelId, cost), height, debitStake))
  {
    var ready := PaymentForm(l, owner, miner, modelId, cost, height, debitStake, slack);
  }

  /** An accepted payment takes exactly the cost, from escrow first and the owner for the rest. */
  lemma AcceptedPaymentIsExact(l: Ledger, t: Ledger, owner: string, miner: string, modelId: string, cost: real,
                               height: int, debitStake: bool, slack: real)
    requires Solvent(l, slack) && owner != SYSTEM && cost >= 0.0
    requires PayForTraining(l, owner, miner, modelId, cost, height, debitStake) == (t, Accepted)
    ensures var fromEscrow := EscrowPart(l, modelId, cost);
            PaidExactly(l, t, owner, miner, modelId, fromEscrow, cost - fromEscrow)
  {
    var fromEscrow := EscrowPart(l, modelId, cost);
    var ready := PaymentForm(l, owner, miner, modelId, cost, height, debitStake, slack);
    SettledAccounts(ready, owner, miner, modelId, fromEscrow, cost - fromEscrow);
    PaidAfterRearranging(l, ready, t, owner, miner, modelId, fromEscrow, cost - fromEscrow);
  }

  /** A rejected payment takes nothing: all others and the escrow are untouched, the owner is as rich as before. */
  lemma RejectedPaymentTakesNothing(l: Ledger, t: Ledger, owner: string, miner: string, modelId: string, cost: real,
                                    height: int, debitStake: bool, slack: real)
    requires Solvent(l, slack) && owner != SYSTEM
    requires PayForTraining(l, owner, miner, modelId, cost, height, debitStake) == (t, Rejected)
    ensures OnlyRearranged(l, t, owner)
  {
    var ready := PaymentForm(l, owner, miner, modelId, cost, height, debitStake, slack);
  }

  // ----- the pre-flight check

  /** Whether the owner looks able to pay, and the ledger after matured exits were flushed on the way. */
  function CanAfford(l: Ledger, owner: string, modelId: string, cost: real, height: int, inBootstrap: bool):
    (Ledger, bool)
  {
    if owner == SYSTEM then (l, true)
    else
      var remainder := Max(0.0, cost - Get(l.escrow, modelId));
      if remainder <= 0.0 then (l, true)
      else
        var f := Finalize(l, owner, height);
        (f, PreviewLiquid(f, owner, height) + (if inBootstrap then Get(f.staked, owner) else 0.0) >= remainder)
  }

  /** What happens to the ledger between the check and the payment: rewards and materialisation. */
  predicate Intervening(op: Op) { op.MintOp? || op.MaterializeOp? }

  ghost predicate FundsKept(l: Ledger, t: Ledger, owner: string) {
    && Get(t.liquid, owner) >= Get(l.liquid, owner) && Get(t.staked, owner) >= Get(l.staked, owner)
    && Queue(t, owner) == Queue(l, owner) && t.escrow == l.escrow
  }

  lemma MintKeepsFunds(l: Ledger, miner: string, amount: real, toStake: bool, owner: string)
    requires owner != GENESIS
    ensures FundsKept(l, Mint(l, miner, amount, toStake).0, owner)
  {
  }

  lemma MaterializeKeepsFunds(l: Ledger, address: string, grant: real, owner: string)
    requires AtLeast(l.liquid, 0.0) && owner != GENESIS
    ensures FundsKept(l, Materialize(l, address, grant), owner)
  {
    assert MaterializeDraw(l, address, grant) >= 0.0;
  }

  /** Rewards and materialisation never take liquid or stake from anyone but genesis. */
  lemma {:induction false} InterveningRunKeepsFunds(l: Ledger, ops: seq<Op>, owner: string)
    requires Solvent(l, DUST) && (forall op :: op in ops ==> Intervening(op)) && owner != GENESIS
    ensures var t := Run(l, ops);
            Solvent(t, DUST) && FundsKept(l, t, owner)
  {
    if ops != [] {
      var last := |ops| - 1;
      assert ops[last] in ops && forall op :: op in ops[..last] ==> op in ops;
      InterveningRunKeepsFunds(l, ops[..last], owner);
      StepConserves(Run(l, ops[..last]), ops[last], DUST);
      match ops[last] {
        case MintOp(miner, amount, toStake) => MintKeepsFunds(Run(l, ops[..last]), miner, amount, toStake, owner);
        case MaterializeOp(address, grant) => MaterializeKeepsFunds(Run(l, ops[..last]), address, grant, owner);
      }
    }
  }

  /** What the operations want of the genesis account, and what they pay back into it. */
  function WantedBy(l: Ledger, op: Op): real {
    match op
    case MintOp(_, amount, _) => Max(0.0, amount)
    case MaterializeOp(address, grant) => Max(0.0, Get(l.virtual, address) + grant)
    case _ => 0.0
  }

  function Wanted(l: Ledger, ops: seq<Op>): real {
    if ops == [] then 0.0
    else Wanted(l, ops[..|ops| - 1]) + WantedBy(Run(l, ops[..|ops| - 1]), ops[|ops| - 1])
  }

  predicate PaysGenesis(op: Op) { op.MintOp? && !op.toStake && op.miner == GENESIS }

  function Returned(l: Ledger, ops: seq<Op>): real {
    if ops == [] then 0.0
    else
      var before := Run(l, ops[..|ops| - 1]);
      Returned(l, ops[..|ops| - 1])
      + if PaysGenesis(ops[|ops| - 1]) then Min(Get(before.liquid, GENESIS), WantedBy(before, ops[|ops| - 1])) else 0.0
  }

  /** One draw: so much leaves the genesis balance, and comes back if the miner paid is genesis itself. */
  ghost predicate Draws(l: Ledger, t: Ledger, drawn: real, back: bool) {
    && t.emitted == l.emitted + drawn && t.escrow == l.escrow && t.unbonding == l.unbonding
    && Get(t.liquid, GENESIS) == Get(l.liquid, GENESIS) - (if back then 0.0 else drawn)
  }

  lemma MintDraws(l: Ledger, miner: string, amount: real, toStake: bool)
    requires AtLeast(l.liquid, 0.0)
    ensures Draws(l, Mint(l, miner, amount, toStake).0, Min(Get(l.liquid, GENESIS), Max(0.0, amount)),
                  !toStake && miner == GENESIS)
  {
  }

  lemma MaterializeDraws(l: Ledger, address: string, grant: real)
    requires AtLeast(l.liquid, 0.0)
    ensures Draws(l, Materialize(l, address, grant),
                  Min(Get(l.liquid, GENESIS), Max(0.0, Get(l.virtual, address) + grant)), false)
  {
  }

  lemma DrawnBy(l: Ledger, op: Op)
    requires Solvent(l, DUST) && Intervening(op)
    ensures Draws(l, Step(l, op), Min(Get(l.liquid, GENESIS), WantedBy(l, op)), PaysGenesis(op))
  {
    match op
    case MintOp(miner, amount, toStake) => MintDraws(l, miner, amount, toStake);
    case MaterializeOp(address, grant) => MaterializeDraws(l, address, grant);
  }

  /** The emission comes out of the genesis balance; nothing else of that account moves but its stake. */
  lemma {:induction false} EmissionLeavesGenesis(l: Ledger, ops: seq<Op>)
    requires Solvent(l, DUST) && forall op :: op in ops ==> Intervening(op)
    ensures var t := Run(l, ops);
            && Solvent(t, DUST) && t.escrow == l.escrow && t.unbonding == l.unbonding
            && Get(t.liquid, GENESIS) == Get(l.liquid, GENESIS) - (t.emitted - l.emitted) + Returned(l, ops)
  {
    if ops != [] {
      var last := |ops| - 1;
      assert ops[last] in ops && forall op :: op in ops[..last] ==> op in ops;
      EmissionLeavesGenesis(l, ops[..last]);
      StepConserves(Run(l, ops[..last]), ops[last], DUST);
      DrawnBy(Run(l, ops[..last]), ops[last]);
    }
  }

  /** As long as nothing is paid back, the emission is what is wanted, or all there is. */
  lemma {:induction false} EmissionIsWantedOrAll(l: Ledger, ops: seq<Op>)
    requires Solvent(l, DUST) && forall op :: op in ops ==> Intervening(op) && !PaysGenesis(op)
    ensures Returned(l, ops) == 0.0 && Wanted(l, ops) >= 0.0
    ensures Run(l, ops).emitted - l.emitted == Min(Get(l.liquid, GENESIS), Wanted(l, ops))
  {
    if ops != [] {
      var last := |ops| - 1;
      assert ops[last] in ops && forall op :: op in ops[..last] ==> op in ops;
      EmissionIsWantedOrAll(l, ops[..last]);
      EmissionLeavesGenesis(l, ops[..last]);
      DrawnBy(Run(l, ops[..last]), ops[last]);
    }
  }

  /** The owner is short by an amount too small for the payment to unstake. */
  predicate DustGap(l: Ledger, owner: string, modelId: string, cost: real, height: int) {
    0.0 < cost - EscrowPart(l, modelId, cost) - PreviewLiquid(l, owner, height) <= DUST
  }

  /** Liquid funds cover a shortfall-free payment, or spendable stake fills a shortfall that is more than dust. */
  predicate Covers(liquid: real, stake: real, remainder: real) {
    remainder <= liquid || DUST < remainder - liquid <= stake
  }

  /** The owner's exits are flushed by a check that gets as far as looking at the owner's funds. */
  lemma CheckedLedger(l: Ledger, owner: string, modelId: string, cost: real, height: int, inBootstrap: bool)
    requires Solvent(l, DUST) && owner != SYSTEM
    ensures var f := CanAfford(l, owner, modelId, cost, height, inBootstrap).0;
            && Solvent(f, DUST) && f.escrow == l.escrow
            && (cost > Get(l.escrow, modelId) ==> Matured(Queue(f, owner), height) == 0.0)
  {
    FinalizeFacts(l, owner, height, DUST);
    FinalizeEffect(l, owner, height, DUST);
    PendingMaturesNothing(Queue(l, owner), height);
  }

  /**
    The check answers yes exactly when the payment would go through on the same ledger at the same height, or when
    only dust is missing during bootstrap and there is stake for it.
   */
  lemma AffordableIff(l: Ledger, owner: string, miner: string, modelId: string, cost: real, height: int,
                      inBootstrap: bool)
    requires Solvent(l, 0.0) && owner != SYSTEM
    ensures CanAfford(l, owner, modelId, cost, height, inBootstrap).1
            <==> PayForTraining(l, owner, miner, modelId, cost, height, inBootstrap).1.Accepted?
                 || (inBootstrap && DustGap(l, owner, modelId, cost, height)
                     && cost - EscrowPart(l, modelId, cost) - PreviewLiquid(l, owner, height) <= Get(l.staked, owner))
  {
    PaymentAcceptedIff(l, owner, miner, modelId, cost, height, inBootstrap, 0.0);
    FinalizeEffect(l, owner, height, 0.0);
    PendingMaturesNothing(Queue(l, owner), height);
    assert Get(l.staked, owner) >= 0.0;
  }

  /** So a no is right: the payment would be rejected. */
  lemma NoMeansRejected(l: Ledger, owner: string, miner: string, modelId: string, cost: real, height: int,
                        inBootstrap: bool)
    requires Solvent(l, 0.0) && !CanAfford(l, owner, modelId, cost, height, inBootstrap).1
    ensures PayForTraining(l, owner, miner, modelId, cost, height, inBootstrap).1.Rejected?
  {
    AffordableIff(l, owner, miner, modelId, cost, height, inBootstrap);
    PaymentAcceptedIff(l, owner, miner, modelId, cost, height, inBootstrap, 0.0);
  }

  /** The check matures the owner's exits exactly when it has to look at its funds, and changes nothing else. */
  lemma CheckFlushesIff(l: Ledger, owner: string, modelId: string, cost: real, height: int, inBootstrap: bool)
    ensures CanAfford(l, owner, modelId, cost, height, inBootstrap).0
            == if owner == SYSTEM || cost <= Get(l.escrow, modelId) then l
               else Finalize(l, owner, height)
  {
  }

  /** And the funds behind a yes, in balances: escrow, liquid and matured funds, and stake during bootstrap. */
  lemma AffordableMeans(l: Ledger, owner: string, modelId: string, cost: real, height: int, inBootstrap: bool)
    requires Solvent(l, 0.0) && owner != SYSTEM
    ensures CanAfford(l, owner, modelId, cost, height, inBootstrap).1
            <==> cost <= Get(l.escrow, modelId)
                 || cost <= Get(l.escrow, modelId) + PreviewLiquid(l, owner, height)
                            + (if inBootstrap then Get(l.staked, owner) else 0.0)
  {
    FinalizeEffect(l, owner, height, 0.0);
    PendingMaturesNothing(Queue(l, owner), height);
  }

  lemma MaturedIsNotNegative(l: Ledger, owner: string, height: int)
    requires Solvent(l, DUST)
    ensures PreviewLiquid(l, owner, height) >= 0.0
  {
    FinalizeEffect(l, owner, height, DUST);
  }

  lemma OwnedIsPayableIff(l: Ledger, owner: string, miner: string, modelId: string, cost: real, height: int,
                          inBootstrap: bool, between: seq<Op>)
    requires Solvent(l, DUST) && owner != SYSTEM && owner != GENESIS
    requires forall op :: op in between ==> Intervening(op)
    requires CanAfford(l, owner, modelId, cost, height, inBootstrap).1
    ensures var t := Run(CanAfford(l, owner, modelId, cost, height, inBootstrap).0, between);
            PayForTraining(t, owner, miner, modelId, cost, height, inBootstrap).1.Accepted?
            <==> !inBootstrap || !DustGap(t, owner, modelId, cost, height)
  {
    CheckedLedger(l, owner, modelId, cost, height, inBootstrap);
    var f := CanAfford(l, owner, modelId, cost, height, inBootstrap).0;
    InterveningRunKeepsFunds(f, between, owner);
    var t := Run(f, between);
    PaymentAcceptedIff(t, owner, miner, modelId, cost, height, inBootstrap, DUST);
    MaturedIsNotNegative(t, owner, height);
  }

  /** What the emission leaves of the genesis balance. */
  function GenesisLeft(f: Ledger, between: seq<Op>): real {
    Get(f.liquid, GENESIS) - (Run(f, between).emitted - f.emitted) + Returned(f, between)
  }

  lemma GenesisOwnedIsPayableIff(l: Ledger, miner: string, modelId: string, cost: real, height: int,
                                 inBootstrap: bool, between: seq<Op>)
    requires Solvent(l, DUST) && forall op :: op in between ==> Intervening(op)
    requires CanAfford(l, GENESIS, modelId, cost, height, inBootstrap).1
    ensures var f := CanAfford(l, GENESIS, modelId, cost, height, inBootstrap).0;
            var t := Run(f, between);
            PayForTraining(t, GENESIS, miner, modelId, cost, height, inBootstrap).1.Accepted?
            <==> Covers(GenesisLeft(f, between), if inBootstrap then Get(t.staked, GENESIS) else 0.0,
                        cost - EscrowPart(f, modelId, cost))
  {
    CheckedLedger(l, GENESIS, modelId, cost, height, inBootstrap);
    var f := CanAfford(l, GENESIS, modelId, cost, height, inBootstrap).0;
    EmissionLeavesGenesis(f, between);
    PaymentAcceptedIff(Run(f, between), GENESIS, miner, modelId, cost, height, inBootstrap, DUST);
  }

  /**
    The check predicts the payment: if it says yes, then after any rewards and materialisation the payment
    of the same cost goes through exactly when the owner is not short by mere dust during bootstrap. For
    models owned by the genesis account, which the rewards come out of, it goes through exactly when what
    the emission leaves still covers the remainder.
   */
  lemma AffordableMeansPayable(l: Ledger, owner: string, miner: string, modelId: string, cost: real, height: int,
                               inBootstrap: bool, between: seq<Op>)
    requires Solvent(l, DUST) && owner != SYSTEM && forall op :: op in between ==> Intervening(op)
    requires CanAfford(l, owner, modelId, cost, height, inBootstrap).1
    ensures var f := CanAfford(l, owner, modelId, cost, height, inBootstrap).0;
            var t := Run(f, between);
            PayForTraining(t, owner, miner, modelId, cost, height, inBootstrap).1.Accepted?
            <==> if owner == GENESIS
                 then Covers(GenesisLeft(f, between), if inBootstrap then Get(t.staked, GENESIS) else 0.0,
                             cost - EscrowPart(f, modelId, cost))
                 else !inBootstrap || !DustGap(t, owner, modelId, cost, height)
  {
    if owner == GENESIS {
      GenesisOwnedIsPayableIff(l, miner, modelId, cost, height, inBootstrap, between);
    } else {
      OwnedIsPayableIff(l, owner, miner, modelId, cost, height, inBootstrap, between);
    }
  }

  /** A shortfall of half the tolerance: the check says yes, the payment says no. */
  lemma DustBreaksThePrediction() returns (l: Ledger, cost: real)
    ensures Solvent(l, 0.0) && CanAfford(l, "owner", "model", cost, 0, true).1
    ensures PayForTraining(l, "owner", "miner", "model", cost, 0, true).1.Rejected?
  {
    l := Ledger(map["owner" := 1.0], map["owner" := 1.0], map[], map[], map[], 0.0);
    cost := 1.0 + DUST / 2.0;
  }

  /** The genesis account itself is no safe owner: the intervening reward is paid out of its balance. */
  lemma GenesisOwnerBreaksThePrediction() returns (l: Ledger, between: seq<Op>)
    ensures Solvent(l, 0.0) && CanAfford(l, GENESIS, "model", 8.0, 0, false).1
    ensures forall op :: op in between ==> Intervening(op)
    ensures PayForTraining(Run(CanAfford(l, GENESIS, "model", 8.0, 0, false).0, between),
                           GENESIS, "miner", "model", 8.0, 0, false).1.Rejected?
  {
    l := Ledger(map[GENESIS := 10.0], map[], map[], map[], map[], 0.0);
    between := [MintOp("miner", 5.0, true)];
    assert between[..0] == [];
    assert Run(l, between) == Step(l, between[0]);
  }
}
