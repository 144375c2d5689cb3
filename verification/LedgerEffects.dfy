/**
  What every operation does to every account, in balances: whose liquid funds, stake, queue, virtual stake and
  which model's escrow it changes, by how much, and that all others stay as they are.
 */
module LedgerEffects {
  import opened Basics
  import opened MapSums
  import opened Ledger
  import opened LedgerRuns
  import opened TrainingPayment

  /** No escrow but that of the model differs. */
  ghost predicate SameEscrows(l: Ledger, t: Ledger, modelId: string) {
    forall m :: m != modelId ==> Get(t.escrow, m) == Get(l.escrow, m)
  }

  /** No account but that of the address differs. */
  ghost predicate SameOthers(l: Ledger, t: Ledger, address: string) {
    forall a :: a != address ==> SameAccount(l, t, a)
  }

  /** Flushing changes how the funds of one address are spread, and nothing else. */
  lemma FlushRearranges(l: Ledger, address: string, height: int, slack: real)
    requires Solvent(l, slack)
    ensures var f := Finalize(l, address, height);
            && OnlyRearranged(l, f, address) && f.staked == l.staked && f.virtual == l.virtual
            && Get(f.liquid, address) == PreviewLiquid(l, address, height)
  {
    FinalizeEffect(l, address, height, slack);
    QueueSplits(Queue(l, address), height);
  }

  // ----- escrow

  /**
    A deposit is accepted exactly when it is of nothing, or of a positive amount that liquid and matured funds
    cover; then the escrow of that model has so much more and the payer owns so much less.
   */
  lemma DepositIff(l: Ledger, payer: string, modelId: string, amount: real, height: int, slack: real)
    requires Solvent(l, slack)
    ensures var (t, r) := DepositEscrow(l, payer, modelId, amount, height);
            && (r.Accepted? <==> amount == 0.0 || (amount > 0.0 && PreviewLiquid(l, payer, height) >= amount))
            && (r.Accepted? ==> Get(t.escrow, modelId) == Get(l.escrow, modelId) + amount
                                && Owned(t, payer) == Owned(l, payer) - amount
                                && Get(t.staked, payer) == Get(l.staked, payer))
            && (r.Accepted? && amount > 0.0 ==>
                  Get(t.liquid, payer) == PreviewLiquid(l, payer, height) - amount)
            && (!r.Accepted? ==> r.Rejected? && OnlyRearranged(l, t, payer))
            && SameEscrows(l, t, modelId) && SameOthers(l, t, payer)
  {
    FlushRearranges(l, payer, height, slack);
  }

  /** What an operation puts into the escrow of a model. */
  function DepositedBy(l: Ledger, op: Op, modelId: string): real {
    if op.DepositOp? && op.modelId == modelId && op.amount > 0.0 && PreviewLiquid(l, op.payer, op.height) >= op.amount
    then op.amount else 0.0
  }

  /** What a payment that goes through takes out of it: the cost, as far as there is something. */
  function TakenBy(l: Ledger, op: Op, modelId: string): real {
    if op.PaymentOp? && op.modelId == modelId && op.amount > 0.0
       && PayForTraining(l, op.payer, op.miner, modelId, op.amount, op.height, op.debitStake).1.Accepted?
    then if op.amount < Get(l.escrow, modelId) then op.amount else Get(l.escrow, modelId)
    else 0.0
  }

  lemma SystemPaymentEscrow(l: Ledger, miner: string, modelId: string, cost: real, height: int, debitStake: bool)
    requires AtLeast(l.escrow, 0.0)
    ensures var (t, r) := PayForTraining(l, SYSTEM, miner, modelId, cost, height, debitStake);
            && r.Accepted? && SameEscrows(l, t, modelId)
            && Get(t.escrow, modelId) == Get(l.escrow, modelId) - Max(0.0, EscrowPart(l, modelId, cost))
  {
  }

  lemma PaymentEscrow(l: Ledger, payer: string, miner: string, modelId: string, cost: real, height: int,
                      debitStake: bool, slack: real)
    requires Solvent(l, slack)
    ensures var (t, r) := PayForTraining(l, payer, miner, modelId, cost, height, debitStake);
            && SameEscrows(l, t, modelId)
            && Get(t.escrow, modelId)
               == Get(l.escrow, modelId) - (if r.Accepted? then Max(0.0, EscrowPart(l, modelId, cost)) else 0.0)
  {
    if payer == SYSTEM {
      SystemPaymentEscrow(l, miner, modelId, cost, height, debitStake);
    } else {
      var ready := PaymentForm(l, payer, miner, modelId, cost, height, debitStake, slack);
    }
  }

  lemma OpOnEscrow(l: Ledger, op: Op, modelId: string, slack: real, t: Ledger)
    requires Solvent(l, slack) && t == Step(l, op)
    ensures Get(t.escrow, modelId) == Get(l.escrow, modelId) + DepositedBy(l, op, modelId) - TakenBy(l, op, modelId)
  {
    match op
    case DepositOp(payer, id, amount, height) => DepositIff(l, payer, id, amount, height, slack);
    case PaymentOp(payer, miner, id, amount, height, debitStake) =>
      PaymentEscrow(l, payer, miner, id, amount, height, debitStake, slack);
    case _ => OtherOpKeepsEscrow(l, op);
  }

  lemma OtherOpKeepsEscrow(l: Ledger, op: Op)
    requires !op.DepositOp? && !op.PaymentOp?
    ensures Step(l, op).escrow == l.escrow
  {
  }

  ghost function DepositedInto(l: Ledger, ops: seq<Op>, modelId: string): real {
    if ops == [] then 0.0
    else
      DepositedInto(l, ops[..|ops| - 1], modelId) + DepositedBy(Run(l, ops[..|ops| - 1]), ops[|ops| - 1], modelId)
  }

  ghost function TakenFrom(l: Ledger, ops: seq<Op>, modelId: string): real {
    if ops == [] then 0.0
    else TakenFrom(l, ops[..|ops| - 1], modelId) + TakenBy(Run(l, ops[..|ops| - 1]), ops[|ops| - 1], modelId)
  }

  /** Over every run a model's escrow is what it was, plus the deposits for it, less what payments took. */
  lemma {:induction false} EscrowIsAccounted(l: Ledger, ops: seq<Op>, modelId: string)
    requires Solvent(l, DUST) && forall k :: 0 <= k < |ops| ==> Proper(ops[k])
    ensures Get(Run(l, ops).escrow, modelId)
            == Get(l.escrow, modelId) + DepositedInto(l, ops, modelId) - TakenFrom(l, ops, modelId)
    ensures Solvent(Run(l, ops), DUST)
  {
    if ops != [] {
      var last := |ops| - 1;
      EscrowIsAccounted(l, ops[..last], modelId);
      StepConserves(Run(l, ops[..last]), ops[last], DUST);
      OpOnEscrow(Run(l, ops[..last]), ops[last], modelId, DUST, Run(l, ops));
    }
  }

  // ----- stake

  /** Staking is accepted exactly when liquid and matured funds cover it, and moves exactly the amount into stake. */
  lemma StakeIff(l: Ledger, address: string, amount: real, height: int, slack: real)
    requires Solvent(l, slack) && amount > 0.0
    ensures var (t, r) := Stake(l, address, amount, height);
            && r != MissingAccount && (r.Accepted? <==> PreviewLiquid(l, address, height) >= amount)
            && Owned(t, address) == Owned(l, address) && SameOthers(l, t, address) && t.escrow == l.escrow
            && Get(t.liquid, address) == PreviewLiquid(l, address, height) - (if r.Accepted? then amount else 0.0)
            && Get(t.staked, address) == Get(l.staked, address) + (if r.Accepted? then amount else 0.0)
  {
    FlushRearranges(l, address, height, slack);
  }

  /**
    Unstaking is accepted exactly for a positive amount within the stake, or within the tolerance of it when it
    has to wait. Without a cooldown the amount is liquid at once, otherwise it is queued until height plus cooldown.
   */
  lemma UnstakeIff(l: Ledger, address: string, amount: real, height: int, cooldown: int)
    ensures var (t, r) := RequestUnstake(l, address, amount, height, cooldown);
            && (r.Accepted? <==> amount > 0.0 && cooldown >= 0
                                 && amount <= Get(l.staked, address) + (if cooldown == 0 then 0.0 else DUST))
            && (!r.Accepted? ==> r.Rejected? && t == l)
            && (r.Accepted? ==>
                  && Get(t.staked, address) == Get(l.staked, address) - amount
                  && SameOthers(l, t, address) && t.escrow == l.escrow && t.virtual == l.virtual
                  && Get(t.liquid, address) == Get(l.liquid, address) + (if cooldown == 0 then amount else 0.0)
                  && Queue(t, address)
                     == Queue(l, address) + (if cooldown == 0 then [] else [Exit(amount, height + cooldown)]))
  {
  }

  /** A penalty comes out of stake first, then out of the liquid balance, and never takes more than both. */
  lemma PenaltyIs(l: Ledger, miner: string, penalty: real)
    requires penalty >= 0.0 && Get(l.staked, miner) >= 0.0 && Get(l.liquid, miner) >= 0.0
    ensures var t := Penalize(l, miner, penalty);
            && (penalty <= Get(l.staked, miner) ==>
                  && Get(t.staked, miner) == Get(l.staked, miner) - penalty
                  && Get(t.liquid, miner) == Get(l.liquid, miner))
            && (penalty >= Get(l.staked, miner) ==> Get(t.staked, miner) == 0.0)
            && (Get(l.staked, miner) <= penalty <= Get(l.staked, miner) + Get(l.liquid, miner) ==>
                  Get(t.liquid, miner) == Get(l.staked, miner) + Get(l.liquid, miner) - penalty)
            && (penalty >= Get(l.staked, miner) + Get(l.liquid, miner) ==> Get(t.liquid, miner) == 0.0)
            && SameOthers(l, t, miner) && Queue(t, miner) == Queue(l, miner)
            && t.escrow == l.escrow && t.virtual == l.virtual
  {
  }

  // ----- rewards, and what comes out of the genesis account

  /** A reward is paid as far as genesis has it: to stake or to the balance, out of genesis, and counted as emitted. */
  lemma MintIs(l: Ledger, miner: string, amount: real, toStake: bool)
    requires amount > 0.0 && Get(l.liquid, GENESIS) >= 0.0 && miner != GENESIS
    ensures var (t, r) := Mint(l, miner, amount, toStake);
            var paid := if amount < Get(l.liquid, GENESIS) then amount else Get(l.liquid, GENESIS);
            && (r.Accepted? <==> Get(l.liquid, GENESIS) > 0.0) && (!r.Accepted? ==> r.Rejected?)
            && Get(t.liquid, GENESIS) == Get(l.liquid, GENESIS) - paid && t.emitted == l.emitted + paid
            && Get(t.staked, miner) == Get(l.staked, miner) + (if toStake then paid else 0.0)
            && Get(t.liquid, miner) == Get(l.liquid, miner) + (if toStake then 0.0 else paid)
            && (forall a :: a != miner && a != GENESIS ==> SameAccount(l, t, a))
            && t.escrow == l.escrow && t.unbonding == l.unbonding && t.virtual == l.virtual
            && Get(t.staked, GENESIS) == Get(l.staked, GENESIS)
  {
  }

  /** A reward of nothing is accepted and does nothing. */
  lemma NoReward(l: Ledger, miner: string, amount: real, toStake: bool)
    requires amount <= 0.0
    ensures Mint(l, miner, amount, toStake) == (l, Accepted)
  {
  }

  /** What genesis pays of what is wanted: all of it, or all it has. */
  lemma DrawIs(l: Ledger, address: string, grant: real)
    requires Get(l.virtual, address) + grant >= 0.0 && Get(l.liquid, GENESIS) >= 0.0
    ensures var wanted, paid := Get(l.virtual, address) + grant, MaterializeDraw(l, address, grant);
            && paid == (if wanted < Get(l.liquid, GENESIS) then wanted else Get(l.liquid, GENESIS)) && paid >= 0.0
  {
  }

  /**
    Materialising a survivor: the virtual stake is gone, and the stake is what it was plus virtual stake and grant,
    as far as genesis has them.
   */
  lemma MaterializeIs(l: Ledger, address: string, grant: real, t: Ledger, paid: real)
    requires Get(l.virtual, address) + grant >= 0.0 && Get(l.liquid, GENESIS) >= 0.0 && Get(l.staked, address) >= 0.0
    requires t == Materialize(l, address, grant)
    requires var wanted := Get(l.virtual, address) + grant;
             paid == if wanted < Get(l.liquid, GENESIS) then wanted else Get(l.liquid, GENESIS)
    ensures Get(t.staked, address) == Get(l.staked, address) + paid && address !in t.virtual
    ensures Get(t.liquid, GENESIS) == Get(l.liquid, GENESIS) - paid && t.emitted == l.emitted + paid
    ensures forall a :: a != address ==> Get(t.staked, a) == Get(l.staked, a) && Get(t.virtual, a) == Get(l.virtual, a)
    ensures forall a :: a != GENESIS ==> Get(t.liquid, a) == Get(l.liquid, a)
    ensures t.escrow == l.escrow && t.unbonding == l.unbonding
  {
    DrawIs(l, address, grant);
    var drawn := DrawGenesis(SlashBootstrap(l, address), paid);
    assert Get(drawn.liquid, GENESIS) == Get(l.liquid, GENESIS) - paid && drawn.emitted == l.emitted + paid;
    assert drawn.staked == l.staked - {address} && drawn.virtual == l.virtual - {address};
    assert t.liquid == drawn.liquid && t.virtual == drawn.virtual && t.emitted == drawn.emitted;
    assert t.staked == if Get(l.staked, address) + paid <= 0.0 then drawn.staked
                       else Credit(drawn.staked, address, Get(l.staked, address) + paid);
  }

  /** The system account pays with new money. */
  lemma SystemTransferIs(l: Ledger, payee: string, amount: real, height: int)
    ensures var (t, r) := Transfer(l, SYSTEM, payee, amount, height);
            && r.Accepted? && SameOthers(l, t, payee) && t.escrow == l.escrow && t.staked == l.staked
            && Get(t.liquid, payee) == Get(l.liquid, payee) + amount
  {
  }

  /** Everybody else pays exactly when liquid and matured funds cover it, and out of them. */
  lemma TransferIs(l: Ledger, payer: string, payee: string, amount: real, height: int, slack: real)
    requires Solvent(l, slack) && amount > 0.0 && payer != payee && payer != SYSTEM
    ensures var (t, r) := Transfer(l, payer, payee, amount, height);
            && (r.Accepted? <==> PreviewLiquid(l, payer, height) >= amount)
            && (r.Accepted? ==>
                  && Get(t.liquid, payer) == PreviewLiquid(l, payer, height) - amount
                  && Get(t.liquid, payee) == Get(l.liquid, payee) + amount
                  && Owned(t, payer) == Owned(l, payer) - amount && Owned(t, payee) == Owned(l, payee) + amount
                  && t.escrow == l.escrow && forall a :: a != payer && a != payee ==> SameAccount(l, t, a))
  {
    var f := Finalize(l, payer, height);
    FlushRearranges(l, payer, height, slack);
    TransferMoves(l, payer, payee, amount, height, slack);
    MovedIs(f, payer, payee, amount);
    MovedAfterFlush(l, f, Moved(f, payer, payee, amount), payer, payee, amount);
  }

  lemma MovedIs(f: Ledger, payer: string, payee: string, amount: real)
    requires payer != payee
    ensures var t := Moved(f, payer, payee, amount);
            && Get(t.liquid, payer) == Get(f.liquid, payer) - amount
            && Get(t.liquid, payee) == Get(f.liquid, payee) + amount
            && t.staked == f.staked && t.unbonding == f.unbonding && t.escrow == f.escrow
            && forall a :: a != payer && a != payee ==> SameAccount(f, t, a)
  {
  }

  lemma MovedAfterFlush(l: Ledger, f: Ledger, t: Ledger, payer: string, payee: string, amount: real)
    requires OnlyRearranged(l, f, payer) && payer != payee
    requires Get(t.liquid, payer) == Get(f.liquid, payer) - amount
    requires Get(t.liquid, payee) == Get(f.liquid, payee) + amount
    requires t.staked == f.staked && t.unbonding == f.unbonding && t.escrow == f.escrow
    requires forall a :: a != payer && a != payee ==> SameAccount(f, t, a)
    ensures Owned(t, payer) == Owned(l, payer) - amount && Owned(t, payee) == Owned(l, payee) + amount
    ensures Get(t.liquid, payee) == Get(l.liquid, payee) + amount && t.escrow == l.escrow
    ensures forall a :: a != payer && a != payee ==> SameAccount(l, t, a)
  {
    assert SameAccount(l, f, payee) && Queue(t, payee) == Queue(f, payee) && Queue(t, payer) == Queue(f, payer);
    forall a | a != payer && a != payee ensures SameAccount(l, t, a) {
      assert SameAccount(l, f, a) && SameAccount(f, t, a);
    }
  }

  /** Virtual stake is no money: a grant of it changes nothing else. */
  lemma GrantIs(l: Ledger, address: string, amount: real)
    ensures var t := GrantVirtual(l, address, amount);
            && Get(t.virtual, address) == Get(l.virtual, address) + amount
            && (forall a :: a != address ==> Get(t.virtual, a) == Get(l.virtual, a))
            && t.liquid == l.liquid && t.staked == l.staked && t.escrow == l.escrow && t.unbonding == l.unbonding
  {
  }

  // ----- the queue

  /** What an exit is worth at a height: all of it from its unlock height on, and nothing before. */
  lemma {:induction false} MaturedIs(q: seq<Exit>, e: Exit, height: int)
    ensures Matured(q + [e], height) == Matured(q, height) + (if e.unlock <= height then e.amount else 0.0)
    ensures Pending(q + [e], height) == Pending(q, height) + (if e.unlock <= height then [] else [e])
  {
    assert (q + [e])[..|q|] == q;
  }
}
