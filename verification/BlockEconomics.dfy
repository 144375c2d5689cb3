/**
  What a finalised block does to the ledger: materialisation when the bootstrap period ends, the block
  reward, the training payment and the bootstrap ranking; and the check made before training starts.
 */
module BlockEconomics {
  import opened Basics
  import opened MapSums
  import opened Ledger
  import opened LedgerRuns
  import opened TrainingPayment
  import B = Bootstrap

  datatype Terms = Terms(initialSupply: real, annualBootstrap: real, annualAfter: real, miningReward: real,
                         blocksPerYear: real, perStep: real, materializationGrant: real)

  /** The ledger with the bootstrap registry, and whether the survivors were materialised. */
  datatype State = State(boot: B.State, materialized: bool)

  function OwnerOf(owners: map<string, string>, modelId: string): string {
    if modelId in owners then owners[modelId] else SYSTEM
  }

  function BaseReward(cfg: B.Config, terms: Terms, height: int): real {
    if cfg.periodBlocks > 0
    then terms.initialSupply * (if height < cfg.periodBlocks then terms.annualBootstrap else terms.annualAfter)
         / Max(1.0, terms.blocksPerYear)
    else terms.miningReward
  }

  function BlockReward(cfg: B.Config, terms: Terms, block: Block): real {
    BaseReward(cfg, terms, block.index) + block.steps as real * 0.01
  }

  predicate Materializes(cfg: B.Config, s: State, block: Block) {
    cfg.periodBlocks > 0 && block.index == cfg.periodBlocks && !s.materialized
  }

  function MaterializeOps(survivors: seq<B.Entry>, grant: real): seq<Op> {
    if survivors == [] then []
    else
      MaterializeOps(survivors[..|survivors| - 1], grant)
      + [MaterializeOp(survivors[|survivors| - 1].address, grant)]
  }

  function Materializations(cfg: B.Config, terms: Terms, s: State, block: Block): seq<Op> {
    if Materializes(cfg, s, block)
    then MaterializeOps(B.Participants(s.boot.registry, s.boot.slashed), terms.materializationGrant) else []
  }

  function RewardOp(cfg: B.Config, terms: Terms, block: Block): Op {
    MintOp(block.miner, BlockReward(cfg, terms, block), cfg.periodBlocks > 0)
  }

  /** What happens to the ledger before the training payment. */
  function BeforePayment(cfg: B.Config, terms: Terms, s: State, block: Block): seq<Op> {
    Materializations(cfg, terms, s, block) + [RewardOp(cfg, terms, block)]
  }

  function BlockCost(terms: Terms, block: Block): real { TrainingCost(terms.perStep, block.steps, block.sizeBytes) }

  /** The payment for a block, from the ledger before it; models without an owner pay nothing. */
  function Payment(cfg: B.Config, terms: Terms, owners: map<string, string>, l: Ledger, block: Block):
    (Ledger, Outcome)
  {
    var owner := OwnerOf(owners, block.modelId);
    if owner == SYSTEM then (l, Accepted)
    else PayForTraining(l, owner, block.miner, block.modelId, BlockCost(terms, block), block.index,
                        B.InPeriod(cfg, block.index))
  }

  /** A missing balance entry aborts the block's economics before the ranking. */
  function AfterBlock(cfg: B.Config, terms: Terms, owners: map<string, string>, s: State, block: Block): State {
    var (paid, outcome) := Payment(cfg, terms, owners, Run(s.boot.ledger, BeforePayment(cfg, terms, s, block)), block);
    var boot := s.boot.(ledger := paid);
    State(if outcome.MissingAccount? then boot else B.RankingSlash(cfg, boot, block.index),
          s.materialized || Materializes(cfg, s, block))
  }

  class EnhancedConsensus {
    const terms: Terms
    const registry: B.BootstrapRegistry
    var modelOwners: map<string, string>
    var materialized: bool

    ghost function View(): State
      reads this, registry, registry.economy
    {
      State(registry.View(), materialized)
    }

    constructor (terms: Terms, registry: B.BootstrapRegistry)
      ensures this.terms == terms && this.registry == registry && modelOwners == map[] && !materialized
    {
      this.terms, this.registry, modelOwners, materialized := terms, registry, map[], false;
    }

    /** The pre-flight check; it flushes the owner's matured exits on the way. */
    method CanOwnerAffordTraining(modelId: string, steps: int, height: int, chain: seq<Block>,
                                  catalogBytes: Option<int>)
      returns (affordable: bool, cost: real)
      modifies registry.economy
      ensures cost == if OwnerOf(modelOwners, modelId) == SYSTEM then 0.0
                      else TrainingCost(terms.perStep, steps, EstimatedSize(chain, catalogBytes, modelId))
      ensures (registry.economy.State(), affordable)
              == CanAfford(old(registry.economy.State()), OwnerOf(modelOwners, modelId), modelId, cost, height,
                           B.InPeriod(registry.cfg, height))
      ensures !affordable && Solvent(old(registry.economy.State()), 0.0) ==>
                forall miner :: PayForTraining(old(registry.economy.State()), OwnerOf(modelOwners, modelId), miner,
                                               modelId, cost, height, B.InPeriod(registry.cfg, height)).1.Rejected?
    {
      ghost var before, paidBy := registry.economy.State(), OwnerOf(modelOwners, modelId);
      var owner := if modelId in modelOwners then modelOwners[modelId] else SYSTEM;
      if owner == SYSTEM {
        return true, 0.0;
      }
      cost := EstimateTrainingCost(chain, catalogBytes, terms.perStep, modelId, steps);
      var remainder := Max(0.0, cost - Get(registry.economy.modelTrainingEscrow, modelId));
      if remainder <= 0.0 {
        return true, cost;
      }
      var _ := registry.economy.FinalizeMaturedUnstakes(owner, height);
      var liquid := registry.economy.PreviewTransferableLiquid(owner, height);
      var staked := if B.InPeriod(registry.cfg, height) then Get(registry.economy.stakedAmounts, owner) else 0.0;
      affordable := liquid + staked >= remainder;
      if !affordable && Solvent(before, 0.0) {
        ghost var early := B.InPeriod(registry.cfg, height);
        forall miner ensures PayForTraining(before, paidBy, miner, modelId, cost, height, early).1.Rejected? {
          NoMeansRejected(before, paidBy, miner, modelId, cost, height, early);
        }
      }
    }

    method ProcessBlockEconomics(block: Block)
      requires registry.Valid()
      modifies this, registry, registry.economy
      ensures registry.Valid() && modelOwners == old(modelOwners)
      ensures View() == AfterBlock(registry.cfg, terms, modelOwners, old(View()), block)
    {
      PrepareBlock(block);
      var r := PayBlock(block);
      if r.MissingAccount? {
        return;
      }
      registry.BootstrapRankingSlash(block.index);
    }

    /** Materialisation if it is due, then the block reward. */
    method PrepareBlock(block: Block)
      modifies `materialized, registry.economy
      ensures materialized == (old(materialized) || Materializes(registry.cfg, old(View()), block))
      ensures registry.economy.State()
              == Run(old(registry.economy.State()), BeforePayment(registry.cfg, terms, old(View()), block))
    {
      ghost var before := Materializations(registry.cfg, terms, View(), block);
      if registry.cfg.periodBlocks > 0 && block.index == registry.cfg.periodBlocks && !materialized {
        FinalizeBootstrapMaterialization();
      }
      RunSnoc(old(registry.economy.State()), before, RewardOp(registry.cfg, terms, block));
      var _ := registry.economy.MintFromGenesis(block.miner, BlockReward(registry.cfg, terms, block),
                                                registry.cfg.periodBlocks > 0);
    }

    method PayBlock(block: Block) returns (r: Outcome)
      modifies registry.economy
      ensures (registry.economy.State(), r)
              == Payment(registry.cfg, terms, modelOwners, old(registry.economy.State()), block)
    {
      var owner := if block.modelId in modelOwners then modelOwners[block.modelId] else SYSTEM;
      if owner == SYSTEM {
        return Accepted;
      }
      r := registry.economy.ProcessTrainingPayment(owner, block.miner, block.modelId, BlockCost(terms, block),
                                                   block.index, B.InPeriod(registry.cfg, block.index));
    }

    method FinalizeBootstrapMaterialization()
      modifies `materialized, registry.economy
      ensures materialized
      ensures registry.economy.State()
              == Run(old(registry.economy.State()),
                     MaterializeOps(B.Participants(registry.registry, registry.slashed), terms.materializationGrant))
    {
      var survivors := registry.CurrentParticipants();
      for i := 0 to |survivors|
        invariant registry.economy.State()
                  == Run(old(registry.economy.State()), MaterializeOps(survivors[..i], terms.materializationGrant))
      {
        MaterializeOneMore(old(registry.economy.State()), survivors, i, terms.materializationGrant);
        registry.economy.MaterializeBootstrapSurvivor(survivors[i].address, terms.materializationGrant);
      }
      assert survivors[..|survivors|] == survivors;
      materialized := true;
    }
  }

  lemma MaterializeOneMore(l: Ledger, survivors: seq<B.Entry>, i: nat, grant: real)
    requires i < |survivors|
    ensures Run(l, MaterializeOps(survivors[..i + 1], grant))
            == Materialize(Run(l, MaterializeOps(survivors[..i], grant)), survivors[i].address, grant)
  {
    assert survivors[..i + 1][..i] == survivors[..i];
    RunSnoc(l, MaterializeOps(survivors[..i], grant), MaterializeOp(survivors[i].address, grant));
  }

  lemma {:induction false} MaterializationsIntervene(survivors: seq<B.Entry>, grant: real)
    ensures forall op :: op in MaterializeOps(survivors, grant) ==> op.MaterializeOp?
  {
    if survivors != [] {
      MaterializationsIntervene(survivors[..|survivors| - 1], grant);
    }
  }

  lemma BeforePaymentIntervenes(cfg: B.Config, terms: Terms, s: State, block: Block)
    ensures forall op :: op in BeforePayment(cfg, terms, s, block) ==> Intervening(op)
  {
    MaterializationsIntervene(B.Participants(s.boot.registry, s.boot.slashed), terms.materializationGrant);
  }

  // ----- what the block does before it pays

  /** During bootstrap no survivors are materialised yet, and the reward is staked. */
  lemma BootstrapBlockRewards(cfg: B.Config, terms: Terms, s: State, block: Block)
    requires B.InPeriod(cfg, block.index)
    ensures BeforePayment(cfg, terms, s, block) == [MintOp(block.miner, BlockReward(cfg, terms, block), true)]
  {
  }

  lemma MintAccounts(l: Ledger, miner: string, amount: real, a: string)
    requires AtLeast(l.liquid, 0.0)
    ensures var t := Mint(l, miner, amount, true).0;
            && (a != GENESIS ==> Get(t.liquid, a) == Get(l.liquid, a))
            && Get(t.staked, a) == Get(l.staked, a)
                                   + (if a == miner then Min(Get(l.liquid, GENESIS), Max(0.0, amount)) else 0.0)
            && t.escrow == l.escrow && t.unbonding == l.unbonding
  {
  }

  /** Whether the owner is short by mere dust can be seen before the block. */
  lemma DustGapIsSeenBefore(cfg: B.Config, terms: Terms, s: State, block: Block, owner: string, modelId: string,
                            cost: real)
    requires Solvent(s.boot.ledger, DUST) && B.InPeriod(cfg, block.index) && owner != GENESIS
    ensures DustGap(Run(s.boot.ledger, BeforePayment(cfg, terms, s, block)), owner, modelId, cost, block.index)
            <==> DustGap(s.boot.ledger, owner, modelId, cost, block.index)
  {
    BootstrapBlockRewards(cfg, terms, s, block);
    RunSnoc(s.boot.ledger, [], MintOp(block.miner, BlockReward(cfg, terms, block), true));
    MintAccounts(s.boot.ledger, block.miner, BlockReward(cfg, terms, block), owner);
  }

  /** What a block leaves of the genesis balance, from the ledger before it. */
  function LeftByBlock(cfg: B.Config, terms: Terms, s: State, block: Block): real {
    var before := Get(s.boot.ledger.liquid, GENESIS);
    if block.miner == GENESIS && cfg.periodBlocks <= 0 then before
    else before - Min(before, Wanted(s.boot.ledger, BeforePayment(cfg, terms, s, block)))
  }

  /** The stake the genesis account can spend on a block: during bootstrap, with a reward of its own. */
  function StakeForBlock(cfg: B.Config, terms: Terms, s: State, block: Block): real {
    var l := s.boot.ledger;
    if !B.InPeriod(cfg, block.index) then 0.0
    else Get(l.staked, GENESIS)
         + if block.miner == GENESIS then Min(Get(l.liquid, GENESIS), Max(0.0, BlockReward(cfg, terms, block))) else 0.0
  }

  lemma GenesisAfterBlock(cfg: B.Config, terms: Terms, s: State, block: Block)
    requires Solvent(s.boot.ledger, DUST)
    ensures GenesisLeft(s.boot.ledger, BeforePayment(cfg, terms, s, block)) == LeftByBlock(cfg, terms, s, block)
  {
    var l, ops := s.boot.ledger, BeforePayment(cfg, terms, s, block);
    BeforePaymentIntervenes(cfg, terms, s, block);
    MaterializationsIntervene(B.Participants(s.boot.registry, s.boot.slashed), terms.materializationGrant);
    if block.miner == GENESIS && cfg.periodBlocks <= 0 {
      assert ops == [RewardOp(cfg, terms, block)];
      PaidBackInFull(l, RewardOp(cfg, terms, block));
    } else {
      EmissionIsWantedOrAll(l, ops);
    }
  }

  lemma PaidBackInFull(l: Ledger, op: Op)
    requires Solvent(l, DUST) && PaysGenesis(op)
    ensures GenesisLeft(l, [op]) == Get(l.liquid, GENESIS)
  {
    assert [op][..0] == [] && Run(l, []) == l && Returned(l, []) == 0.0;
    DrawnBy(l, op);
    assert Returned(l, [op]) == Min(Get(l.liquid, GENESIS), WantedBy(l, op));
  }

  lemma GenesisStakeAfterBlock(cfg: B.Config, terms: Terms, s: State, block: Block)
    requires Solvent(s.boot.ledger, DUST) && B.InPeriod(cfg, block.index)
    ensures Get(Run(s.boot.ledger, BeforePayment(cfg, terms, s, block)).staked, GENESIS)
            == StakeForBlock(cfg, terms, s, block)
  {
    BootstrapBlockRewards(cfg, terms, s, block);
    RunSnoc(s.boot.ledger, [], MintOp(block.miner, BlockReward(cfg, terms, block), true));
    MintAccounts(s.boot.ledger, block.miner, BlockReward(cfg, terms, block), GENESIS);
  }

  // ----- the check and the block

  /** The block comes with the steps and the size the cost was estimated for. */
  predicate BuiltAsEstimated(terms: Terms, block: Block, chain: seq<Block>, catalogBytes: Option<int>, estimate: real) {
    && block.sizeBytes == EstimatedSize(chain, catalogBytes, block.modelId)
    && estimate == TrainingCost(terms.perStep, block.steps, EstimatedSize(chain, catalogBytes, block.modelId))
  }

  /** Whether the payment goes through, from the ledger at the time of the check and the block to come. */
  predicate WillBePaid(cfg: B.Config, terms: Terms, s: State, block: Block, owner: string, estimate: real) {
    if owner == GENESIS
    then Covers(LeftByBlock(cfg, terms, s, block), StakeForBlock(cfg, terms, s, block),
                estimate - EscrowPart(s.boot.ledger, block.modelId, estimate))
    else !B.InPeriod(cfg, block.index) || !DustGap(s.boot.ledger, owner, block.modelId, estimate, block.index)
  }

  lemma PaidIffForeseen(cfg: B.Config, terms: Terms, l: Ledger, s: State, block: Block, owner: string, estimate: real)
    requires Solvent(l, DUST) && owner != SYSTEM
    requires (s.boot.ledger, true)
             == CanAfford(l, owner, block.modelId, estimate, block.index, B.InPeriod(cfg, block.index))
    ensures PayForTraining(Run(s.boot.ledger, BeforePayment(cfg, terms, s, block)), owner, block.miner, block.modelId,
                           estimate, block.index, B.InPeriod(cfg, block.index)).1.Accepted?
            <==> WillBePaid(cfg, terms, s, block, owner, estimate)
  {
    BeforePaymentIntervenes(cfg, terms, s, block);
    CheckedLedger(l, owner, block.modelId, estimate, block.index, B.InPeriod(cfg, block.index));
    AffordableMeansPayable(l, owner, block.miner, block.modelId, estimate, block.index,
                           B.InPeriod(cfg, block.index), BeforePayment(cfg, terms, s, block));
    if owner == GENESIS {
      GenesisAfterBlock(cfg, terms, s, block);
      if B.InPeriod(cfg, block.index) {
        GenesisStakeAfterBlock(cfg, terms, s, block);
      }
    } else if B.InPeriod(cfg, block.index) {
      DustGapIsSeenBefore(cfg, terms, s, block, owner, block.modelId, estimate);
    }
  }

  /**
    If the check says the owner of a model can afford a block, and the block then comes with the steps and
    the size of the estimate, its payment goes through exactly when `WillBePaid` foresees it: always, but
    for a shortfall of mere dust during bootstrap, and for genesis as the owner of the model. A payment
    that goes through pays the miner in full and takes exactly the cost; any other takes nothing.
   */
  lemma CheckedBlockIsPaid(cfg: B.Config, terms: Terms, owners: map<string, string>, l: Ledger, s: State, block: Block,
                           chain: seq<Block>, catalogBytes: Option<int>, estimate: real)
    requires Solvent(l, DUST) && OwnerOf(owners, block.modelId) != SYSTEM
    requires BuiltAsEstimated(terms, block, chain, catalogBytes, estimate)
    requires (s.boot.ledger, true)
             == CanAfford(l, OwnerOf(owners, block.modelId), block.modelId, estimate, block.index,
                          B.InPeriod(cfg, block.index))
    ensures var owner, t := OwnerOf(owners, block.modelId), Run(s.boot.ledger, BeforePayment(cfg, terms, s, block));
            var (paid, outcome) := Payment(cfg, terms, owners, t, block);
            var fromEscrow := EscrowPart(s.boot.ledger, block.modelId, estimate);
            && (outcome.Accepted? <==> WillBePaid(cfg, terms, s, block, owner, estimate))
            && (outcome.Accepted? && estimate >= 0.0 ==>
                  PaidExactly(t, paid, owner, block.miner, block.modelId, fromEscrow, estimate - fromEscrow))
            && (!outcome.Accepted? ==> OnlyRearranged(t, paid, owner))
  {
    var owner, t := OwnerOf(owners, block.modelId), Run(s.boot.ledger, BeforePayment(cfg, terms, s, block));
    var (paid, outcome) := Payment(cfg, terms, owners, t, block);
    PaidIffForeseen(cfg, terms, l, s, block, owner, estimate);
    BeforePaymentIntervenes(cfg, terms, s, block);
    CheckedLedger(l, owner, block.modelId, estimate, block.index, B.InPeriod(cfg, block.index));
    EmissionLeavesGenesis(s.boot.ledger, BeforePayment(cfg, terms, s, block));
    PaymentIsExact(t, paid, outcome, owner, block.miner, block.modelId, estimate, block.index,
                   B.InPeriod(cfg, block.index));
  }

  lemma PaymentIsExact(t: Ledger, paid: Ledger, outcome: Outcome, owner: string, miner: string, modelId: string,
                       cost: real, height: int, debitStake: bool)
    requires Solvent(t, DUST) && owner != SYSTEM
    requires PayForTraining(t, owner, miner, modelId, cost, height, debitStake) == (paid, outcome)
    ensures var fromEscrow := EscrowPart(t, modelId, cost);
            outcome.Accepted? && cost >= 0.0 ==>
              PaidExactly(t, paid, owner, miner, modelId, fromEscrow, cost - fromEscrow)
    ensures !outcome.Accepted? ==> OnlyRearranged(t, paid, owner)
  {
    PaymentAcceptedIff(t, owner, miner, modelId, cost, height, debitStake, DUST);
    if outcome.Accepted? && cost >= 0.0 {
      AcceptedPaymentIsExact(t, paid, owner, miner, modelId, cost, height, debitStake, DUST);
    }
    if !outcome.Accepted? {
      RejectedPaymentTakesNothing(t, paid, owner, miner, modelId, cost, height, debitStake, DUST);
    }
  }

  // ----- a whole block conserves

  lemma BeforePaymentSolvent(cfg: B.Config, terms: Terms, s: State, block: Block)
    requires Solvent(s.boot.ledger, 0.0)
    ensures var t := Run(s.boot.ledger, BeforePayment(cfg, terms, s, block));
            Solvent(t, 0.0) && Holdings(t) == Holdings(s.boot.ledger)
  {
    BeforePaymentIntervenes(cfg, terms, s, block);
    InterveningConserves(s.boot.ledger, BeforePayment(cfg, terms, s, block));
  }

  lemma {:induction false} InterveningConserves(l: Ledger, ops: seq<Op>)
    requires Solvent(l, 0.0) && forall op :: op in ops ==> Intervening(op)
    ensures Solvent(Run(l, ops), 0.0) && Holdings(Run(l, ops)) == Holdings(l)
  {
    if ops != [] {
      var last := |ops| - 1;
      assert ops[last] in ops && forall op :: op in ops[..last] ==> op in ops;
      InterveningConserves(l, ops[..last]);
      StepConserves(Run(l, ops[..last]), ops[last], 0.0);
      assert Injected(Run(l, ops[..last]), ops[last]) == 0.0;
    }
  }

  /** The stake the slashed addresses held. */
  function SlashedStake(l: Ledger, addresses: seq<string>): real {
    if addresses == [] then 0.0
    else
      var last := |addresses| - 1;
      SlashedStake(l, addresses[..last]) + Get(B.SlashAll(l, addresses[..last]).staked, addresses[last])
  }

  lemma {:induction false} SlashingRemoves(l: Ledger, addresses: seq<string>)
    requires Solvent(l, 0.0)
    ensures Solvent(B.SlashAll(l, addresses), 0.0)
    ensures Holdings(B.SlashAll(l, addresses)) == Holdings(l) - SlashedStake(l, addresses)
            && SlashedStake(l, addresses) >= 0.0
  {
    if addresses != [] {
      var last := |addresses| - 1;
      SlashingRemoves(l, addresses[..last]);
      StepConserves(B.SlashAll(l, addresses[..last]), SlashOp(addresses[last]), 0.0);
    }
  }

  /** The payment itself is never aborted, and leaves the total alone. */
  lemma PaymentConserves(cfg: B.Config, terms: Terms, owners: map<string, string>, l: Ledger, block: Block)
    requires Solvent(l, 0.0)
    ensures var (t, r) := Payment(cfg, terms, owners, l, block);
            Solvent(t, 0.0) && Holdings(t) == Holdings(l) && r != MissingAccount
  {
    var owner := OwnerOf(owners, block.modelId);
    if owner != SYSTEM {
      var op := PaymentOp(owner, block.miner, block.modelId, BlockCost(terms, block), block.index,
                          B.InPeriod(cfg, block.index));
      StepConserves(l, op, 0.0);
      PaymentAcceptedIff(l, owner, block.miner, block.modelId, BlockCost(terms, block), block.index,
                         B.InPeriod(cfg, block.index), 0.0);
    }
  }

  /**
    A whole block keeps every balance non-negative, and takes from the total exactly the stake of those it
    slashes; the slashed set only grows and no one registered is forgotten.
   */
  lemma BlockConserves(cfg: B.Config, terms: Terms, owners: map<string, string>, s: State, block: Block)
    requires Solvent(s.boot.ledger, 0.0)
    ensures var t := AfterBlock(cfg, terms, owners, s, block);
            var paid := Payment(cfg, terms, owners, Run(s.boot.ledger, BeforePayment(cfg, terms, s, block)), block).0;
            var losers := if B.InPeriod(cfg, block.index) then B.ToSlash(cfg, s.boot.(ledger := paid)) else [];
            && Solvent(t.boot.ledger, 0.0)
            && Holdings(t.boot.ledger) == Holdings(s.boot.ledger) - SlashedStake(paid, losers)
            && SlashedStake(paid, losers) >= 0.0
            && t.boot.slashed == s.boot.slashed + B.SetOf(losers) && t.boot.registry == s.boot.registry
  {
    BeforePaymentSolvent(cfg, terms, s, block);
    var before := Run(s.boot.ledger, BeforePayment(cfg, terms, s, block));
    PaymentConserves(cfg, terms, owners, before, block);
    var paid := Payment(cfg, terms, owners, before, block).0;
    var losers := if B.InPeriod(cfg, block.index) then B.ToSlash(cfg, s.boot.(ledger := paid)) else [];
    SlashingRemoves(paid, losers);
  }

  // ----- whole runs

  /** Between blocks, addresses register and accounts are operated on. */
  datatype Event =
    | Produce(block: Block, owners: map<string, string>)
    | Join(address: string, height: int)
    | Operate(op: Op)

  function AfterEvent(cfg: B.Config, terms: Terms, s: State, e: Event): State {
    match e
    case Produce(block, owners) => AfterBlock(cfg, terms, owners, s, block)
    case Join(address, height) => s.(boot := B.Joined(cfg, s.boot, address, height))
    case Operate(op) => s.(boot := s.boot.(ledger := Step(s.boot.ledger, op)))
  }

  function AfterEvents(cfg: B.Config, terms: Terms, s: State, es: seq<Event>): State {
    if es == [] then s else AfterEvent(cfg, terms, AfterEvents(cfg, terms, s, es[..|es| - 1]), es[|es| - 1])
  }

  /** What happens between blocks: what users do, without asking for more stake than there is, and rewards. */
  predicate UserOp(l: Ledger, op: Op) {
    && Proper(op) && Exact(l, op)
    && (op.TransferOp? || op.UnstakeOp? || op.DepositOp? || op.StakeOp? || op.FinalizeOp? || op.MintOp?
        || (op.PenaltyOp? && op.amount >= 0.0))
  }

  ghost predicate UserEvents(cfg: B.Config, terms: Terms, s: State, es: seq<Event>) {
    es == []
    || (UserEvents(cfg, terms, s, es[..|es| - 1])
        && (es[|es| - 1].Operate? ==>
              UserOp(AfterEvents(cfg, terms, s, es[..|es| - 1]).boot.ledger, es[|es| - 1].op)))
  }

  /** The transfers from the system account, the only new money. */
  function SystemTransfers(es: seq<Event>): real {
    if es == [] then 0.0
    else
      var e := es[|es| - 1];
      SystemTransfers(es[..|es| - 1])
      + if e.Operate? && e.op.TransferOp? && e.op.payer == SYSTEM then e.op.amount else 0.0
  }

  lemma EventConserves(cfg: B.Config, terms: Terms, s: State, e: Event)
    requires Solvent(s.boot.ledger, 0.0) && (e.Operate? ==> UserOp(s.boot.ledger, e.op))
    ensures var t := AfterEvent(cfg, terms, s, e);
            && Solvent(t.boot.ledger, 0.0) && s.boot.slashed <= t.boot.slashed && s.boot.registry <= t.boot.registry
            && Holdings(t.boot.ledger) <= Holdings(s.boot.ledger)
               + (if e.Operate? && e.op.TransferOp? && e.op.payer == SYSTEM then e.op.amount else 0.0)
  {
    match e
    case Produce(block, owners) => BlockConserves(cfg, terms, owners, s, block);
    case Join(_, _) =>
    case Operate(op) => UserOpConserves(s.boot.ledger, op);
  }

  lemma UserOpConserves(l: Ledger, op: Op)
    requires Solvent(l, 0.0) && UserOp(l, op)
    ensures Solvent(Step(l, op), 0.0)
    ensures Holdings(Step(l, op))
            <= Holdings(l) + (if op.TransferOp? && op.payer == SYSTEM then op.amount else 0.0)
  {
    StepConserves(l, op, 0.0);
  }

  /**
    Over any run of blocks with registrations, rewards and account operations in between, no balance goes
    negative, the total grows by nothing but transfers from the system account, and slashed addresses and
    registrations stay for good.
   */
  lemma {:induction false} ChainsConserve(cfg: B.Config, terms: Terms, s: State, es: seq<Event>)
    requires Solvent(s.boot.ledger, 0.0) && UserEvents(cfg, terms, s, es)
    ensures var t := AfterEvents(cfg, terms, s, es);
            && Solvent(t.boot.ledger, 0.0) && Holdings(t.boot.ledger) <= Holdings(s.boot.ledger) + SystemTransfers(es)
            && s.boot.slashed <= t.boot.slashed && s.boot.registry <= t.boot.registry
  {
    if es != [] {
      var last := |es| - 1;
      ChainsConserve(cfg, terms, s, es[..last]);
      EventConserves(cfg, terms, AfterEvents(cfg, terms, s, es[..last]), es[last]);
    }
  }
}
