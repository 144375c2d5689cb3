/** What one block comes to in numbers: the reward, who is materialised when, and who pays. */
module BlockOutcome {
  import opened MapSums
  import opened Ledger
  import opened LedgerRuns
  import opened LedgerEffects
  import opened TrainingPayment
  import opened BlockEconomics
  import B = Bootstrap

  /** A year of blocks emits the year's share of the supply, and every step of training a hundredth more. */
  lemma RewardIs(cfg: B.Config, terms: Terms, block: Block)
    requires terms.blocksPerYear >= 1.0
    ensures var base := BlockReward(cfg, terms, block) - block.steps as real / 100.0;
            && (cfg.periodBlocks > 0 && block.index < cfg.periodBlocks ==>
                  base * terms.blocksPerYear == terms.initialSupply * terms.annualBootstrap)
            && (cfg.periodBlocks > 0 && block.index >= cfg.periodBlocks ==>
                  base * terms.blocksPerYear == terms.initialSupply * terms.annualAfter)
            && (cfg.periodBlocks <= 0 ==> base == terms.miningReward)
  {
    PerBlock(terms.initialSupply * terms.annualBootstrap, terms.blocksPerYear);
    PerBlock(terms.initialSupply * terms.annualAfter, terms.blocksPerYear);
  }

  lemma PerBlock(yearly: real, blocks: real)
    requires blocks >= 1.0
    ensures yearly / blocks * blocks == yearly
  {
  }

  lemma {:induction false} OneForEachSurvivor(survivors: seq<B.Entry>, grant: real)
    ensures |MaterializeOps(survivors, grant)| == |survivors|
    ensures forall k :: 0 <= k < |survivors| ==>
              MaterializeOps(survivors, grant)[k] == MaterializeOp(survivors[k].address, grant)
  {
    if survivors != [] {
      OneForEachSurvivor(survivors[..|survivors| - 1], grant);
    }
  }

  /** The block that ends the bootstrap period, the first time, materialises every participant that is not slashed. */
  lemma MaterializedIff(cfg: B.Config, terms: Terms, s: State, block: Block, op: Op)
    ensures op in Materializations(cfg, terms, s, block)
            <==> && cfg.periodBlocks > 0 && block.index == cfg.periodBlocks && !s.materialized
                 && exists e :: e in s.boot.registry && e.address !in s.boot.slashed
                                && op == MaterializeOp(e.address, terms.materializationGrant)
  {
    var survivors := B.Participants(s.boot.registry, s.boot.slashed);
    OneForEachSurvivor(survivors, terms.materializationGrant);
    forall e: B.Entry ensures e in survivors <==> e in s.boot.registry && e.address !in s.boot.slashed {
      ParticipatesIff(s.boot.registry, s.boot.slashed, e);
    }
  }

  lemma {:induction false} ParticipatesIff(registry: seq<B.Entry>, slashed: set<string>, e: B.Entry)
    ensures e in B.Participants(registry, slashed) <==> e in registry && e.address !in slashed
  {
    if registry != [] {
      ParticipatesIff(registry[..|registry| - 1], slashed, e);
    }
  }

  /** Survivors come before the miner: the reward of the ending block gets what materialisation leaves of genesis. */
  lemma SurvivorsComeFirst(cfg: B.Config, terms: Terms, s: State, block: Block)
    requires cfg.periodBlocks > 0 && block.index == cfg.periodBlocks && !s.materialized
    ensures var survivors := B.Participants(s.boot.registry, s.boot.slashed);
            Run(s.boot.ledger, BeforePayment(cfg, terms, s, block))
            == Mint(Run(s.boot.ledger, MaterializeOps(survivors, terms.materializationGrant)),
                    block.miner, BlockReward(cfg, terms, block), true).0
  {
    RunSnoc(s.boot.ledger, Materializations(cfg, terms, s, block), RewardOp(cfg, terms, block));
  }

  lemma LaterBlockIs(cfg: B.Config, terms: Terms, owners: map<string, string>, s: State, block: Block, rewarded: Ledger)
    requires cfg.periodBlocks < block.index
    requires rewarded == Mint(s.boot.ledger, block.miner, BlockReward(cfg, terms, block), cfg.periodBlocks > 0).0
    ensures AfterBlock(cfg, terms, owners, s, block)
            == State(s.boot.(ledger := Payment(cfg, terms, owners, rewarded, block).0), s.materialized)
  {
    OnlyRewarded(cfg, terms, s, block);
  }

  lemma PayerIs(cfg: B.Config, terms: Terms, owners: map<string, string>, l: Ledger, block: Block)
    requires cfg.periodBlocks < block.index
    ensures block.modelId !in owners || owners[block.modelId] == "system" ==>
              Payment(cfg, terms, owners, l, block).0 == l
    ensures block.modelId in owners && owners[block.modelId] != "system" ==>
              Payment(cfg, terms, owners, l, block)
              == PayForTraining(l, owners[block.modelId], block.miner, block.modelId,
                                TrainingCost(terms.perStep, block.steps, block.sizeBytes), block.index, false)
  {
  }

  /** A later block for a model nobody owns pays its miner out of genesis, as far as that reaches, and nothing else. */
  lemma UnownedBlockIs(cfg: B.Config, terms: Terms, owners: map<string, string>, s: State, block: Block, t: State)
    requires block.modelId !in owners || owners[block.modelId] == "system"
    requires cfg.periodBlocks < block.index && t == AfterBlock(cfg, terms, owners, s, block)
    requires block.miner != GENESIS && Get(s.boot.ledger.liquid, GENESIS) >= 0.0
    requires BlockReward(cfg, terms, block) > 0.0
    ensures var l, after, funds := s.boot.ledger, t.boot.ledger, Get(s.boot.ledger.liquid, GENESIS);
            var paid := if BlockReward(cfg, terms, block) < funds then BlockReward(cfg, terms, block) else funds;
            && Get(after.liquid, GENESIS) == funds - paid
            && Get(after.staked, block.miner)
               == Get(l.staked, block.miner) + (if cfg.periodBlocks > 0 then paid else 0.0)
            && Get(after.liquid, block.miner)
               == Get(l.liquid, block.miner) + (if cfg.periodBlocks > 0 then 0.0 else paid)
            && (forall a :: a != block.miner && a != GENESIS ==> SameAccount(l, after, a))
            && after.escrow == l.escrow && t.boot.registry == s.boot.registry && t.boot.slashed == s.boot.slashed
  {
    var rewarded := Mint(s.boot.ledger, block.miner, BlockReward(cfg, terms, block), cfg.periodBlocks > 0).0;
    LaterBlockIs(cfg, terms, owners, s, block, rewarded);
    PayerIs(cfg, terms, owners, rewarded, block);
    MintIs(s.boot.ledger, block.miner, BlockReward(cfg, terms, block), cfg.periodBlocks > 0);
  }

  lemma OnlyRewarded(cfg: B.Config, terms: Terms, s: State, block: Block)
    requires cfg.periodBlocks < block.index
    ensures Run(s.boot.ledger, BeforePayment(cfg, terms, s, block))
            == Mint(s.boot.ledger, block.miner, BlockReward(cfg, terms, block), cfg.periodBlocks > 0).0
  {
    RunSnoc(s.boot.ledger, [], RewardOp(cfg, terms, block));
    assert BeforePayment(cfg, terms, s, block) == [] + [RewardOp(cfg, terms, block)];
  }

  /** A later block for an owned model is then paid for by its owner, at the cost of its steps and size. */
  lemma OwnedBlockIs(cfg: B.Config, terms: Terms, owners: map<string, string>, s: State, block: Block, t: State)
    requires block.modelId in owners && owners[block.modelId] != "system"
    requires cfg.periodBlocks < block.index && t == AfterBlock(cfg, terms, owners, s, block)
    ensures var rewarded := Mint(s.boot.ledger, block.miner, BlockReward(cfg, terms, block), cfg.periodBlocks > 0).0;
            var cost := TrainingCost(terms.perStep, block.steps, block.sizeBytes);
            && t.boot.ledger == PayForTraining(rewarded, owners[block.modelId], block.miner, block.modelId, cost,
                                               block.index, false).0
            && t.boot.registry == s.boot.registry && t.boot.slashed == s.boot.slashed
            && t.materialized == s.materialized
  {
    var rewarded := Mint(s.boot.ledger, block.miner, BlockReward(cfg, terms, block), cfg.periodBlocks > 0).0;
    LaterBlockIs(cfg, terms, owners, s, block, rewarded);
    PayerIs(cfg, terms, owners, rewarded, block);
  }
}
