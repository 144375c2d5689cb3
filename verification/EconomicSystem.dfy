/** The stateful economic system, each method proved against the ledger transition of the same name. */
module EconomicSystem {
  import opened Basics
  import opened MapSums
  import opened Ledger
  import opened LedgerRuns

  class EconomicSystem {
    var balances: map<string, real>
    var stakedAmounts: map<string, real>
    var unbondingQueue: map<string, seq<Exit>>
    var modelTrainingEscrow: map<string, real>
    var bootstrapVirtualLocked: map<string, real>
    var totalTokensEmitted: real

    function State(): Ledger
      reads this
    {
      Ledger(balances, stakedAmounts, unbondingQueue, modelTrainingEscrow, bootstrapVirtualLocked, totalTokensEmitted)
    }

    constructor (initialSupply: real)
      ensures State() == Ledger(map[GENESIS := initialSupply], map[GENESIS := 0.0], map[], map[], map[], 0.0)
    {
      balances := map[GENESIS := initialSupply];
      stakedAmounts := map[GENESIS := 0.0];
      unbondingQueue, modelTrainingEscrow, bootstrapVirtualLocked := map[], map[], map[];
      totalTokensEmitted := 0.0;
    }

    /** The displayed spendable balance; no state changes. */
    method PreviewTransferableLiquid(address: string, atBlock: int) returns (liquid: real)
      ensures liquid == PreviewLiquid(State(), address, atBlock)
    {
      var q := if address in unbondingQueue then unbondingQueue[address] else [];
      var matured := 0.0;
      for i := 0 to |q|
        invariant matured == Matured(q[..i], atBlock)
      {
        assert q[..i + 1][..i] == q[..i];
        if atBlock >= q[i].unlock {
          matured := matured + q[i].amount;
        }
      }
      assert q[..|q|] == q;
      liquid := Get(balances, address) + matured;
    }

    method FinalizeMaturedUnstakes(address: string, block: int) returns (credited: real)
      modifies this
      ensures State() == Finalize(old(State()), address, block)
      ensures credited == Matured(Queue(old(State()), address), block)
    {
      if address !in unbondingQueue || unbondingQueue[address] == [] {
        return 0.0;
      }
      var q := unbondingQueue[address];
      var pending;
      credited, pending := SplitQueue(q, block);
      if credited > 0.0 {
        balances := balances[address := Get(balances, address) + credited];
      }
      if pending != [] {
        unbondingQueue := unbondingQueue[address := pending];
      } else {
        unbondingQueue := unbondingQueue - {address};
      }
    }

    static method SplitQueue(q: seq<Exit>, block: int) returns (credited: real, pending: seq<Exit>)
      ensures credited == Matured(q, block) && pending == Pending(q, block)
    {
      credited, pending := 0.0, [];
      for i := 0 to |q|
        invariant credited == Matured(q[..i], block) && pending == Pending(q[..i], block)
      {
        assert q[..i + 1][..i] == q[..i];
        if block >= q[i].unlock {
          credited := credited + q[i].amount;
        } else {
          pending := pending + [q[i]];
        }
      }
      assert q[..|q|] == q;
    }

    method TransferFunds(payer: string, payee: string, amount: real, block: int) returns (r: Outcome)
      modifies this
      ensures (State(), r) == Transfer(old(State()), payer, payee, amount, block)
    {
      if payer != SYSTEM {
        var _ := FinalizeMaturedUnstakes(payer, block);
        if Get(balances, payer) < amount {
          return Rejected;
        }
        if payer !in balances {
          return MissingAccount;
        }
        balances := balances[payer := balances[payer] - amount];
      }
      balances := balances[payee := Get(balances, payee) + amount];
      return Accepted;
    }

    method MintFromGenesis(miner: string, amount: real, toStake: bool) returns (r: Outcome)
      modifies this
      ensures (State(), r) == Mint(old(State()), miner, amount, toStake)
    {
      if amount <= 0.0 {
        return Accepted;
      }
      var pay := Min(amount, Get(balances, GENESIS));
      if pay <= 0.0 {
        return Rejected;
      }
      balances := balances[GENESIS := balances[GENESIS] - pay];
      if toStake {
        stakedAmounts := stakedAmounts[miner := Get(stakedAmounts, miner) + pay];
      } else {
        balances := balances[miner := Get(balances, miner) + pay];
      }
      totalTokensEmitted := totalTokensEmitted + pay;
      return Accepted;
    }

    method GrantBootstrapVirtualStake(address: string, amount: real)
      modifies this
      ensures State() == GrantVirtual(old(State()), address, amount)
    {
      bootstrapVirtualLocked := bootstrapVirtualLocked[address := Get(bootstrapVirtualLocked, address) + amount];
    }

    method RequestUnstakeOf(address: string, amount: real, block: int, cooldown: int) returns (r: Outcome)
      modifies this
      ensures (State(), r) == RequestUnstake(old(State()), address, amount, block, cooldown)
    {
      if amount <= 0.0 || cooldown < 0 {
        return Rejected;
      }
      if cooldown == 0 {
        r := UnstakeImmediateToLiquid(address, amount);
        return;
      }
      if Get(stakedAmounts, address) + DUST < amount {
        return Rejected;
      }
      stakedAmounts := stakedAmounts[address := Get(stakedAmounts, address) - amount];
      var q := if address in unbondingQueue then unbondingQueue[address] else [];
      unbondingQueue := unbondingQueue[address := q + [Exit(amount, block + cooldown)]];
      return Accepted;
    }

    method UnstakeImmediateToLiquid(address: string, amount: real) returns (r: Outcome)
      modifies this
      ensures (State(), r) == UnstakeNow(old(State()), address, amount)
    {
      if Get(stakedAmounts, address) < amount {
        return Rejected;
      }
      stakedAmounts := stakedAmounts[address := Get(stakedAmounts, address) - amount];
      balances := balances[address := Get(balances, address) + amount];
      return Accepted;
    }

    method SlashBootstrapParticipant(address: string)
      modifies this
      ensures State() == SlashBootstrap(old(State()), address)
    {
      bootstrapVirtualLocked := bootstrapVirtualLocked - {address};
      stakedAmounts := stakedAmounts - {address};
    }

    method MaterializeBootstrapSurvivor(address: string, grant: real)
      modifies this
      ensures State() == Materialize(old(State()), address, grant)
    {
      var virt := Get(bootstrapVirtualLocked, address);
      bootstrapVirtualLocked := bootstrapVirtualLocked - {address};
      var reward := Get(stakedAmounts, address);
      stakedAmounts := stakedAmounts - {address};
      var need := virt + grant;
      var minted := 0.0;
      if need > 0.0 {
        minted := Min(need, Get(balances, GENESIS));
        if minted > 0.0 {
          balances := balances[GENESIS := balances[GENESIS] - minted];
          totalTokensEmitted := totalTokensEmitted + minted;
        }
      }
      var total := reward + minted;
      if total <= 0.0 {
        return;
      }
      stakedAmounts := stakedAmounts[address := Get(stakedAmounts, address) + total];
    }

    method DepositModelTrainingEscrow(payer: string, modelId: string, amount: real, block: int) returns (r: Outcome)
      modifies this
      ensures (State(), r) == DepositEscrow(old(State()), payer, modelId, amount, block)
    {
      if amount < 0.0 {
        return Rejected;
      }
      if amount == 0.0 {
        return Accepted;
      }
      var _ := FinalizeMaturedUnstakes(payer, block);
      if Get(balances, payer) < amount {
        return Rejected;
      }
      balances := balances[payer := balances[payer] - amount];
      modelTrainingEscrow := modelTrainingEscrow[modelId := Get(modelTrainingEscrow, modelId) + amount];
      return Accepted;
    }

    method StakeTokens(address: string, amount: real, block: int) returns (r: Outcome)
      modifies this
      ensures (State(), r) == Stake(old(State()), address, amount, block)
    {
      var _ := FinalizeMaturedUnstakes(address, block);
      if Get(balances, address) < amount {
        return Rejected;
      }
      if address !in balances {
        return MissingAccount;
      }
      balances := balances[address := balances[address] - amount];
      stakedAmounts := stakedAmounts[address := Get(stakedAmounts, address) + amount];
      return Accepted;
    }

    /** Takes from stake first, then from the balance, and never more than there is. */
    method ProcessSlashingPenalty(miner: string, penalty: real)
      modifies this
      ensures State() == Penalize(old(State()), miner, penalty)
    {
      var staked, liquid := Get(stakedAmounts, miner), Get(balances, miner);
      var rest := penalty;
      if staked + liquid < rest {
        rest := staked + liquid;
      }
      if staked > 0.0 {
        var fromStake := Min(rest, staked);
        stakedAmounts := stakedAmounts[miner := stakedAmounts[miner] - fromStake];
        rest := rest - fromStake;
      }
      if rest > 0.0 {
        balances := balances[miner := balances[miner] - rest];
      }
    }

    /** Escrow first, then the owner's liquid balance, unwrapping bootstrap stake for a shortfall if allowed. */
    method ProcessTrainingPayment(owner: string, miner: string, modelId: string, cost: real, block: int,
                                  debitStake: bool)
      returns (r: Outcome)
      modifies this
      ensures (State(), r) == PayForTraining(old(State()), owner, miner, modelId, cost, block, debitStake)
    {
      var fromEscrow := Min(Get(modelTrainingEscrow, modelId), cost);
      var remainder := cost - fromEscrow;
      if remainder > 0.0 && owner != SYSTEM {
        ReadyOwner(owner, remainder, block, debitStake);
        if Get(balances, owner) < remainder {
          return Rejected;
        }
      }
      assert State() == ReadyFor(old(State()), owner, modelId, cost, block, debitStake);
      ReleaseEscrow(modelId, miner, fromEscrow);
      if remainder > 0.0 {
        r := TransferFunds(owner, miner, remainder, block);
      } else {
        r := Accepted;
      }
    }

    method ReleaseEscrow(modelId: string, miner: string, amount: real)
      modifies this
      ensures State() == PayFromEscrow(old(State()), modelId, miner, amount)
    {
      if amount > 0.0 {
        modelTrainingEscrow := modelTrainingEscrow[modelId := Get(modelTrainingEscrow, modelId) - amount];
        balances := balances[miner := Get(balances, miner) + amount];
      }
    }

    method ReadyOwner(owner: string, remainder: real, block: int, debitStake: bool)
      modifies this
      ensures State() == Readied(old(State()), owner, remainder, block, debitStake)
    {
      var _ := FinalizeMaturedUnstakes(owner, block);
      if Get(balances, owner) < remainder && debitStake {
        var short := remainder - Get(balances, owner);
        var take := Min(Max(0.0, short), Get(stakedAmounts, owner));
        if take > DUST {
          var _ := UnstakeImmediateToLiquid(owner, take);
        }
      }
    }

    /** Pays every verifier the reward: minted from nothing, or staked out of genesis. */
    method DistributeAttestationRewards(verifiers: seq<string>, reward: real, autoStake: bool, block: int)
      returns (paid: seq<string>)
      modifies this
      ensures State() == Run(old(State()), RewardOps(verifiers, reward, autoStake, block))
      ensures paid == Rewarded(old(State()), verifiers, reward, autoStake, block)
    {
      paid := [];
      for i := 0 to |verifiers|
        invariant State() == Run(old(State()), RewardOps(verifiers[..i], reward, autoStake, block))
        invariant paid == Rewarded(old(State()), verifiers[..i], reward, autoStake, block)
      {
        OneMoreReward(old(State()), verifiers, i, reward, autoStake, block);
        var r;
        if autoStake {
          r := MintFromGenesis(verifiers[i], reward, true);
        } else {
          r := TransferFunds(SYSTEM, verifiers[i], reward, block);
        }
        if r.Accepted? {
          paid := paid + [verifiers[i]];
        }
      }
      WholePrefix(verifiers, |verifiers|);
    }
  }

  function RewardOp(verifier: string, reward: real, autoStake: bool, block: int): Op {
    if autoStake then MintOp(verifier, reward, true) else TransferOp(SYSTEM, verifier, reward, block)
  }

  function RewardOps(verifiers: seq<string>, reward: real, autoStake: bool, block: int): (ops: seq<Op>)
    ensures |ops| == |verifiers|
  {
    if verifiers == [] then []
    else
      var last := |verifiers| - 1;
      RewardOps(verifiers[..last], reward, autoStake, block) + [RewardOp(verifiers[last], reward, autoStake, block)]
  }

  /** The verifiers that get anything: all of them, or with staking those that find genesis able to pay. */
  function Rewarded(l: Ledger, verifiers: seq<string>, reward: real, autoStake: bool, block: int): seq<string> {
    if verifiers == [] then []
    else
      var last := |verifiers| - 1;
      var before := Run(l, RewardOps(verifiers[..last], reward, autoStake, block));
      Rewarded(l, verifiers[..last], reward, autoStake, block)
      + if !autoStake || reward <= 0.0 || Get(before.liquid, GENESIS) > 0.0 then [verifiers[last]] else []
  }

  lemma OneMoreReward(l: Ledger, verifiers: seq<string>, i: nat, reward: real, autoStake: bool, block: int)
    requires i < |verifiers|
    ensures var before := Run(l, RewardOps(verifiers[..i], reward, autoStake, block));
            && Run(l, RewardOps(verifiers[..i + 1], reward, autoStake, block))
               == Step(before, RewardOp(verifiers[i], reward, autoStake, block))
            && Rewarded(l, verifiers[..i + 1], reward, autoStake, block)
               == Rewarded(l, verifiers[..i], reward, autoStake, block)
                  + if !autoStake || reward <= 0.0 || Get(before.liquid, GENESIS) > 0.0 then [verifiers[i]] else []
  {
    PrefixOfPrefix(verifiers, i);
    RunSnoc(l, RewardOps(verifiers[..i], reward, autoStake, block), RewardOp(verifiers[i], reward, autoStake, block));
  }

  function Repeated(n: nat, x: real): real {
    if n == 0 then 0.0 else Repeated(n - 1, x) + x
  }

  /** Liquid attestation rewards are new money, one reward per verifier; staked ones come out of genesis. */
  lemma {:induction false} AttestationRewardsInject(l: Ledger, verifiers: seq<string>, reward: real, autoStake: bool,
                                                    block: int)
    requires Solvent(l, DUST) && reward >= 0.0
    ensures Solvent(Run(l, RewardOps(verifiers, reward, autoStake, block)), DUST)
    ensures Holdings(Run(l, RewardOps(verifiers, reward, autoStake, block)))
            == Holdings(l) + if autoStake then 0.0 else Repeated(|verifiers|, reward)
  {
    if verifiers != [] {
      var last := |verifiers| - 1;
      AttestationRewardsInject(l, verifiers[..last], reward, autoStake, block);
      OneMoreReward(l, verifiers, last, reward, autoStake, block);
      WholePrefix(verifiers, |verifiers|);
      StepConserves(Run(l, RewardOps(verifiers[..last], reward, autoStake, block)),
                    RewardOp(verifiers[last], reward, autoStake, block), DUST);
    }
  }
}
