/** Who gets what when the verifiers of a block are rewarded one after the other. */
module AttestationRewards {
  import opened MapSums
  import opened Ledger
  import opened EconomicSystem

  /** How often an address is among the verifiers. */
  function Times(verifiers: seq<string>, address: string): nat {
    if verifiers == [] then 0
    else
      var last := |verifiers| - 1;
      Times(verifiers[..last], address) + if verifiers[last] == address then 1 else 0
  }

  lemma LastReward(l: Ledger, verifiers: seq<string>, reward: real, autoStake: bool, block: int)
    returns (before: Ledger)
    requires verifiers != []
    ensures var last := |verifiers| - 1;
            && before == Run(l, RewardOps(verifiers[..last], reward, autoStake, block))
            && Run(l, RewardOps(verifiers, reward, autoStake, block))
               == Step(before, RewardOp(verifiers[last], reward, autoStake, block))
            && Rewarded(l, verifiers, reward, autoStake, block)
               == Rewarded(l, verifiers[..last], reward, autoStake, block)
                  + if !autoStake || reward <= 0.0 || Get(before.liquid, GENESIS) > 0.0 then [verifiers[last]] else []
  {
    var last := |verifiers| - 1;
    before := Run(l, RewardOps(verifiers[..last], reward, autoStake, block));
    OneMoreReward(l, verifiers, last, reward, autoStake, block);
    assert verifiers[..last + 1] == verifiers;
  }

  /** Nothing but liquid balances differs. */
  ghost predicate OnlyLiquid(l: Ledger, t: Ledger) {
    t.staked == l.staked && t.virtual == l.virtual && t.escrow == l.escrow && t.unbonding == l.unbonding
  }

  lemma LiquidRewardIs(l: Ledger, verifier: string, reward: real, block: int, a: string)
    ensures var t := Step(l, RewardOp(verifier, reward, false, block));
            && Get(t.liquid, a) == Get(l.liquid, a) + (if a == verifier then reward else 0.0) && OnlyLiquid(l, t)
  {
  }

  lemma LastLiquidReward(l: Ledger, verifiers: seq<string>, reward: real, block: int, a: string)
    requires verifiers != []
    ensures var last, t := |verifiers| - 1, Run(l, RewardOps(verifiers, reward, false, block));
            var before := Run(l, RewardOps(verifiers[..last], reward, false, block));
            && Get(t.liquid, a) == Get(before.liquid, a) + (if a == verifiers[last] then reward else 0.0)
            && OnlyLiquid(before, t)
            && Rewarded(l, verifiers, reward, false, block)
               == Rewarded(l, verifiers[..last], reward, false, block) + [verifiers[last]]
  {
    var before := LastReward(l, verifiers, reward, false, block);
    LiquidRewardIs(before, verifiers[|verifiers| - 1], reward, block, a);
  }

  lemma OneMoreTaken(s: seq<string>, k: nat, next: nat, more: bool)
    requires s != [] && k <= |s| - 1 && next == (if more then |s| else k) && (more ==> k == |s| - 1)
    ensures s[..|s| - 1][..k] + (if more then [s[|s| - 1]] else []) == s[..next]
  {
  }

  lemma NoVerifiers(l: Ledger, reward: real, autoStake: bool, block: int)
    ensures Run(l, RewardOps([], reward, autoStake, block)) == l && Rewarded(l, [], reward, autoStake, block) == []
  {
  }

  /** Liquid rewards: every verifier gets one for each time it is listed, out of new money, and nothing else changes. */
  lemma {:induction false} LiquidRewardsReach(l: Ledger, verifiers: seq<string>, reward: real, block: int, a: string)
    ensures var t := Run(l, RewardOps(verifiers, reward, false, block));
            && Get(t.liquid, a) == Get(l.liquid, a) + Repeated(Times(verifiers, a), reward) && OnlyLiquid(l, t)
    ensures Rewarded(l, verifiers, reward, false, block) == verifiers
  {
    if verifiers == [] {
      NoVerifiers(l, reward, false, block);
    } else {
      var last := |verifiers| - 1;
      LiquidRewardsReach(l, verifiers[..last], reward, block, a);
      LastLiquidReward(l, verifiers, reward, block, a);
      OneMoreTaken(verifiers, last, last + 1, true);
    }
  }

  /** What the reward numbered `i` comes to when the genesis account started with `funds`. */
  function Share(funds: real, i: nat, reward: real): real {
    if funds <= Repeated(i, reward) then 0.0
    else if funds - Repeated(i, reward) < reward then funds - Repeated(i, reward)
    else reward
  }

  function SharesOf(verifiers: seq<string>, address: string, funds: real, reward: real): real {
    if verifiers == [] then 0.0
    else
      var last := |verifiers| - 1;
      SharesOf(verifiers[..last], address, funds, reward)
      + if verifiers[last] == address then Share(funds, last, reward) else 0.0
  }

  lemma StakedRewardIs(l: Ledger, verifier: string, reward: real, block: int, a: string)
    requires reward > 0.0 && Get(l.liquid, GENESIS) >= 0.0
    ensures var t := Step(l, RewardOp(verifier, reward, true, block));
            var paid := if Get(l.liquid, GENESIS) < reward then Get(l.liquid, GENESIS) else reward;
            && Get(t.liquid, GENESIS) == Get(l.liquid, GENESIS) - paid
            && Get(t.staked, a) == Get(l.staked, a) + if a == verifier then paid else 0.0
  {
  }

  /** What is left of the genesis balance after `n` rewards. */
  function LeftAfter(funds: real, n: nat, reward: real): real {
    if funds <= Repeated(n, reward) then 0.0 else funds - Repeated(n, reward)
  }

  /** The first `k` of `n` rewards come to something. */
  ghost predicate RunsOutAt(funds: real, k: nat, n: nat, reward: real) {
    && k <= n && (k < n ==> funds <= Repeated(k, reward))
    && (k > 0 ==> Repeated(k - 1, reward) < funds)
  }

  lemma RunsOutNext(funds: real, k: nat, n: nat, reward: real) returns (next: nat)
    requires reward > 0.0 && funds >= 0.0 && RunsOutAt(funds, k, n, reward)
    ensures RunsOutAt(funds, next, n + 1, reward)
    ensures next == if LeftAfter(funds, n, reward) > 0.0 then n + 1 else k
    ensures LeftAfter(funds, n, reward) > 0.0 ==> k == n
  {
    RepeatedGrows(k, n, reward);
    next := if LeftAfter(funds, n, reward) > 0.0 then n + 1 else k;
  }

  /** What the last verifier changes, the genesis balance before it being what is left by then. */
  lemma LastStakedReward(l: Ledger, verifiers: seq<string>, reward: real, block: int, a: string, funds: real)
    returns (before: Ledger)
    requires verifiers != [] && reward > 0.0 && funds >= 0.0
    requires Get(Run(l, RewardOps(verifiers[..|verifiers| - 1], reward, true, block)).liquid, GENESIS)
             == LeftAfter(funds, |verifiers| - 1, reward)
    ensures var last, t := |verifiers| - 1, Run(l, RewardOps(verifiers, reward, true, block));
            && before == Run(l, RewardOps(verifiers[..last], reward, true, block))
            && Get(t.staked, a)
               == Get(before.staked, a) + (if a == verifiers[last] then Share(funds, last, reward) else 0.0)
            && Get(t.liquid, GENESIS) == LeftAfter(funds, last + 1, reward)
            && Rewarded(l, verifiers, reward, true, block)
               == Rewarded(l, verifiers[..last], reward, true, block)
                  + if LeftAfter(funds, last, reward) > 0.0 then [verifiers[last]] else []
  {
    before := LastReward(l, verifiers, reward, true, block);
    StakedRewardIs(before, verifiers[|verifiers| - 1], reward, block, a);
  }

  /** Staked rewards come out of the genesis account in the order of the verifiers, as far as it reaches. */
  lemma {:induction false} StakedRewardsReach(l: Ledger, verifiers: seq<string>, reward: real, block: int, a: string)
    requires reward > 0.0 && Get(l.liquid, GENESIS) >= 0.0
    ensures var funds, t := Get(l.liquid, GENESIS), Run(l, RewardOps(verifiers, reward, true, block));
            && Get(t.staked, a) == Get(l.staked, a) + SharesOf(verifiers, a, funds, reward)
            && Get(t.liquid, GENESIS) == LeftAfter(funds, |verifiers|, reward)
  {
    if verifiers == [] {
      NoVerifiers(l, reward, true, block);
    } else {
      StakedRewardsReach(l, verifiers[..|verifiers| - 1], reward, block, a);
      var _ := LastStakedReward(l, verifiers, reward, block, a, Get(l.liquid, GENESIS));
    }
  }

  /** The rewarded are the verifiers up to the one on which the genesis account runs out. */
  lemma {:induction false} StakedRewardsRunOut(l: Ledger, verifiers: seq<string>, reward: real, block: int)
    returns (k: nat)
    requires reward > 0.0 && Get(l.liquid, GENESIS) >= 0.0
    ensures RunsOutAt(Get(l.liquid, GENESIS), k, |verifiers|, reward)
    ensures Rewarded(l, verifiers, reward, true, block) == verifiers[..k]
  {
    if verifiers == [] {
      NoVerifiers(l, reward, true, block);
      k := 0;
    } else {
      var last := |verifiers| - 1;
      var before := StakedRewardsRunOut(l, verifiers[..last], reward, block);
      StakedRewardsReach(l, verifiers[..last], reward, block, GENESIS);
      var _ := LastStakedReward(l, verifiers, reward, block, GENESIS, Get(l.liquid, GENESIS));
      k := RunsOutNext(Get(l.liquid, GENESIS), before, last, reward);
      OneMoreTaken(verifiers, before, k, LeftAfter(Get(l.liquid, GENESIS), last, reward) > 0.0);
    }
  }

  lemma {:induction false} RepeatedGrows(k: nat, n: nat, reward: real)
    requires k <= n && reward > 0.0
    ensures Repeated(k, reward) <= Repeated(n, reward)
  {
    if k < n {
      RepeatedGrows(k, n - 1, reward);
    }
  }

  lemma {:induction false} RepeatedIs(n: nat, reward: real)
    ensures Repeated(n, reward) == n as real * reward
  {
    if n > 0 {
      RepeatedIs(n - 1, reward);
    }
  }
}
