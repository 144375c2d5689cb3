/**
  What the market's arithmetic comes to, in tips, rates, heights and fees: from which height on a waiting task
  out-tips a newcomer, how far one block moves the base fee, and how long a model rests.
 */
module MarketPolicy {
  import opened Basics
  import opened FeeMarket
  import opened MarketSelection
  import opened MarketRuns

  // ----- waiting

  /** Before its submission a task counts its tip; then every block adds a share of the tip, up to the cap. */
  lemma EffectiveTipIs(cfg: Config, t: Task, block: int)
    requires cfg.urgencyCap >= 1.0 && cfg.urgencyRate >= 0.0 && t.tip >= 0.0
    ensures block <= t.submittedBlock ==> TipAt(cfg, block)(t) == t.tip
    ensures block >= t.submittedBlock ==>
              var waited := (block - t.submittedBlock) as real;
              && (1.0 + waited * cfg.urgencyRate <= cfg.urgencyCap ==>
                    TipAt(cfg, block)(t) == t.tip + t.tip * (waited * cfg.urgencyRate))
              && (1.0 + waited * cfg.urgencyRate >= cfg.urgencyCap ==> TipAt(cfg, block)(t) == t.tip * cfg.urgencyCap)
  {
    var waited := (block - t.submittedBlock) as real;
    assert t.tip * (1.0 + waited * cfg.urgencyRate) == t.tip + t.tip * (waited * cfg.urgencyRate);
  }

  lemma WaitIsEnoughIff(tip: real, rate: real, p: real, waited: real)
    requires tip > 0.0 && rate > 0.0
    ensures waited > (p / tip - 1.0) / rate <==> tip * (1.0 + waited * rate) > p
    ensures waited < (p / tip - 1.0) / rate <==> tip * (1.0 + waited * rate) < p
  {
    var wait := (p / tip - 1.0) / rate;
    assert wait * rate == p / tip - 1.0;
    assert (p / tip) * tip == p;
    assert tip * (1.0 + wait * rate) == p;
    var gap := waited - wait;
    assert tip * (1.0 + waited * rate) == p + tip * (gap * rate);
    SignOf(gap, rate, tip);
  }

  lemma SignOf(gap: real, rate: real, tip: real)
    requires rate > 0.0 && tip > 0.0
    ensures tip * (gap * rate) > 0.0 <==> gap > 0.0
    ensures tip * (gap * rate) < 0.0 <==> gap < 0.0
  {
    SignOfProduct(gap, rate);
    SignOfProduct(gap * rate, tip);
    SignOfFactor(gap, rate);
    SignOfFactor(gap * rate, tip);
  }

  /** What a task is worth after waiting, out of its tip, the rate and the cap. */
  lemma WorthIs(tip: real, rate: real, cap: real, p: real, waited: real, worth: real)
    requires tip > 0.0 && rate > 0.0 && tip <= p < tip * cap
    requires waited <= 0.0 ==> worth == tip
    requires waited >= 0.0 && 1.0 + waited * rate <= cap ==> worth == tip * (1.0 + waited * rate)
    requires waited >= 0.0 && 1.0 + waited * rate >= cap ==> worth == tip * cap
    ensures worth > p <==> waited > (p / tip - 1.0) / rate
    ensures waited >= 0.0 ==> (worth < p <==> waited < (p / tip - 1.0) / rate)
  {
    WaitIsEnoughIff(tip, rate, p, waited);
    if waited <= 0.0 {
      SignOfProduct(waited, rate);
      ScaleDown(tip, waited * rate);
    } else if 1.0 + waited * rate >= cap {
      ScaleUp(tip, cap, 1.0 + waited * rate);
    }
  }

  /** A task of a lower tip out-tips `p`, which is within its cap, exactly after it has waited so long. */
  lemma OvertakesAtIff(cfg: Config, t: Task, p: real, block: int)
    requires cfg.urgencyCap >= 1.0 && cfg.urgencyRate > 0.0 && t.tip > 0.0 && t.tip <= p < t.tip * cfg.urgencyCap
    ensures TipAt(cfg, block)(t) > p
            <==> (block - t.submittedBlock) as real > (p / t.tip - 1.0) / cfg.urgencyRate
    ensures block >= t.submittedBlock ==>
              (TipAt(cfg, block)(t) < p
               <==> (block - t.submittedBlock) as real < (p / t.tip - 1.0) / cfg.urgencyRate)
  {
    var waited := (block - t.submittedBlock) as real;
    EffectiveTipIs(cfg, t, block);
    OneMoreShare(t.tip, waited * cfg.urgencyRate);
    WorthIs(t.tip, cfg.urgencyRate, cfg.urgencyCap, p, waited, TipAt(cfg, block)(t));
  }

  lemma OneMoreShare(tip: real, x: real)
    ensures tip * (1.0 + x) == tip + tip * x
  {
  }

  lemma ScaleDown(tip: real, x: real)
    requires tip > 0.0 && x <= 0.0
    ensures tip * (1.0 + x) <= tip
  {
  }

  lemma ScaleUp(tip: real, a: real, b: real)
    requires tip > 0.0 && a <= b
    ensures tip * a <= tip * b
  {
    assert tip * (b - a) >= 0.0;
  }

  /**
    A block with one slot, a waiting task and a newcomer of a higher tip and another model: the block goes to
    the newcomer as long as the other has not waited long enough, and to the other from then on.
   */
  lemma WaitDecidesTheBlock(cfg: Config, m: Market, old_: Task, new_: Task, block: int, tiebreak: string -> int)
    requires m.pending == [old_, new_] || m.pending == [new_, old_]
    requires old_.modelId != new_.modelId && CanRun(old_, m.cooldowns, block) && CanRun(new_, m.cooldowns, block)
    requires cfg.urgencyCap >= 1.0 && cfg.urgencyRate > 0.0 && new_.submittedBlock == block
    requires 0.0 < old_.tip < new_.tip < old_.tip * cfg.urgencyCap && old_.submittedBlock <= block
    ensures (block - old_.submittedBlock) as real > (new_.tip / old_.tip - 1.0) / cfg.urgencyRate ==>
              Selected(cfg, m, block, tiebreak, 1) == [old_]
    ensures (block - old_.submittedBlock) as real < (new_.tip / old_.tip - 1.0) / cfg.urgencyRate ==>
              Selected(cfg, m, block, tiebreak, 1) == [new_]
  {
    EffectiveTipIs(cfg, new_, block);
    OvertakesAtIff(cfg, old_, new_.tip, block);
    if TipAt(cfg, block)(old_) > new_.tip {
      TopTakesTheSlot(cfg, m, block, tiebreak, old_, new_);
    } else if TipAt(cfg, block)(old_) < new_.tip {
      TopTakesTheSlot(cfg, m, block, tiebreak, new_, old_);
    }
  }

  lemma TopTakesTheSlot(cfg: Config, m: Market, block: int, tiebreak: string -> int, top: Task, other: Task)
    requires m.pending == [top, other] || m.pending == [other, top]
    requires CanRun(top, m.cooldowns, block) && TipAt(cfg, block)(top) > TipAt(cfg, block)(other)
    ensures Selected(cfg, m, block, tiebreak, 1) == [top]
  {
    EligibleMembers(m.pending, m.cooldowns, block);
    HighestTipIsSelected(cfg, m, block, tiebreak, 1, top);
    SelectionIsFeasibleAndFull(cfg, m, block, tiebreak, 1);
  }

  // ----- the base fee

  /** How far one block moves the fee while no limit is hit: by the rate times the relative excess, one at most. */
  lemma AdjustmentIs(cfg: Config, fee: real, used: nat, maxSlots: int, next: real)
    requires cfg.baseFeeChangeRate >= 0.0 && cfg.targetUtilization > 0.0 && maxSlots > 0
    requires next == AdjustedFee(cfg, fee, used, maxSlots) && cfg.minBaseFee < next < cfg.maxBaseFee
    ensures var aim := cfg.targetUtilization * maxSlots as real;
            && (used as real <= 2.0 * aim ==>
                  (next - fee) * aim == fee * cfg.baseFeeChangeRate * (used as real - aim))
            && (used as real >= 2.0 * aim ==> next == fee + fee * cfg.baseFeeChangeRate)
  {
    var aim, rate := cfg.targetUtilization * maxSlots as real, cfg.baseFeeChangeRate;
    var excess := (used as real / maxSlots as real - cfg.targetUtilization) / cfg.targetUtilization;
    ExcessIs(used as real, maxSlots as real, cfg.targetUtilization, excess);
    assert aim > 0.0;
    BoundsOf(excess, aim, used as real);
    ChangeIs(excess, rate);
    assert next == fee * (1.0 + FeeChange(cfg, used, maxSlots));
    if used as real <= 2.0 * aim {
      MoveIs(fee, rate, excess, aim, used as real);
    }
  }

  /** Without a target or without slots the fee stays where it is, but for its limits. */
  lemma NoTargetNoMove(cfg: Config, fee: real, used: nat, maxSlots: int)
    requires cfg.baseFeeChangeRate >= 0.0 && cfg.minBaseFee <= fee <= cfg.maxBaseFee
    requires cfg.targetUtilization <= 0.0 || maxSlots == 0
    ensures AdjustedFee(cfg, fee, used, maxSlots) == fee
  {
  }

  lemma ExcessIs(used: real, slots: real, target: real, excess: real)
    requires slots > 0.0 && target > 0.0 && excess == (used / slots - target) / target
    ensures excess * (target * slots) == used - target * slots
  {
    assert (used / slots) * slots == used;
    assert excess * target == used / slots - target;
    assert excess * (target * slots) == (excess * target) * slots;
  }

  lemma BoundsOf(excess: real, aim: real, used: real)
    requires aim > 0.0 && used >= 0.0 && excess * aim == used - aim
    ensures excess >= -1.0 && (excess <= 1.0 <==> used <= 2.0 * aim) && (excess >= 1.0 <==> used >= 2.0 * aim)
  {
    assert (excess + 1.0) * aim == used;
    assert (excess - 1.0) * aim == used - 2.0 * aim;
    SignOfFactor(excess + 1.0, aim);
    SignOfFactor(excess - 1.0, aim);
    SignOfProduct(excess - 1.0, aim);
  }

  lemma ChangeIs(excess: real, rate: real)
    requires rate >= 0.0 && excess >= -1.0
    ensures excess <= 1.0 ==> Max(-rate, Min(rate, excess * rate)) == excess * rate
    ensures excess >= 1.0 ==> Max(-rate, Min(rate, excess * rate)) == rate
  {
    SignOfProduct(excess + 1.0, rate);
    SignOfProduct(excess - 1.0, rate);
    assert (excess + 1.0) * rate == excess * rate + rate;
    assert (excess - 1.0) * rate == excess * rate - rate;
  }

  lemma MoveIs(fee: real, rate: real, excess: real, aim: real, used: real)
    requires excess * aim == used - aim
    ensures (fee * (1.0 + excess * rate) - fee) * aim == fee * rate * (used - aim)
  {
    assert fee * (1.0 + excess * rate) - fee == fee * (excess * rate);
    assert (fee * (excess * rate)) * aim == fee * rate * (excess * aim);
  }

  // ----- the rest of a model

  /** After a slot at one height the model is free again exactly from the shorter cooldown on, one block at least. */
  lemma FreeAgainIff(cfg: Config, m: Market, slots: seq<Slot>, modelId: string, height: int, block: int)
    requires exists s :: s in slots && s.modelId == modelId
    ensures !Cooling(Finalize(cfg, m, slots, height).cooldowns, modelId, block)
            <==> && block > height
                 && (block >= height + cfg.defaultCooldownBlocks || block >= height + cfg.maxCooldownBlocks)
  {
    assert modelId in SlotModels(slots);
  }

  /** The rest of the others is as it was, and a model never scheduled is free from height zero on. */
  lemma OthersStayFree(cfg: Config, m: Market, slots: seq<Slot>, modelId: string, height: int, block: int)
    requires forall s :: s in slots ==> s.modelId != modelId
    ensures Cooling(Finalize(cfg, m, slots, height).cooldowns, modelId, block) <==> Cooling(m.cooldowns, modelId, block)
    ensures modelId !in m.cooldowns ==> (Cooling(m.cooldowns, modelId, block) <==> block < 0)
  {
  }

  // ----- submission and selection

  /** A task is taken exactly when it covers the fee, the least tip and its promise, is new, and its model is free. */
  lemma AcceptedIff(cfg: Config, m: Market, t: Task, block: int)
    requires UniqueIds(m.pending)
    ensures Submit(cfg, m, t, block).pending == m.pending + [t]
            <==> && t.baseFee >= m.baseFee && t.tip >= cfg.minTip && t.deposit >= t.baseFee + t.tip
                 && (forall u :: u in m.pending ==> u.taskId != t.taskId)
                 && (t.modelId in m.cooldowns ==> block >= m.cooldowns[t.modelId])
                 && (t.modelId !in m.cooldowns ==> block >= 0)
    ensures SubmitVerdict(cfg, m, t, block).Accepted? <==> Submit(cfg, m, t, block).pending == m.pending + [t]
  {
    assert t.taskId in TaskIds(m.pending) <==> exists u :: u in m.pending && u.taskId == t.taskId;
    assert m.pending != m.pending + [t];
  }

  /** A slot pays out the tip of its task, not the effective one, and burns its fee. */
  lemma SlotPays(t: Task)
    ensures SlotOf(t).taskId == t.taskId && SlotOf(t).modelId == t.modelId && SlotOf(t).owner == t.owner
    ensures SlotOf(t).tipPaid == t.tip && SlotOf(t).baseFeeBurned == t.baseFee
  {
  }
}
