/** Whole runs of the fee market: cooldown safety, no double scheduling, and the base-fee envelope. */
module MarketRuns {
  import opened FeeMarket
  import opened MarketSelection

  /** A block event selects at its height and is finalised at that same height. */
  datatype Event =
    | SubmitEvent(task: Task, height: int)
    | CancelEvent(taskId: string, owner: string)
    | ExpireEvent(height: int)
    | BlockEvent(height: int, tiebreak: string -> int, room: int)

  datatype Scheduled = Scheduled(height: int, slot: Slot)

  function SlotsIn(cfg: Config, m: Market, e: Event): seq<Slot> {
    if e.BlockEvent? then SlotsOf(Selected(cfg, m, e.height, e.tiebreak, e.room)) else []
  }

  function Step(cfg: Config, m: Market, e: Event): Market {
    match e
    case SubmitEvent(task, height) => Submit(cfg, m, task, height)
    case CancelEvent(taskId, owner) => Cancel(m, taskId, owner)
    case ExpireEvent(height) => m.(pending := Fresh(m.pending, height))
    case BlockEvent(height, _, _) => Finalize(cfg, m, SlotsIn(cfg, m, e), height)
  }

  function Run(cfg: Config, m: Market, es: seq<Event>): Market
    decreases es
  {
    if es == [] then m else Run(cfg, Step(cfg, m, es[0]), es[1..])
  }

  function Stamped(slots: seq<Slot>, height: int): seq<Scheduled> {
    seq(|slots|, i requires 0 <= i < |slots| => Scheduled(height, slots[i]))
  }

  function Entries(cfg: Config, m: Market, e: Event): seq<Scheduled> {
    if e.BlockEvent? then Stamped(SlotsIn(cfg, m, e), e.height) else []
  }

  /** Every slot the run schedules, in order, stamped with its height. */
  function Log(cfg: Config, m: Market, es: seq<Event>): seq<Scheduled>
    decreases es
  {
    if es == [] then [] else Entries(cfg, m, es[0]) + Log(cfg, Step(cfg, m, es[0]), es[1..])
  }

  // ----- cooldown safety

  predicate CoolingUntil(m: Market, modelId: string, until: int) {
    modelId in m.cooldowns && m.cooldowns[modelId] >= until
  }

  /** A logged slot comes from a pending task whose model has rested, one slot per model. */
  lemma EntryWasReady(cfg: Config, m: Market, e: Event, i: nat)
    requires i < |Entries(cfg, m, e)|
    ensures var x := Entries(cfg, m, e)[i];
            && e.BlockEvent? && x.height == e.height
            && !Cooling(m.cooldowns, x.slot.modelId, e.height)
            && x.slot.taskId in TaskIds(m.pending)
            && x.slot.modelId in SlotModels(SlotsIn(cfg, m, e))
    ensures forall j :: 0 <= j < i ==> Entries(cfg, m, e)[j].slot.modelId != Entries(cfg, m, e)[i].slot.modelId
  {
    SelectionIsFeasibleAndFull(cfg, m, e.height, e.tiebreak, e.room);
    var s := Selected(cfg, m, e.height, e.tiebreak, e.room);
    assert s[i] in s && SlotsIn(cfg, m, e)[i] in SlotsIn(cfg, m, e);
  }

  /** While a model rests until `until`, one step keeps it resting at least that long. */
  lemma RestPersists(cfg: Config, m: Market, e: Event, modelId: string, until: int)
    requires CoolingUntil(m, modelId, until)
    ensures CoolingUntil(Step(cfg, m, e), modelId, until)
  {
    if e.BlockEvent? && modelId in SlotModels(SlotsIn(cfg, m, e)) {
      var slots := SlotsIn(cfg, m, e);
      var i :| 0 <= i < |slots| && slots[i].modelId == modelId;
      EntryWasReady(cfg, m, e, i);
    }
  }

  lemma {:induction false} RestingModelsWait(cfg: Config, m: Market, es: seq<Event>, modelId: string, until: int)
    requires CoolingUntil(m, modelId, until)
    ensures forall x :: x in Log(cfg, m, es) && x.slot.modelId == modelId ==> x.height >= until
    decreases es
  {
    if es != [] {
      var e := es[0];
      RestPersists(cfg, m, e, modelId, until);
      RestingModelsWait(cfg, Step(cfg, m, e), es[1..], modelId, until);
      forall x | x in Entries(cfg, m, e) && x.slot.modelId == modelId ensures x.height >= until {
        var i :| 0 <= i < |Entries(cfg, m, e)| && Entries(cfg, m, e)[i] == x;
        EntryWasReady(cfg, m, e, i);
      }
    }
  }

  /** Any two entries for one model are at least `gap` blocks apart, later minus earlier. */
  ghost predicate Spaced(log: seq<Scheduled>, gap: int) {
    forall i, j :: 0 <= i < j < |log| && log[i].slot.modelId == log[j].slot.modelId ==>
      log[j].height >= log[i].height + gap
  }

  lemma SpacedConcat(a: seq<Scheduled>, b: seq<Scheduled>, gap: int)
    requires Spaced(a, gap) && Spaced(b, gap)
    requires forall x, y :: x in a && y in b && x.slot.modelId == y.slot.modelId ==> y.height >= x.height + gap
    ensures Spaced(a + b, gap)
  {
    var log := a + b;
    forall i, j | 0 <= i < j < |log| && log[i].slot.modelId == log[j].slot.modelId
      ensures log[j].height >= log[i].height + gap
    {
      if i < |a| <= j {
        assert log[i] in a && log[j] in b;
      }
    }
  }

  lemma EntriesSpaced(cfg: Config, m: Market, e: Event)
    ensures Spaced(Entries(cfg, m, e), CooldownLength(cfg))
  {
    forall i, j | 0 <= i < j < |Entries(cfg, m, e)|
      ensures Entries(cfg, m, e)[i].slot.modelId != Entries(cfg, m, e)[j].slot.modelId
    {
      EntryWasReady(cfg, m, e, j);
    }
  }

  /** A block's slots keep their models away from the rest of the run for one cooldown. */
  lemma SlotsRest(cfg: Config, m: Market, e: Event, later: seq<Event>, x: Scheduled, y: Scheduled)
    requires x in Entries(cfg, m, e) && y in Log(cfg, Step(cfg, m, e), later) && x.slot.modelId == y.slot.modelId
    ensures y.height >= x.height + CooldownLength(cfg)
  {
    var i :| 0 <= i < |Entries(cfg, m, e)| && Entries(cfg, m, e)[i] == x;
    EntryWasReady(cfg, m, e, i);
    assert CoolingUntil(Step(cfg, m, e), x.slot.modelId, e.height + CooldownLength(cfg));
    RestingModelsWait(cfg, Step(cfg, m, e), later, x.slot.modelId, e.height + CooldownLength(cfg));
  }

  /**
    On every run from every market state, in whatever order the heights come, two slots of one model
    are at least a cooldown apart.
   */
  lemma {:induction false} CooldownSafety(cfg: Config, m: Market, es: seq<Event>)
    ensures Spaced(Log(cfg, m, es), CooldownLength(cfg))
    decreases es
  {
    if es != [] {
      var e, later := es[0], es[1..];
      EntriesSpaced(cfg, m, e);
      CooldownSafety(cfg, Step(cfg, m, e), later);
      forall x, y | x in Entries(cfg, m, e) && y in Log(cfg, Step(cfg, m, e), later) && x.slot.modelId == y.slot.modelId
        ensures y.height >= x.height + CooldownLength(cfg)
      {
        SlotsRest(cfg, m, e, later, x, y);
      }
      SpacedConcat(Entries(cfg, m, e), Log(cfg, Step(cfg, m, e), later), CooldownLength(cfg));
    }
  }

  // ----- a task is scheduled once

  predicate Resubmits(es: seq<Event>, taskId: string) {
    exists k :: 0 <= k < |es| && es[k].SubmitEvent? && es[k].task.taskId == taskId
  }

  lemma {:induction false} FreshIsPending(tasks: seq<Task>, block: int)
    ensures forall t :: t in Fresh(tasks, block) <==> t in tasks && block < t.expiryBlock
  {
    if tasks != [] {
      FreshIsPending(tasks[1..], block);
    }
  }

  lemma StepAddsOnlySubmitted(cfg: Config, m: Market, e: Event, taskId: string)
    requires taskId !in TaskIds(m.pending) && !(e.SubmitEvent? && e.task.taskId == taskId)
    ensures taskId !in TaskIds(Step(cfg, m, e).pending)
  {
    match e
    case SubmitEvent(task, height) =>
    case CancelEvent(id, owner) => WithoutMembers(m.pending, {id});
    case ExpireEvent(height) => FreshIsPending(m.pending, height);
    case BlockEvent(height, _, _) => WithoutMembers(m.pending, SlotTasks(SlotsIn(cfg, m, e)));
  }

  lemma {:induction false} AbsentTasksStayOut(cfg: Config, m: Market, es: seq<Event>, taskId: string)
    requires taskId !in TaskIds(m.pending) && !Resubmits(es, taskId)
    ensures forall x :: x in Log(cfg, m, es) ==> x.slot.taskId != taskId
    decreases es
  {
    if es != [] {
      var e := es[0];
      assert forall k :: 0 <= k < |es[1..]| ==> es[1..][k] == es[k + 1];
      StepAddsOnlySubmitted(cfg, m, e, taskId);
      AbsentTasksStayOut(cfg, Step(cfg, m, e), es[1..], taskId);
      forall x | x in Entries(cfg, m, e) ensures x.slot.taskId != taskId {
        var i :| 0 <= i < |Entries(cfg, m, e)| && Entries(cfg, m, e)[i] == x;
        EntryWasReady(cfg, m, e, i);
      }
    }
  }

  /** Once a block schedules a task, no later block does, unless someone submits that id again. */
  lemma ScheduledOnce(cfg: Config, m: Market, e: Event, later: seq<Event>, slot: Slot)
    requires e.BlockEvent? && slot in SlotsIn(cfg, m, e)
    requires !Resubmits(later, slot.taskId)
    ensures forall x :: x in Log(cfg, Step(cfg, m, e), later) ==> x.slot.taskId != slot.taskId
  {
    WithoutMembers(m.pending, SlotTasks(SlotsIn(cfg, m, e)));
    AbsentTasksStayOut(cfg, Step(cfg, m, e), later, slot.taskId);
  }

  // ----- the base fee

  function Power(x: real, n: nat): real {
    if n == 0 then 1.0 else x * Power(x, n - 1)
  }

  /** `start` multiplied by `x` once per block. */
  function Compounded(start: real, x: real, n: nat): real
    decreases n
  {
    if n == 0 then start else Compounded(Scaled(start, x), x, n - 1)
  }

  function Blocks(es: seq<Event>): nat {
    if es == [] then 0 else (if es[0].BlockEvent? then 1 else 0) + Blocks(es[1..])
  }

  ghost predicate SoundFees(cfg: Config) {
    0.0 <= cfg.minBaseFee <= cfg.maxBaseFee && 0.0 <= cfg.baseFeeChangeRate < 1.0
  }

  lemma ChangeFollowsUtilisation(cfg: Config, used: int, maxSlots: int)
    requires SoundFees(cfg) && maxSlots != 0
    ensures var change, slots := FeeChange(cfg, used, maxSlots), maxSlots as real;
            && -cfg.baseFeeChangeRate <= change <= cfg.baseFeeChangeRate
            && (maxSlots > 0 && cfg.targetUtilization > 0.0 ==>
                  && (used as real > cfg.targetUtilization * slots ==> change >= 0.0)
                  && (used as real < cfg.targetUtilization * slots ==> change <= 0.0)
                  && (used as real == cfg.targetUtilization * slots ==> change == 0.0))
  {
    if maxSlots > 0 && cfg.targetUtilization > 0.0 {
      DeviationSign(used as real, maxSlots as real, cfg.targetUtilization, cfg.baseFeeChangeRate);
    }
  }

  lemma DeviationSign(used: real, slots: real, target: real, rate: real)
    requires slots > 0.0 && target > 0.0 && rate >= 0.0
    ensures var d := (used / slots - target) / target * rate;
            && (used > target * slots ==> d >= 0.0)
            && (used < target * slots ==> d <= 0.0)
            && (used == target * slots ==> d == 0.0)
  {
    var gap := used / slots - target;
    assert gap * slots == used - target * slots;
    SignOfFactor(gap, slots);
    SignOfFactor(gap / target, target);
    SignOfProduct(gap / target, rate);
  }

  lemma SignOfFactor(x: real, y: real)
    requires y > 0.0
    ensures (x * y > 0.0 ==> x > 0.0) && (x * y < 0.0 ==> x < 0.0) && (x * y == 0.0 ==> x == 0.0)
  {
  }

  lemma SignOfProduct(x: real, y: real)
    requires y >= 0.0
    ensures (x >= 0.0 ==> x * y >= 0.0) && (x <= 0.0 ==> x * y <= 0.0)
  {
  }

  lemma Grows(fee: real, a: real, b: real)
    requires fee >= 0.0 && a <= b
    ensures Scaled(fee, 1.0 + a) <= Scaled(fee, 1.0 + b)
  {
    assert fee * (b - a) >= 0.0;
  }

  /** One adjustment: bounded by the rate both ways, and its direction follows the utilisation. */
  lemma AdjustmentStep(cfg: Config, fee: real, used: int, maxSlots: int)
    requires SoundFees(cfg) && cfg.minBaseFee <= fee <= cfg.maxBaseFee
    ensures var next := AdjustedFee(cfg, fee, used, maxSlots);
            && cfg.minBaseFee <= next <= cfg.maxBaseFee
            && Scaled(fee, 1.0 - cfg.baseFeeChangeRate) <= next <= Scaled(fee, 1.0 + cfg.baseFeeChangeRate)
            && (maxSlots > 0 && cfg.targetUtilization > 0.0 ==>
                  && (used as real > cfg.targetUtilization * maxSlots as real ==> next >= fee)
                  && (used as real < cfg.targetUtilization * maxSlots as real ==> next <= fee)
                  && (used as real == cfg.targetUtilization * maxSlots as real ==> next == fee))
  {
    var rate := cfg.baseFeeChangeRate;
    Grows(fee, -rate, 0.0);
    Grows(fee, 0.0, rate);
    if maxSlots != 0 {
      ChangeFollowsUtilisation(cfg, used, maxSlots);
      BoundedMove(fee, FeeChange(cfg, used, maxSlots), rate);
    }
  }

  lemma BoundedMove(fee: real, change: real, rate: real)
    requires fee >= 0.0 && -rate <= change <= rate
    ensures Scaled(fee, 1.0 - rate) <= Scaled(fee, 1.0 + change) <= Scaled(fee, 1.0 + rate)
    ensures (change >= 0.0 ==> Scaled(fee, 1.0 + change) >= fee) && (change <= 0.0 ==> Scaled(fee, 1.0 + change) <= fee)
  {
    Grows(fee, -rate, change);
    Grows(fee, change, rate);
    if change >= 0.0 {
      Grows(fee, 0.0, change);
    } else {
      Grows(fee, change, 0.0);
    }
  }

  lemma ScaledMonotone(a: real, b: real, x: real)
    requires a <= b && x >= 0.0
    ensures Scaled(a, x) <= Scaled(b, x)
  {
    assert (b - a) * x >= 0.0;
  }

  lemma {:induction false} CompoundedMonotone(a: real, b: real, x: real, n: nat)
    requires a <= b && x >= 0.0
    ensures Compounded(a, x, n) <= Compounded(b, x, n)
    decreases n
  {
    if n > 0 {
      ScaledMonotone(a, b, x);
      CompoundedMonotone(Scaled(a, x), Scaled(b, x), x, n - 1);
    }
  }

  /** The curves in closed form. */
  lemma {:induction false} CompoundedIsPower(start: real, x: real, n: nat)
    ensures Compounded(start, x, n) == start * Power(x, n)
    decreases n
  {
    if n > 0 {
      CompoundedIsPower(Scaled(start, x), x, n - 1);
      assert start * x * Power(x, n - 1) == start * (x * Power(x, n - 1));
    }
  }

  lemma CurvesStep(fee: real, next: real, down: real, up: real, n: nat)
    requires 0.0 <= down && 0.0 <= up && Scaled(fee, down) <= next <= Scaled(fee, up)
    ensures Compounded(fee, down, n + 1) <= Compounded(next, down, n)
    ensures Compounded(next, up, n) <= Compounded(fee, up, n + 1)
  {
    CompoundedMonotone(Scaled(fee, down), next, down, n);
    CompoundedMonotone(next, Scaled(fee, up), up, n);
  }

  lemma FeeOfStep(cfg: Config, m: Market, e: Event)
    requires SoundFees(cfg) && cfg.minBaseFee <= m.baseFee <= cfg.maxBaseFee
    ensures var next := Step(cfg, m, e).baseFee;
            && cfg.minBaseFee <= next <= cfg.maxBaseFee
            && (if e.BlockEvent?
                then Scaled(m.baseFee, 1.0 - cfg.baseFeeChangeRate) <= next
                     <= Scaled(m.baseFee, 1.0 + cfg.baseFeeChangeRate)
                else next == m.baseFee)
  {
    if e.BlockEvent? {
      AdjustmentStep(cfg, m.baseFee, |SlotsIn(cfg, m, e)|, cfg.maxTasksPerBlock);
    }
  }

  /** The fee of every run stays inside its limits and between the curves f0 (1 - rate)^n and f0 (1 + rate)^n. */
  lemma {:induction false} BaseFeeEnvelope(cfg: Config, m: Market, es: seq<Event>)
    requires SoundFees(cfg) && cfg.minBaseFee <= m.baseFee <= cfg.maxBaseFee
    ensures cfg.minBaseFee <= Run(cfg, m, es).baseFee <= cfg.maxBaseFee
    ensures Compounded(m.baseFee, 1.0 - cfg.baseFeeChangeRate, Blocks(es)) <= Run(cfg, m, es).baseFee
    ensures Run(cfg, m, es).baseFee <= Compounded(m.baseFee, 1.0 + cfg.baseFeeChangeRate, Blocks(es))
    decreases es
  {
    if es != [] {
      var next, rate := Step(cfg, m, es[0]), cfg.baseFeeChangeRate;
      FeeOfStep(cfg, m, es[0]);
      if es[0].BlockEvent? {
        CurvesStep(m.baseFee, next.baseFee, 1.0 - rate, 1.0 + rate, Blocks(es[1..]));
      }
      BaseFeeEnvelope(cfg, Step(cfg, m, es[0]), es[1..]);
    }
  }
}
