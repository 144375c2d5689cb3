/**
  The training-task fee market: a mempool of paid training requests, greedily packed into a block
  by effective tip, with per-model cooldowns and a self-adjusting base fee.

  The dictionary of pending tasks is a sequence with unique task ids, in insertion order, because
  selection walks it in that order. Fees and tips are reals. The VRF tie-break of a block is a
  function from task ids to integers.
 */
module FeeMarket {
  import opened Basics
  import opened StableSort

  datatype Task = Task(
    taskId: string, modelId: string, owner: string,
    deposit: real, baseFee: real, tip: real,
    submittedBlock: int, expiryBlock: int)

  datatype Slot = Slot(taskId: string, modelId: string, owner: string, tipPaid: real, baseFeeBurned: real)

  datatype Config = Config(
    maxTasksPerBlock: int, initialBaseFee: real, baseFeeChangeRate: real, targetUtilization: real,
    minBaseFee: real, maxBaseFee: real, urgencyRate: real, urgencyCap: real,
    defaultCooldownBlocks: int, maxCooldownBlocks: int, minTip: real)

  /** Everything the market remembers between calls. */
  datatype Market = Market(
    baseFee: real, cooldowns: map<string, int>, pending: seq<Task>,
    lastSlotsUsed: int, lastHeight: int)

  datatype Verdict = Accepted | BaseFeeTooLow | TipTooLow | DepositTooSmall | DuplicateTask | InCooldown

  datatype CancelVerdict = Cancelled | TaskNotFound | NotTheOwner

  // ----- arithmetic

  function Urgency(cfg: Config, t: Task, block: int): real {
    var waiting := MaxInt(0, block - t.submittedBlock);
    Min(1.0 + waiting as real * cfg.urgencyRate, cfg.urgencyCap)
  }

  function EffectiveTip(cfg: Config, t: Task, block: int): real {
    t.tip * Urgency(cfg, t, block)
  }

  function SortKey(cfg: Config, block: int, tiebreak: string -> int): Task -> Rank {
    (t: Task) => Rank(EffectiveTip(cfg, t, block), tiebreak(t.taskId))
  }

  /** How long a model rests after being scheduled. */
  function CooldownLength(cfg: Config): int {
    MaxInt(1, MinInt(cfg.defaultCooldownBlocks, cfg.maxCooldownBlocks))
  }

  predicate Cooling(cooldowns: map<string, int>, modelId: string, block: int) {
    block < if modelId in cooldowns then cooldowns[modelId] else 0
  }

  /** The relative fee change of one block, clamped to the configured rate both ways. */
  function FeeChange(cfg: Config, used: int, maxSlots: int): real
    requires maxSlots != 0
  {
    var target, rate := cfg.targetUtilization, cfg.baseFeeChangeRate;
    var deviation := if target > 0.0 then (used as real / maxSlots as real - target) / target else 0.0;
    Max(-rate, Min(rate, deviation * rate))
  }

  function Scaled(fee: real, factor: real): real { fee * factor }

  function AdjustedFee(cfg: Config, fee: real, used: int, maxSlots: int): real {
    if maxSlots == 0 then fee
    else Max(cfg.minBaseFee, Min(cfg.maxBaseFee, Scaled(fee, 1.0 + FeeChange(cfg, used, maxSlots))))
  }

  // ----- selection

  predicate CanRun(t: Task, cooldowns: map<string, int>, block: int) {
    !Cooling(cooldowns, t.modelId, block) && block < t.expiryBlock
  }

  function Eligible(tasks: seq<Task>, cooldowns: map<string, int>, block: int): seq<Task> {
    if tasks == [] then []
    else (if CanRun(tasks[0], cooldowns, block) then [tasks[0]] else []) + Eligible(tasks[1..], cooldowns, block)
  }

  /** Walks `tasks` in order, taking the first task of each model that is not in `seen`. */
  function Pack(tasks: seq<Task>, seen: set<string>, room: int): seq<Task> {
    if tasks == [] || room <= 0 then []
    else if tasks[0].modelId in seen then Pack(tasks[1..], seen, room)
    else [tasks[0]] + Pack(tasks[1..], seen + {tasks[0].modelId}, room - 1)
  }

  function Selected(cfg: Config, m: Market, block: int, tiebreak: string -> int, room: int): seq<Task> {
    Pack(Sort(Eligible(m.pending, m.cooldowns, block), SortKey(cfg, block, tiebreak)), {}, room)
  }

  function SlotOf(t: Task): Slot {
    Slot(t.taskId, t.modelId, t.owner, t.tip, t.baseFee)
  }

  function SlotsOf(tasks: seq<Task>): (slots: seq<Slot>)
    ensures |slots| == |tasks|
    ensures forall i :: 0 <= i < |tasks| ==> slots[i] == SlotOf(tasks[i])
  {
    seq(|tasks|, i requires 0 <= i < |tasks| => SlotOf(tasks[i]))
  }

  // ----- transitions

  function TaskIds(tasks: seq<Task>): set<string> { set t | t in tasks :: t.taskId }

  function SlotTasks(slots: seq<Slot>): set<string> { set s | s in slots :: s.taskId }

  function SlotModels(slots: seq<Slot>): set<string> { set s | s in slots :: s.modelId }

  function SubmitVerdict(cfg: Config, m: Market, t: Task, block: int): Verdict {
    if t.baseFee < m.baseFee then BaseFeeTooLow
    else if t.tip < cfg.minTip then TipTooLow
    else if t.deposit < t.baseFee + t.tip then DepositTooSmall
    else if t.taskId in TaskIds(m.pending) then DuplicateTask
    else if Cooling(m.cooldowns, t.modelId, block) then InCooldown
    else Accepted
  }

  function Submit(cfg: Config, m: Market, t: Task, block: int): Market {
    if SubmitVerdict(cfg, m, t, block).Accepted? then m.(pending := m.pending + [t]) else m
  }

  /** The tasks whose id is not in `ids`, in their old order. */
  function Without(tasks: seq<Task>, ids: set<string>): seq<Task> {
    if tasks == [] then []
    else (if tasks[0].taskId in ids then [] else [tasks[0]]) + Without(tasks[1..], ids)
  }

  function Cancel(m: Market, taskId: string, owner: string): Market {
    if exists t :: t in m.pending && t.taskId == taskId && t.owner == owner
    then m.(pending := Without(m.pending, {taskId})) else m
  }

  /** Every model in `models` rests until `until`; the others keep their entry. */
  function Cooled(cooldowns: map<string, int>, models: set<string>, until: int): map<string, int> {
    cooldowns + (map id | id in models :: until)
  }

  function Finalize(cfg: Config, m: Market, slots: seq<Slot>, block: int): Market {
    Market(
      AdjustedFee(cfg, m.baseFee, |slots|, cfg.maxTasksPerBlock),
      Cooled(m.cooldowns, SlotModels(slots), block + CooldownLength(cfg)),
      Without(m.pending, SlotTasks(slots)),
      |slots|, block)
  }

  function Stale(tasks: seq<Task>, block: int): seq<Task> {
    if tasks == [] then []
    else (if block >= tasks[0].expiryBlock then [tasks[0]] else []) + Stale(tasks[1..], block)
  }

  function Fresh(tasks: seq<Task>, block: int): seq<Task> {
    if tasks == [] then []
    else (if block >= tasks[0].expiryBlock then [] else [tasks[0]]) + Fresh(tasks[1..], block)
  }

  predicate UniqueIds(tasks: seq<Task>) {
    forall i, j :: 0 <= i < j < |tasks| ==> tasks[i].taskId != tasks[j].taskId
  }

  // ----- facts about the list helpers, used by the class

  lemma {:induction false} EligibleMembers(tasks: seq<Task>, cooldowns: map<string, int>, block: int)
    ensures forall t :: t in Eligible(tasks, cooldowns, block) <==> t in tasks && CanRun(t, cooldowns, block)
  {
    if tasks != [] {
      EligibleMembers(tasks[1..], cooldowns, block);
    }
  }

  lemma {:induction false} WithoutMembers(tasks: seq<Task>, ids: set<string>)
    ensures forall t :: t in Without(tasks, ids) <==> t in tasks && t.taskId !in ids
    ensures UniqueIds(tasks) ==> UniqueIds(Without(tasks, ids))
  {
    if tasks != [] {
      WithoutMembers(tasks[1..], ids);
      var rest := Without(tasks[1..], ids);
      assert forall i :: 0 <= i < |rest| ==> rest[i] in rest;
      if UniqueIds(tasks) {
        assert forall i, j :: 0 <= i < j < |tasks[1..]| ==>
                 tasks[1..][i] == tasks[i + 1] && tasks[1..][j] == tasks[j + 1];
        forall t | t in rest ensures t.taskId != tasks[0].taskId {
          var i :| 0 <= i < |tasks[1..]| && tasks[1..][i] == t;
          assert tasks[i + 1] == t;
        }
      }
    }
  }

  lemma {:induction false} WithoutTwice(tasks: seq<Task>, a: set<string>, b: set<string>)
    ensures Without(Without(tasks, a), b) == Without(tasks, a + b)
  {
    if tasks != [] {
      WithoutTwice(tasks[1..], a, b);
      var rest := Without(tasks[1..], a);
      if tasks[0].taskId in a {
        assert Without(tasks, a) == rest;
      } else {
        assert Without(tasks, a) == [tasks[0]] + rest;
      }
    }
  }

  lemma {:induction false} WithoutNothing(tasks: seq<Task>)
    ensures Without(tasks, {}) == tasks
  {
    if tasks != [] {
      WithoutNothing(tasks[1..]);
    }
  }

  lemma {:induction false} SplitByExpiry(tasks: seq<Task>, block: int)
    requires UniqueIds(tasks)
    ensures Without(tasks, TaskIds(Stale(tasks, block))) == Fresh(tasks, block)
    ensures forall t :: t in Stale(tasks, block) <==> t in tasks && block >= t.expiryBlock
  {
    if tasks != [] {
      var t, rest := tasks[0], tasks[1..];
      SplitByExpiry(rest, block);
      forall u | u in rest ensures u.taskId != t.taskId {
        var i :| 0 <= i < |rest| && rest[i] == u;
        assert tasks[i + 1] == u;
      }
      WithoutAgrees(rest, TaskIds(Stale(tasks, block)), TaskIds(Stale(rest, block)));
    }
  }

  lemma {:induction false} WithoutAgrees(tasks: seq<Task>, a: set<string>, b: set<string>)
    requires forall t :: t in tasks ==> (t.taskId in a <==> t.taskId in b)
    ensures Without(tasks, a) == Without(tasks, b)
  {
    if tasks != [] {
      assert tasks[0] in tasks;
      WithoutAgrees(tasks[1..], a, b);
    }
  }

  lemma OneMoreSlot(slots: seq<Slot>, slot: Slot)
    ensures SlotTasks(slots + [slot]) == SlotTasks(slots) + {slot.taskId}
    ensures SlotModels(slots + [slot]) == SlotModels(slots) + {slot.modelId}
  {
    var all := slots + [slot];
    assert forall s :: s in all <==> s in slots || s == slot;
    assert SlotTasks(all) == SlotTasks(slots) + {slot.taskId};
    assert SlotModels(all) == SlotModels(slots) + {slot.modelId};
  }

  lemma OneMoreTask(tasks: seq<Task>, task: Task)
    ensures TaskIds(tasks + [task]) == TaskIds(tasks) + {task.taskId}
  {
    assert forall t :: t in tasks + [task] <==> t in tasks || t == task;
    assert TaskIds(tasks + [task]) == TaskIds(tasks) + {task.taskId};
  }

  lemma SlotsOfOneMore(tasks: seq<Task>, task: Task)
    ensures SlotsOf(tasks + [task]) == SlotsOf(tasks) + [SlotOf(task)]
  {
  }

  /** What one more scheduled slot does to the two dictionaries. */
  lemma RetireOneMore(tasks: seq<Task>, cooldowns: map<string, int>, slots: seq<Slot>, slot: Slot, until: int)
    ensures Without(Without(tasks, SlotTasks(slots)), {slot.taskId}) == Without(tasks, SlotTasks(slots + [slot]))
    ensures Cooled(cooldowns, SlotModels(slots), until)[slot.modelId := until]
            == Cooled(cooldowns, SlotModels(slots + [slot]), until)
  {
    OneMoreSlot(slots, slot);
    WithoutTwice(tasks, SlotTasks(slots), {slot.taskId});
  }

  // ----- the stateful market

  class TrainingMarket {
    const cfg: Config
    var baseFee: real
    var cooldowns: map<string, int>
    var pending: seq<Task>
    var lastBlockSlotsUsed: int
    var lastBlockHeight: int

    ghost function State(): Market
      reads this
    {
      Market(baseFee, cooldowns, pending, lastBlockSlotsUsed, lastBlockHeight)
    }

    ghost predicate Valid()
      reads this
    {
      UniqueIds(pending)
    }

    constructor (cfg: Config)
      ensures Valid() && this.cfg == cfg
      ensures State() == Market(cfg.initialBaseFee, map[], [], 0, 0)
    {
      this.cfg := cfg;
      baseFee, cooldowns, pending := cfg.initialBaseFee, map[], [];
      lastBlockSlotsUsed, lastBlockHeight := 0, 0;
    }

    method SubmitTask(t: Task, block: int) returns (verdict: Verdict)
      requires Valid()
      modifies this
      ensures Valid()
      ensures verdict == SubmitVerdict(cfg, old(State()), t, block)
      ensures State() == Submit(cfg, old(State()), t, block)
    {
      if t.baseFee < baseFee { return BaseFeeTooLow; }
      if t.tip < cfg.minTip { return TipTooLow; }
      if t.deposit < t.baseFee + t.tip { return DepositTooSmall; }
      if exists u :: u in pending && u.taskId == t.taskId { return DuplicateTask; }
      assert t.taskId !in TaskIds(pending);
      if Cooling(cooldowns, t.modelId, block) { return InCooldown; }
      pending := pending + [t];
      return Accepted;
    }

    method CancelTask(taskId: string, owner: string) returns (verdict: CancelVerdict)
      requires Valid()
      modifies this
      ensures Valid()
      ensures verdict.TaskNotFound? <==> taskId !in TaskIds(old(pending))
      ensures verdict.Cancelled? <==> exists t :: t in old(pending) && t.taskId == taskId && t.owner == owner
      ensures State() == Cancel(old(State()), taskId, owner)
    {
      WithoutMembers(pending, {taskId});
      var i := 0;
      while i < |pending|
        invariant 0 <= i <= |pending|
        invariant forall j :: 0 <= j < i ==> pending[j].taskId != taskId
      {
        if pending[i].taskId == taskId {
          if pending[i].owner != owner {
            assert !exists t :: t in pending && t.taskId == taskId && t.owner == owner;
            return NotTheOwner;
          }
          assert pending[i] in pending;
          pending := Without(pending, {taskId});
          return Cancelled;
        }
        i := i + 1;
      }
      return TaskNotFound;
    }

    method FilterEligible(block: int) returns (eligible: seq<Task>)
      ensures eligible == Eligible(pending, cooldowns, block)
    {
      eligible := [];
      for i := 0 to |pending|
        invariant eligible + Eligible(pending[i..], cooldowns, block) == Eligible(pending, cooldowns, block)
      {
        if CanRun(pending[i], cooldowns, block) {
          eligible := eligible + [pending[i]];
        }
      }
    }

    /** Filter, sort, then pack one slot per model; the market itself is not touched. */
    method SelectTasksForBlock(block: int, tiebreak: string -> int, maxSlots: Option<int>)
      returns (selected: seq<Slot>)
      ensures selected == SlotsOf(Selected(cfg, State(), block, tiebreak,
                                           if maxSlots.Some? then maxSlots.value else cfg.maxTasksPerBlock))
    {
      var room := if maxSlots.Some? then maxSlots.value else cfg.maxTasksPerBlock;
      var eligible := FilterEligible(block);
      if eligible == [] {
        return [];
      }
      eligible := Sort(eligible, SortKey(cfg, block, tiebreak));
      selected := PackSlots(eligible, room);
    }

    static method PackSlots(eligible: seq<Task>, room: int) returns (selected: seq<Slot>)
      ensures selected == SlotsOf(Pack(eligible, {}, room))
    {
      var slotsUsed, seen := 0, {};
      ghost var taken: seq<Task> := [];
      selected := [];
      for i := 0 to |eligible|
        invariant slotsUsed == |taken| && selected == SlotsOf(taken)
        invariant taken + Pack(eligible[i..], seen, room - slotsUsed) == Pack(eligible, {}, room)
      {
        if slotsUsed >= room {
          assert taken == Pack(eligible, {}, room);
          return;
        }
        var task := eligible[i];
        if task.modelId !in seen {
          seen := seen + {task.modelId};
          SlotsOfOneMore(taken, task);
          selected := selected + [SlotOf(task)];
          taken := taken + [task];
          slotsUsed := slotsUsed + 1;
        }
      }
      assert taken == Pack(eligible, {}, room);
    }

    method FinalizeBlock(scheduled: seq<Slot>, block: int)
      requires Valid()
      modifies this
      ensures Valid()
      ensures State() == Finalize(cfg, old(State()), scheduled, block)
    {
      RetireScheduled(scheduled, block);
      baseFee := AdjustedFee(cfg, baseFee, |scheduled|, cfg.maxTasksPerBlock);
      lastBlockSlotsUsed, lastBlockHeight := |scheduled|, block;
    }

    /** The loop over the scheduled slots: drop the task, start the model's cooldown. */
    method RetireScheduled(scheduled: seq<Slot>, block: int)
      requires Valid()
      modifies `pending, `cooldowns
      ensures Valid()
      ensures pending == Without(old(pending), SlotTasks(scheduled))
      ensures cooldowns == Cooled(old(cooldowns), SlotModels(scheduled), block + CooldownLength(cfg))
    {
      ghost var until := block + CooldownLength(cfg);
      WithoutNothing(pending);
      assert SlotTasks(scheduled[..0]) == {};
      for i := 0 to |scheduled|
        invariant pending == Without(old(pending), SlotTasks(scheduled[..i]))
        invariant cooldowns == Cooled(old(cooldowns), SlotModels(scheduled[..i]), until)
      {
        var slot := scheduled[i];
        assert scheduled[..i] + [slot] == scheduled[..i + 1];
        RetireOneMore(old(pending), old(cooldowns), scheduled[..i], slot, until);
        pending := Without(pending, {slot.taskId});
        var rest := MaxInt(1, MinInt(cfg.defaultCooldownBlocks, cfg.maxCooldownBlocks));
        cooldowns := cooldowns[slot.modelId := block + rest];
      }
      assert scheduled[..|scheduled|] == scheduled;
      WithoutMembers(old(pending), SlotTasks(scheduled));
    }

    method ExpireStaleTasks(block: int) returns (expired: seq<Task>)
      requires Valid()
      modifies this
      ensures Valid()
      ensures expired == Stale(old(pending), block)
      ensures State() == old(State()).(pending := Fresh(old(pending), block))
    {
      expired := Stale(pending, block);
      WithoutNothing(pending);
      assert TaskIds(expired[..0]) == {};
      for i := 0 to |expired|
        invariant pending == Without(old(pending), TaskIds(expired[..i]))
        invariant unchanged(`baseFee, `cooldowns, `lastBlockSlotsUsed, `lastBlockHeight)
      {
        assert expired[..i] + [expired[i]] == expired[..i + 1];
        OneMoreTask(expired[..i], expired[i]);
        WithoutTwice(old(pending), TaskIds(expired[..i]), {expired[i].taskId});
        pending := Without(pending, {expired[i].taskId});
      }
      assert expired[..|expired|] == expired;
      SplitByExpiry(old(pending), block);
      WithoutMembers(old(pending), TaskIds(expired));
    }
  }
}
