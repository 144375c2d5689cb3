/** In every reachable state all rounds are under way: no counter has reached the number that starts a new round. */
module SchedulerRounds {
  import opened Basics
  import opened Scheduler
  import opened SchedulerRuns

  ghost predicate InRound(slots: seq<Slot>) {
    forall k :: 0 <= k < |slots| ==> slots[k].iterationsThisRound < ROUND_ITERATIONS
  }

  lemma RebuildInRound(fair: bool, s: State, later: State)
    requires InRound(s.slots) && later == Rebuild(fair, s)
    ensures InRound(later.slots)
  {
  }

  lemma UpdateInRound(slots: seq<Slot>, k: nat, slot: Slot)
    requires InRound(slots) && k < |slots| && slot.iterationsThisRound < ROUND_ITERATIONS
    ensures InRound(slots[k := slot])
  {
  }

  /** Replacing a slot, and perhaps rebuilding. */
  lemma RebuiltUpdateInRound(fair: bool, s: State, k: nat, slot: Slot, round: nat, later: State)
    requires InRound(s.slots) && k < |s.slots| && slot.iterationsThisRound < ROUND_ITERATIONS
    requires later == Rebuild(fair, State(s.slots[k := slot], s.queue, round))
    ensures InRound(later.slots)
  {
    UpdateInRound(s.slots, k, slot);
    RebuildInRound(fair, State(s.slots[k := slot], s.queue, round), later);
  }

  lemma RecordInRound(fair: bool, s: State, id: string, cost: Option<real>, later: State)
    requires InRound(s.slots) && later == Recorded(fair, s, id, cost).1
    ensures InRound(later.slots)
  {
    var k := Find(s.slots, id, 0);
    if k < |s.slots| {
      var slot := s.slots[k];
      var price := if cost.Some? then cost.value else slot.paymentPerIteration;
      if slot.paymentBalance < price {
        RebuiltUpdateInRound(fair, s, k, slot.(isPaidUp := false), s.round, later);
      } else {
        CountInRound(fair, s, k, Charged(slot, price), later);
      }
    }
  }

  lemma CountInRound(fair: bool, s: State, k: nat, slot: Slot, later: State)
    requires InRound(s.slots) && k < |s.slots| && later == Counted(fair, s, k, slot)
    ensures InRound(later.slots)
  {
    var counted := slot.(totalIterations := slot.totalIterations + 1);
    if slot.iterationsThisRound + 1 >= ROUND_ITERATIONS {
      RebuiltUpdateInRound(fair, s, k, counted.(iterationsThisRound := 0), s.round + 1, later);
    } else {
      UpdateInRound(s.slots, k, counted.(iterationsThisRound := slot.iterationsThisRound + 1));
    }
  }

  lemma RegisterInRound(fair: bool, s: State, slot: Slot, later: State)
    requires InRound(s.slots) && slot.iterationsThisRound == 0 && later == Registered(fair, s, slot)
    ensures InRound(later.slots)
  {
    if Find(s.slots, slot.modelId, 0) == |s.slots| {
      RebuildInRound(fair, s.(slots := s.slots + [slot]), later);
    }
  }

  lemma RemoveInRound(fair: bool, s: State, id: string, later: State)
    requires InRound(s.slots) && later == Removed(fair, s, id).1
    ensures InRound(later.slots)
  {
    var k := Find(s.slots, id, 0);
    if k < |s.slots| {
      RebuildInRound(fair, s.(slots := s.slots[..k] + s.slots[k + 1..]), later);
    }
  }

  lemma PayInRound(fair: bool, s: State, id: string, amount: real, later: State)
    requires InRound(s.slots) && later == PaidInto(fair, s, id, amount).1
    ensures InRound(later.slots)
  {
    var k := Find(s.slots, id, 0);
    if k < |s.slots| {
      var slot := Topped(s.slots[k], amount);
      if !slot.isPaidUp && Funded(slot) {
        RebuiltUpdateInRound(fair, s, k, slot.(isPaidUp := true), s.round, later);
      } else {
        UpdateInRound(s.slots, k, slot);
      }
    }
  }

  lemma ActivateInRound(fair: bool, s: State, id: string, active: bool, later: State)
    requires InRound(s.slots) && later == Activated(fair, s, id, active).1
    ensures InRound(later.slots)
  {
    var k := Find(s.slots, id, 0);
    if k < |s.slots| {
      RebuiltUpdateInRound(fair, s, k, s.slots[k].(isActive := active), s.round, later);
    }
  }

  lemma DeprecateInRound(fair: bool, s: State, id: string, later: State)
    requires InRound(s.slots) && later == Deprecated(fair, s, id).1
    ensures InRound(later.slots)
  {
    var k := Find(s.slots, id, 0);
    if k < |s.slots| {
      RebuiltUpdateInRound(fair, s, k, s.slots[k].(isDeprecated := true, isActive := false), s.round, later);
    }
  }

  lemma WithdrawInRound(s: State, id: string, owner: string, later: State)
    requires InRound(s.slots) && later == Withdrawn(s, id, owner).1
    ensures InRound(later.slots)
  {
    var k := Find(s.slots, id, 0);
    if k < |s.slots| {
      UpdateInRound(s.slots, k, s.slots[k].(paymentBalance := 0.0));
    }
  }

  lemma ChooseInRound(fair: bool, s: State, later: State)
    requires InRound(s.slots) && later == Choose(fair, s).1
    ensures InRound(later.slots)
  {
    RebuildInRound(fair, s, Rebuild(fair, s));
  }

  lemma StepInRound(fair: bool, s: State, op: Op, later: State)
    requires InRound(s.slots) && later == After(fair, s, op)
    ensures InRound(later.slots)
  {
    match op
    case Register(id, owner, price, initial, priority) =>
      RegisterInRound(fair, s, NewSlot(id, owner, price, initial, priority), later);
    case GetNext => ChooseInRound(fair, s, later);
    case Record(id, cost) => RecordInRound(fair, s, id, cost, later);
    case Pay(id, amount) => PayInRound(fair, s, id, amount, later);
    case SetActive(id, active) => ActivateInRound(fair, s, id, active, later);
    case Deprecate(id) => DeprecateInRound(fair, s, id, later);
    case Withdraw(id, owner) => WithdrawInRound(s, id, owner, later);
    case Remove(id) => RemoveInRound(fair, s, id, later);
  }

  /** After any operations from an empty scheduler. */
  lemma {:induction false} RunsInRound(fair: bool, ops: seq<Op>)
    ensures InRound(AfterAll(fair, State([], [], 0), ops).slots)
  {
    if ops != [] {
      var last := |ops| - 1;
      RunsInRound(fair, ops[..last]);
      StepInRound(fair, AfterAll(fair, State([], [], 0), ops[..last]), ops[last],
                  AfterAll(fair, State([], [], 0), ops));
    }
  }
}
