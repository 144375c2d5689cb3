/** Pausing, deprecating and resuming: what brings a deprecated model back. */
module SchedulerLifecycle {
  import opened Basics
  import opened Scheduler
  import opened SchedulerRuns

  ghost predicate Retired(slots: seq<Slot>, id: string) {
    exists k :: 0 <= k < |slots| && slots[k].modelId == id && slots[k].isDeprecated && !slots[k].isActive
  }

  lemma RefreshKeepsRetired(slots: seq<Slot>, id: string)
    requires Retired(slots, id)
    ensures Retired(RefreshAll(slots), id)
  {
    var k :| 0 <= k < |slots| && slots[k].modelId == id && slots[k].isDeprecated && !slots[k].isActive;
    assert RefreshAll(slots)[k] == slots[k];
  }

  /** Updating one slot keeps a model retired, unless it is that model's slot and it comes back. */
  lemma UpdateKeepsRetired(slots: seq<Slot>, j: nat, slot: Slot, id: string)
    requires Retired(slots, id) && j < |slots| && slot.modelId == slots[j].modelId
    requires slot.modelId == id && slots[j].isDeprecated && !slots[j].isActive ==> slot.isDeprecated && !slot.isActive
    ensures Retired(slots[j := slot], id) && Retired(RefreshAll(slots[j := slot]), id)
  {
    var k :| 0 <= k < |slots| && slots[k].modelId == id && slots[k].isDeprecated && !slots[k].isActive;
    assert slots[j := slot][k] == if k == j then slot else slots[k];
    RefreshKeepsRetired(slots[j := slot], id);
  }

  lemma GrowthKeepsRetired(slots: seq<Slot>, slot: Slot, id: string)
    requires Retired(slots, id)
    ensures Retired(RefreshAll(slots + [slot]), id)
  {
    var k :| 0 <= k < |slots| && slots[k].modelId == id && slots[k].isDeprecated && !slots[k].isActive;
    assert (slots + [slot])[k] == slots[k];
    RefreshKeepsRetired(slots + [slot], id);
  }

  lemma RemovalKeepsRetired(slots: seq<Slot>, j: nat, id: string)
    requires Retired(slots, id) && j < |slots| && slots[j].modelId != id
    ensures Retired(RefreshAll(slots[..j] + slots[j + 1..]), id)
  {
    var k :| 0 <= k < |slots| && slots[k].modelId == id && slots[k].isDeprecated && !slots[k].isActive;
    var rest := slots[..j] + slots[j + 1..];
    assert rest[if k < j then k else k - 1] == slots[k];
    RefreshKeepsRetired(rest, id);
  }

  /** Resuming brings a deprecated model back. */
  lemma ResumeUndoesDeprecation(fair: bool, s: State, id: string, later: State)
    requires Distinct(s.slots) && Retired(s.slots, id) && later == Activated(fair, s, id, true).1
    ensures !Retired(later.slots, id)
  {
    var k := Find(s.slots, id, 0);
    forall j | 0 <= j < |later.slots| && later.slots[j].modelId == id ensures later.slots[j].isActive {
      assert j == k;
    }
  }

  /**
    Contrary to the documentation a deprecated model can be reactivated: among all operations but its
    removal, resuming it is the one that does.
   */
  lemma StaysRetiredIff(fair: bool, s: State, op: Op, id: string, later: State)
    requires Distinct(s.slots) && Retired(s.slots, id) && op != Remove(id) && later == After(fair, s, op)
    ensures Retired(later.slots, id) <==> op != SetActive(id, true)
  {
    match op
    case Register(newId, owner, price, initial, priority) =>
      RegisterKeepsRetired(fair, s, NewSlot(newId, owner, price, initial, priority), id, later);
    case GetNext => ChooseKeepsRetired(fair, s, id, later);
    case Record(other, cost) => RecordKeepsRetired(fair, s, other, cost, id, later);
    case Pay(other, amount) => PayKeepsRetired(fair, s, other, amount, id, later);
    case SetActive(other, active) =>
      if other == id && active {
        ResumeUndoesDeprecation(fair, s, id, later);
      } else {
        ActivateKeepsRetired(fair, s, other, active, id, later);
      }
    case Deprecate(other) => DeprecateKeepsRetired(fair, s, other, id, later);
    case Withdraw(other, owner) => WithdrawKeepsRetired(s, other, owner, id, later);
    case Remove(other) => RemoveKeepsRetired(fair, s, other, id, later);
  }

  lemma StepKeepsDistinct(fair: bool, s: State, op: Op, later: State)
    requires Invariant(fair, false, s) && later == After(fair, s, op)
    ensures Invariant(fair, false, later) && Distinct(later.slots)
  {
    StepKeeps(fair, false, s, op, later);
  }

  /** Retired in every state of a run. */
  ghost predicate RetiredThroughout(fair: bool, s: State, ops: seq<Op>, id: string)
    decreases ops
  {
    Retired(s.slots, id) && (ops != [] ==> RetiredThroughout(fair, After(fair, s, ops[0]), ops[1..], id))
  }

  /** On every run without its removal a deprecated model stays retired throughout if and only if nobody resumes it. */
  lemma {:induction false} StaysRetiredThroughoutIff(fair: bool, s: State, ops: seq<Op>, id: string)
    requires Invariant(fair, false, s) && Retired(s.slots, id) && Remove(id) !in ops
    ensures RetiredThroughout(fair, s, ops, id) <==> SetActive(id, true) !in ops
    decreases ops
  {
    if ops != [] {
      var later := After(fair, s, ops[0]);
      StepKeepsDistinct(fair, s, ops[0], later);
      StaysRetiredIff(fair, s, ops[0], id, later);
      if Retired(later.slots, id) {
        StaysRetiredThroughoutIff(fair, later, ops[1..], id);
      } else {
        assert !RetiredThroughout(fair, later, ops[1..], id);
      }
    }
  }

  lemma RegisterKeepsRetired(fair: bool, s: State, slot: Slot, id: string, later: State)
    requires Retired(s.slots, id) && later == Registered(fair, s, slot)
    ensures Retired(later.slots, id)
  {
    GrowthKeepsRetired(s.slots, slot, id);
  }

  lemma ChooseKeepsRetired(fair: bool, s: State, id: string, later: State)
    requires Retired(s.slots, id) && later == Choose(fair, s).1
    ensures Retired(later.slots, id)
  {
    RefreshKeepsRetired(s.slots, id);
    assert later.slots == s.slots || later.slots == RefreshAll(s.slots);
  }

  lemma RecordKeepsRetired(fair: bool, s: State, other: string, cost: Option<real>, id: string, later: State)
    requires Retired(s.slots, id) && later == Recorded(fair, s, other, cost).1
    ensures Retired(later.slots, id)
  {
    var k := Find(s.slots, other, 0);
    if k < |s.slots| {
      var slot := s.slots[k];
      var price := if cost.Some? then cost.value else slot.paymentPerIteration;
      if slot.paymentBalance < price {
        UpdateKeepsRetired(s.slots, k, slot.(isPaidUp := false), id);
      } else {
        CountKeepsRetired(fair, s, k, Charged(slot, price), id, later);
      }
    }
  }

  lemma CountKeepsRetired(fair: bool, s: State, k: nat, paid: Slot, id: string, later: State)
    requires Retired(s.slots, id) && k < |s.slots| && later == Counted(fair, s, k, paid)
    requires paid.modelId == s.slots[k].modelId && paid.isActive == s.slots[k].isActive
    requires paid.isDeprecated == s.slots[k].isDeprecated
    ensures Retired(later.slots, id)
  {
    var counted := paid.(totalIterations := paid.totalIterations + 1);
    if paid.iterationsThisRound + 1 >= ROUND_ITERATIONS {
      UpdateKeepsRetired(s.slots, k, counted.(iterationsThisRound := 0), id);
    } else {
      UpdateKeepsRetired(s.slots, k, counted.(iterationsThisRound := paid.iterationsThisRound + 1), id);
    }
  }

  lemma PayKeepsRetired(fair: bool, s: State, other: string, amount: real, id: string, later: State)
    requires Retired(s.slots, id) && later == PaidInto(fair, s, other, amount).1
    ensures Retired(later.slots, id)
  {
    var k := Find(s.slots, other, 0);
    if k < |s.slots| {
      var slot := Topped(s.slots[k], amount);
      if !slot.isPaidUp && Funded(slot) {
        UpdateKeepsRetired(s.slots, k, slot.(isPaidUp := true), id);
      } else {
        UpdateKeepsRetired(s.slots, k, slot, id);
      }
    }
  }

  lemma ActivateKeepsRetired(fair: bool, s: State, other: string, active: bool, id: string, later: State)
    requires Retired(s.slots, id) && !(other == id && active) && later == Activated(fair, s, other, active).1
    ensures Retired(later.slots, id)
  {
    var k := Find(s.slots, other, 0);
    if k < |s.slots| {
      UpdateKeepsRetired(s.slots, k, s.slots[k].(isActive := active), id);
    }
  }

  lemma DeprecateKeepsRetired(fair: bool, s: State, other: string, id: string, later: State)
    requires Retired(s.slots, id) && later == Deprecated(fair, s, other).1
    ensures Retired(later.slots, id)
  {
    var k := Find(s.slots, other, 0);
    if k < |s.slots| {
      UpdateKeepsRetired(s.slots, k, s.slots[k].(isDeprecated := true, isActive := false), id);
    }
  }

  lemma WithdrawKeepsRetired(s: State, other: string, owner: string, id: string, later: State)
    requires Retired(s.slots, id) && later == Withdrawn(s, other, owner).1
    ensures Retired(later.slots, id)
  {
    var k := Find(s.slots, other, 0);
    if k < |s.slots| {
      UpdateKeepsRetired(s.slots, k, s.slots[k].(paymentBalance := 0.0), id);
    }
  }

  lemma RemoveKeepsRetired(fair: bool, s: State, other: string, id: string, later: State)
    requires Retired(s.slots, id) && other != id && later == Removed(fair, s, other).1
    ensures Retired(later.slots, id)
  {
    var k := Find(s.slots, other, 0);
    if k < |s.slots| {
      RemovalKeepsRetired(s.slots, k, id);
    }
  }
}
