/**
  The books of the scheduler: what a model's balance and counters are after any operations, out of what was paid in,
  charged and withdrawn; and what the single operations do to a slot.
 */
module SchedulerLedger {
  import opened Basics
  import opened Scheduler
  import opened SchedulerRuns

  /** A refresh decides from the balance whether an active model counts as paid up, and leaves all else as it is. */
  lemma RefreshIs(slot: Slot)
    ensures slot.isActive ==>
              Refresh(slot) == slot.(isPaidUp := slot.paymentBalance >= slot.minBalanceRequired)
    ensures !slot.isActive ==> Refresh(slot) == slot
  {
  }

  /** What every operation leaves of a slot but its balance, counters and flags. */
  ghost predicate SameTerms(a: Slot, b: Slot) {
    && a.modelId == b.modelId && a.owner == b.owner && a.priority == b.priority
    && a.paymentPerIteration == b.paymentPerIteration && a.minBalanceRequired == b.minBalanceRequired
  }

  function Price(slot: Slot, cost: Option<real>): real {
    if cost.Some? then cost.value else slot.paymentPerIteration
  }

  /** The operation is an iteration of this model that its balance pays for. */
  predicate Charges(slot: Slot, op: Op) {
    op.Record? && op.id == slot.modelId && Price(slot, op.cost) <= slot.paymentBalance
  }

  /** The operation is a withdrawal by its owner while it is inactive or deprecated. */
  predicate Withdraws(slot: Slot, op: Op) {
    op.Withdraw? && op.id == slot.modelId && op.owner == slot.owner && (!slot.isActive || slot.isDeprecated)
  }

  /** What the operation does to the balance of the slot. */
  function BalanceChange(slot: Slot, op: Op): real {
    if op.Pay? && op.id == slot.modelId then op.amount
    else if Charges(slot, op) then -Price(slot, op.cost)
    else if Withdraws(slot, op) then -slot.paymentBalance
    else 0.0
  }

  /** `b` is the slot `a` after the operation. */
  ghost predicate Booked(a: Slot, op: Op, b: Slot) {
    && SameTerms(a, b) && b.paymentBalance == a.paymentBalance + BalanceChange(a, op)
    && b.totalIterations == a.totalIterations + (if Charges(a, op) then 1 else 0)
    && b.totalPayments == a.totalPayments + (if Charges(a, op) then Price(a, op.cost) else 0.0)
    && b.isActive == (if op == SetActive(a.modelId, true) then true
                      else if op == SetActive(a.modelId, false) || op == Deprecate(a.modelId) then false
                      else a.isActive)
    && b.isDeprecated == (a.isDeprecated || op == Deprecate(a.modelId))
  }

  lemma RefreshedBooked(a: Slot, op: Op, b: Slot)
    requires Booked(a, op, b)
    ensures Booked(a, op, Refresh(b))
  {
  }

  lemma FoundAt(slots: seq<Slot>, k: nat)
    requires Distinct(slots) && k < |slots|
    ensures Find(slots, slots[k].modelId, 0) == k
  {
  }

  /** The operation is about one model. */
  predicate IsAbout(op: Op, id: string) {
    match op
    case Register(_, _, _, _, _) => false
    case GetNext => false
    case Record(x, _) => x == id
    case Pay(x, _) => x == id
    case SetActive(x, _) => x == id
    case Deprecate(x) => x == id
    case Withdraw(x, _) => x == id
    case Remove(x) => x == id
  }

  lemma NotConcerned(slot: Slot, op: Op)
    requires !IsAbout(op, slot.modelId)
    ensures Booked(slot, op, slot)
  {
  }

  /** `t` has the slots of `s` with one replaced, refreshed or not. */
  ghost predicate Replaces(s: State, j: nat, slot: Slot, t: State)
    requires j < |s.slots|
  {
    t.slots == s.slots[j := slot] || t.slots == RefreshAll(s.slots[j := slot])
  }

  /** When the books are right for the slot that is replaced, they are for all. */
  lemma ReplacedBooks(s: State, op: Op, j: nat, slot: Slot, k: nat, t: State)
    requires Distinct(s.slots) && j < |s.slots| && k < |s.slots| && Replaces(s, j, slot, t)
    requires IsAbout(op, s.slots[j].modelId) && Booked(s.slots[j], op, slot)
    requires forall id :: IsAbout(op, id) ==> id == s.slots[j].modelId
    ensures |t.slots| == |s.slots| && Booked(s.slots[k], op, t.slots[k])
  {
    if k != j {
      NotConcerned(s.slots[k], op);
    }
    RefreshedBooked(s.slots[k], op, s.slots[j := slot][k]);
  }

  lemma Unknown(s: State, id: string, k: nat)
    requires k < |s.slots| && Find(s.slots, id, 0) == |s.slots|
    ensures s.slots[k].modelId != id
  {
  }

  /** The slot after an operation on it, and that its books are right. */
  function Reworked(slot: Slot, op: Op): Slot {
    match op
    case Record(_, cost) =>
      var price := Price(slot, cost);
      if slot.paymentBalance < price then slot.(isPaidUp := false)
      else
        var counted := Charged(slot, price).(totalIterations := slot.totalIterations + 1);
        counted.(iterationsThisRound := if slot.iterationsThisRound + 1 >= ROUND_ITERATIONS then 0
                                        else slot.iterationsThisRound + 1)
    case Pay(_, amount) =>
      var topped := Topped(slot, amount);
      if !topped.isPaidUp && Funded(topped) then topped.(isPaidUp := true) else topped
    case SetActive(_, active) => slot.(isActive := active)
    case Deprecate(_) => slot.(isDeprecated := true, isActive := false)
    case Withdraw(_, owner) =>
      if slot.owner != owner || (slot.isActive && !slot.isDeprecated) then slot else slot.(paymentBalance := 0.0)
    case _ => slot
  }

  lemma ReworkedBooked(slot: Slot, op: Op)
    requires IsAbout(op, slot.modelId) && !op.Remove?
    ensures Booked(slot, op, Reworked(slot, op))
  {
  }

  /** The slot with one iteration more, and a new round after ten. */
  function OnceMore(slot: Slot): Slot {
    slot.(totalIterations := slot.totalIterations + 1,
          iterationsThisRound := if slot.iterationsThisRound + 1 >= ROUND_ITERATIONS then 0
                                 else slot.iterationsThisRound + 1)
  }

  lemma CountedSlots(fair: bool, s: State, j: nat, slot: Slot)
    requires j < |s.slots|
    ensures Replaces(s, j, OnceMore(slot), Counted(fair, s, j, slot))
  {
  }

  lemma RecordedState(fair: bool, s: State, id: string, cost: Option<real>, j: nat, slot: Slot, price: real)
    requires j < |s.slots| && j == Find(s.slots, id, 0) && slot == s.slots[j] && price == Price(slot, cost)
    ensures Recorded(fair, s, id, cost).1
            == if slot.paymentBalance < price then Rebuild(fair, s.(slots := s.slots[j := slot.(isPaidUp := false)]))
               else Counted(fair, s, j, Charged(slot, price))
  {
  }

  lemma RecordReworks(slot: Slot, op: Op, price: real)
    requires op.Record? && price == Price(slot, op.cost)
    ensures Reworked(slot, op)
            == if slot.paymentBalance < price then slot.(isPaidUp := false) else OnceMore(Charged(slot, price))
  {
  }

  lemma RecordReplaces(fair: bool, s: State, op: Op, j: nat, t: State)
    requires j < |s.slots| && op.Record? && j == Find(s.slots, op.id, 0) && t == Recorded(fair, s, op.id, op.cost).1
    ensures Replaces(s, j, Reworked(s.slots[j], op), t)
  {
    var slot, price := s.slots[j], Price(s.slots[j], op.cost);
    RecordedState(fair, s, op.id, op.cost, j, slot, price);
    RecordReworks(slot, op, price);
    CountedSlots(fair, s, j, Charged(slot, price));
  }

  lemma PaidSlots(fair: bool, s: State, id: string, amount: real, j: nat, topped: Slot)
    requires j < |s.slots| && j == Find(s.slots, id, 0) && topped == Topped(s.slots[j], amount)
    ensures var t := PaidInto(fair, s, id, amount).1;
            t.slots == if !topped.isPaidUp && Funded(topped) then RefreshAll(s.slots[j := topped.(isPaidUp := true)])
                       else s.slots[j := topped]
  {
  }

  lemma PayReworks(slot: Slot, op: Op, topped: Slot)
    requires op.Pay? && topped == Topped(slot, op.amount)
    ensures Reworked(slot, op) == if !topped.isPaidUp && Funded(topped) then topped.(isPaidUp := true) else topped
  {
  }

  lemma PayReplaces(fair: bool, s: State, op: Op, j: nat, t: State)
    requires j < |s.slots| && op.Pay? && j == Find(s.slots, op.id, 0) && t == PaidInto(fair, s, op.id, op.amount).1
    ensures Replaces(s, j, Reworked(s.slots[j], op), t)
  {
    var topped := Topped(s.slots[j], op.amount);
    PaidSlots(fair, s, op.id, op.amount, j, topped);
    PayReworks(s.slots[j], op, topped);
  }

  lemma FlagReplaces(fair: bool, s: State, op: Op, j: nat, t: State)
    requires j < |s.slots| && (op.SetActive? || op.Deprecate?) && j == Find(s.slots, op.id, 0)
    requires t == After(fair, s, op)
    ensures Replaces(s, j, Reworked(s.slots[j], op), t)
  {
  }

  lemma WithdrawReplaces(s: State, op: Op, j: nat, t: State)
    requires j < |s.slots| && op.Withdraw? && j == Find(s.slots, op.id, 0) && t == Withdrawn(s, op.id, op.owner).1
    ensures Replaces(s, j, Reworked(s.slots[j], op), t)
  {
    assert s.slots[j := s.slots[j]] == s.slots;
  }

  lemma UnknownKeeps(fair: bool, s: State, op: Op, t: State)
    requires op.Record? || op.Pay? || op.SetActive? || op.Deprecate? || op.Withdraw?
    requires Find(s.slots, op.id, 0) == |s.slots| && t == After(fair, s, op)
    ensures t == s
  {
  }

  /** The books after an operation on one model. */
  lemma OneModelBooks(fair: bool, s: State, op: Op, k: nat, t: State)
    requires Distinct(s.slots) && k < |s.slots| && t == After(fair, s, op)
    requires op.Record? || op.Pay? || op.SetActive? || op.Deprecate? || op.Withdraw?
    ensures |t.slots| == |s.slots| && Booked(s.slots[k], op, t.slots[k])
  {
    var j := Find(s.slots, op.id, 0);
    if j == |s.slots| {
      Unknown(s, op.id, k);
      NotConcerned(s.slots[k], op);
      UnknownKeeps(fair, s, op, t);
    } else {
      if op.Record? {
        RecordReplaces(fair, s, op, j, t);
      } else if op.Pay? {
        PayReplaces(fair, s, op, j, t);
      } else if op.Withdraw? {
        WithdrawReplaces(s, op, j, t);
      } else {
        FlagReplaces(fair, s, op, j, t);
      }
      ReworkedBooked(s.slots[j], op);
      ReplacedBooks(s, op, j, Reworked(s.slots[j], op), k, t);
    }
  }

  lemma Idle(slots: seq<Slot>, k: nat, op: Op)
    requires k < |slots| && Booked(slots[k], op, slots[k])
    ensures Booked(slots[k], op, RefreshAll(slots)[k])
  {
    RefreshedBooked(slots[k], op, slots[k]);
  }

  lemma ChooseBooks(fair: bool, s: State, op: Op, k: nat, t: State)
    requires k < |s.slots| && op.GetNext? && t == Choose(fair, s).1
    ensures |t.slots| == |s.slots| && Booked(s.slots[k], op, t.slots[k])
  {
    Idle(s.slots, k, op);
    assert t.slots == s.slots || t.slots == RefreshAll(s.slots);
  }

  /** A new model comes last, with its first payment and nothing counted; the others are booked as before. */
  lemma RegisterBooks(fair: bool, s: State, op: Op, k: nat, t: State)
    requires Distinct(s.slots) && k < |s.slots| && op.Register?
    requires t == Registered(fair, s, NewSlot(op.id, op.owner, op.price, op.initialPayment, op.priority))
    ensures |t.slots| >= |s.slots| && Booked(s.slots[k], op, t.slots[k])
  {
    RefreshedBooked(s.slots[k], op, s.slots[k]);
  }

  /** Every operation but the removal keeps the books of every slot. */
  lemma StepBooks(fair: bool, s: State, op: Op, k: nat, t: State)
    requires Distinct(s.slots) && k < |s.slots| && !op.Remove? && t == After(fair, s, op)
    ensures |t.slots| >= |s.slots| && Booked(s.slots[k], op, t.slots[k])
  {
    match op
    case Register(_, _, _, _, _) => RegisterBooks(fair, s, op, k, t);
    case GetNext => ChooseBooks(fair, s, op, k, t);
    case _ => OneModelBooks(fair, s, op, k, t);
  }

  /** Registering an id that is not taken appends its slot with the first payment as balance and nothing counted. */
  lemma RegisterIs(fair: bool, s: State, id: string, owner: string, price: real, initial: real, priority: Priority)
    requires forall k :: 0 <= k < |s.slots| ==> s.slots[k].modelId != id
    ensures var t := Registered(fair, s, NewSlot(id, owner, price, initial, priority));
            && |t.slots| == |s.slots| + 1
            && t.slots[|s.slots|]
               == Slot(id, owner, price, priority, 0, 0, 0.0, initial, 1.0, true, initial >= 1.0, false)
  {
  }

  /** Removing a model takes its slot out and leaves the others in their order. */
  lemma RemoveIs(fair: bool, s: State, k: nat)
    requires Distinct(s.slots) && k < |s.slots|
    ensures Removed(fair, s, s.slots[k].modelId).1.slots == RefreshAll(s.slots[..k] + s.slots[k + 1..])
  {
    FoundAt(s.slots, k);
  }

  // ----- whole runs

  /** What a run without removals did to the balance of slot `k`, operation by operation. */
  ghost function BalanceChanges(fair: bool, s: State, ops: seq<Op>, k: nat): real {
    if ops == [] then 0.0
    else
      var last := |ops| - 1;
      var found := AfterAll(fair, s, ops[..last]);
      BalanceChanges(fair, s, ops[..last], k)
      + if k < |found.slots| then BalanceChange(found.slots[k], ops[last]) else 0.0
  }

  ghost function Iterations(fair: bool, s: State, ops: seq<Op>, k: nat): nat {
    if ops == [] then 0
    else
      var last := |ops| - 1;
      var found := AfterAll(fair, s, ops[..last]);
      Iterations(fair, s, ops[..last], k)
      + if k < |found.slots| && Charges(found.slots[k], ops[last]) then 1 else 0
  }

  lemma StepStaysDistinct(fair: bool, s: State, op: Op, t: State)
    requires Invariant(fair, false, s) && t == After(fair, s, op)
    ensures Invariant(fair, false, t)
  {
    StepKeeps(fair, false, s, op, t);
  }

  /** A balance is what it was, plus what was paid in, less the iterations charged and what its owner withdrew. */
  lemma {:induction false} BalanceIsAccounted(fair: bool, s: State, ops: seq<Op>, k: nat)
    requires Invariant(fair, false, s) && k < |s.slots| && forall j :: 0 <= j < |ops| ==> !ops[j].Remove?
    ensures var t := AfterAll(fair, s, ops);
            && Invariant(fair, false, t) && k < |t.slots| && SameTerms(s.slots[k], t.slots[k])
            && t.slots[k].paymentBalance == s.slots[k].paymentBalance + BalanceChanges(fair, s, ops, k)
            && t.slots[k].totalIterations == s.slots[k].totalIterations + Iterations(fair, s, ops, k)
  {
    if ops != [] {
      var last := |ops| - 1;
      var found := AfterAll(fair, s, ops[..last]);
      BalanceIsAccounted(fair, s, ops[..last], k);
      StepStaysDistinct(fair, found, ops[last], AfterAll(fair, s, ops));
      StepBooks(fair, found, ops[last], k, AfterAll(fair, s, ops));
    }
  }

  // ----- what the calls answer

  /** An iteration is refused exactly for an unknown model and for one whose balance does not cover the price. */
  lemma RecordedIff(fair: bool, s: State, id: string, cost: Option<real>)
    requires Distinct(s.slots)
    ensures Recorded(fair, s, id, cost).0
            <==> exists k :: 0 <= k < |s.slots| && s.slots[k].modelId == id
                             && s.slots[k].paymentBalance
                                >= (if cost.Some? then cost.value else s.slots[k].paymentPerIteration)
  {
    if k :| 0 <= k < |s.slots| && s.slots[k].modelId == id {
      FoundAt(s.slots, k);
    }
  }

  /** A withdrawal gives everything, and only to the owner of a paused or deprecated model. */
  lemma WithdrawnIff(s: State, id: string, owner: string, k: nat)
    requires Distinct(s.slots) && k < |s.slots| && s.slots[k].modelId == id
    ensures var (paid, t) := Withdrawn(s, id, owner);
            && (paid.Some? <==> s.slots[k].owner == owner && (!s.slots[k].isActive || s.slots[k].isDeprecated))
            && (paid.Some? ==> paid.value == s.slots[k].paymentBalance && t.slots[k].paymentBalance == 0.0)
            && (paid.None? ==> t == s)
  {
    FoundAt(s.slots, k);
  }
}
