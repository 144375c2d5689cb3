/**
  What every run of the scheduler keeps, and which funded models it never trains.
 */
module SchedulerRuns {
  import opened Basics
  import opened Scheduler

  datatype Op = Register(id: string, owner: string, price: real, initialPayment: real, priority: Priority)
              | GetNext
              | Record(id: string, cost: Option<real>)
              | Pay(id: string, amount: real)
              | SetActive(id: string, active: bool)
              | Deprecate(id: string)
              | Withdraw(id: string, owner: string)
              | Remove(id: string)

  function After(fair: bool, s: State, op: Op): State {
    match op
    case Register(id, owner, price, initial, priority) =>
      Registered(fair, s, NewSlot(id, owner, price, initial, priority))
    case GetNext => Choose(fair, s).1
    case Record(id, cost) => Recorded(fair, s, id, cost).1
    case Pay(id, amount) => PaidInto(fair, s, id, amount).1
    case SetActive(id, active) => Activated(fair, s, id, active).1
    case Deprecate(id) => Deprecated(fair, s, id).1
    case Withdraw(id, owner) => Withdrawn(s, id, owner).1
    case Remove(id) => Removed(fair, s, id).1
  }

  function AfterAll(fair: bool, s: State, ops: seq<Op>): State {
    if ops == [] then s else After(fair, AfterAll(fair, s, ops[..|ops| - 1]), ops[|ops| - 1])
  }

  /** Training is not priced below zero. */
  predicate Priced(op: Op) {
    (op.Register? ==> op.price >= 0.0) && (op.Record? && op.cost.Some? ==> op.cost.value >= 0.0)
  }

  ghost predicate Distinct(slots: seq<Slot>) {
    forall j, k :: 0 <= j < k < |slots| ==> slots[j].modelId != slots[k].modelId
  }

  predicate Registrable(slot: Slot) { slot.paymentPerIteration >= 0.0 && slot.minBalanceRequired == MIN_BALANCE }

  /** Whoever is active and has the funds counts as paid up. */
  ghost predicate FundedArePaidUp(slots: seq<Slot>) {
    forall k :: 0 <= k < |slots| ==>
      Registrable(slots[k]) && (slots[k].isActive && Funded(slots[k]) ==> slots[k].isPaidUp)
  }

  ghost predicate IsRotation(queue: seq<string>, built: seq<string>) {
    exists n: nat :: n <= |built| && queue == Rotated(built, n)
  }

  /**
    The queue is the one a rebuild would make from the models that count as paid up, turned some way round;
    and as long as training is not priced below zero, whoever has the funds counts as paid up.
   */
  ghost predicate Invariant(fair: bool, priced: bool, s: State) {
    && Distinct(s.slots) && IsRotation(s.queue, BuildQueue(fair, s.slots))
    && (priced ==> FundedArePaidUp(s.slots))
  }

  // ----- rebuilding establishes it

  ghost predicate AllRegistrable(priced: bool, slots: seq<Slot>) {
    priced ==> forall k :: 0 <= k < |slots| ==> Registrable(slots[k])
  }

  lemma RefreshedArePaidUp(slots: seq<Slot>)
    requires Distinct(slots)
    ensures Distinct(RefreshAll(slots)) && (AllRegistrable(true, slots) ==> FundedArePaidUp(RefreshAll(slots)))
  {
  }

  lemma RebuildEstablishes(fair: bool, priced: bool, s: State, later: State)
    requires Distinct(s.slots) && AllRegistrable(priced, s.slots) && later == Rebuild(fair, s)
    ensures Invariant(fair, priced, later)
  {
    RefreshedArePaidUp(s.slots);
    assert later.queue == Rotated(later.queue, 0);
  }

  // ----- everything else keeps it

  ghost predicate SameListing(a: seq<Slot>, b: seq<Slot>) {
    |a| == |b| && forall k :: 0 <= k < |a| ==>
      a[k].modelId == b[k].modelId && a[k].priority == b[k].priority
      && a[k].isActive == b[k].isActive && a[k].isPaidUp == b[k].isPaidUp
  }

  lemma {:induction false} SameTiers(a: seq<Slot>, b: seq<Slot>, p: Priority)
    requires SameListing(a, b)
    ensures Tier(a, p) == Tier(b, p)
  {
    if a != [] {
      SameTiers(a[..|a| - 1], b[..|b| - 1], p);
    }
  }

  lemma SameBuild(fair: bool, a: seq<Slot>, b: seq<Slot>)
    requires SameListing(a, b)
    ensures BuildQueue(fair, a) == BuildQueue(fair, b)
  {
    SameTiers(a, b, High);
    SameTiers(a, b, Normal);
    SameTiers(a, b, Low);
  }

  lemma UpdateKeepsPaidUp(slots: seq<Slot>, k: nat, slot: Slot)
    requires FundedArePaidUp(slots) && k < |slots|
    requires Registrable(slot) && (slot.isActive && Funded(slot) ==> slot.isPaidUp)
    ensures FundedArePaidUp(slots[k := slot])
  {
  }

  lemma UpdateKeepsListing(slots: seq<Slot>, k: nat, slot: Slot)
    requires k < |slots| && SameListing([slot], [slots[k]])
    ensures SameListing(slots, slots[k := slot]) && (Distinct(slots) ==> Distinct(slots[k := slot]))
  {
    assert [slot][0] == slot && [slots[k]][0] == slots[k];
  }

  /** Changing balances and counters only, and no balance for the better unless already paid up. */
  lemma KeptByUpdate(fair: bool, priced: bool, s: State, k: nat, slot: Slot, later: State)
    requires Invariant(fair, priced, s) && k < |s.slots| && later == s.(slots := s.slots[k := slot])
    requires SameListing([slot], [s.slots[k]])
    requires priced ==> Registrable(slot) && (slot.isActive && Funded(slot) ==> slot.isPaidUp)
    ensures Invariant(fair, priced, later)
  {
    UpdateKeepsListing(s.slots, k, slot);
    SameBuild(fair, s.slots, later.slots);
    if priced {
      UpdateKeepsPaidUp(s.slots, k, slot);
    }
  }

  lemma RotatedTwice<T>(b: seq<T>, n: nat, m: nat)
    requires n <= |b| && m <= |b|
    ensures var r := b[n..] + b[..n];
            r[m..] + r[..m] == if n + m <= |b| then b[n + m..] + b[..n + m] else b[n + m - |b|..] + b[..n + m - |b|]
  {
    var r := b[n..] + b[..n];
    var t := if n + m <= |b| then n + m else n + m - |b|;
    forall i | 0 <= i < |b| ensures (r[m..] + r[..m])[i] == (b[t..] + b[..t])[i] {
      var j := if i + m < |b| then i + m else i + m - |b|;
      assert (r[m..] + r[..m])[i] == r[j];
    }
    assert r[m..] + r[..m] == b[t..] + b[..t];
  }

  lemma RotationOfRotation(queue: seq<string>, built: seq<string>, m: nat)
    requires IsRotation(queue, built) && m <= |queue|
    ensures IsRotation(Rotated(queue, m), built)
  {
    var n: nat :| n <= |built| && queue == Rotated(built, n);
    RotatedIs(built, n);
    RotatedIs(queue, m);
    RotatedTwice(built, n, m);
    var t := if n + m <= |built| then n + m else n + m - |built|;
    RotatedIs(built, t);
    assert Rotated(queue, m) == Rotated(built, t);
  }

  lemma RotatingKeeps(priced: bool, s: State, k: nat, later: State)
    requires Invariant(true, priced, s) && k < |s.queue| && later == s.(queue := Rotated(s.queue, k + 1))
    ensures Invariant(true, priced, later)
  {
    RotationOfRotation(s.queue, BuildQueue(true, s.slots), k + 1);
  }

  lemma ChooseKeepsFrom(fair: bool, priced: bool, s: State, later: State)
    requires Invariant(fair, priced, s) && s.queue != [] && later == Choose(fair, s).1
    ensures Invariant(fair, priced, later)
  {
    var k := FirstReady(s.slots, s.queue, 0);
    if fair && k < |s.queue| {
      RotatingKeeps(priced, s, k, later);
    } else {
      assert later == s;
    }
  }

  lemma ChooseAfterRebuild(fair: bool, s: State, rebuilt: State)
    requires s.queue == [] && rebuilt == Rebuild(fair, s)
    ensures Choose(fair, s) == if rebuilt.queue == [] then (Nothing, rebuilt) else Choose(fair, rebuilt)
  {
  }

  lemma ChooseKeeps(fair: bool, priced: bool, s: State, later: State)
    requires Invariant(fair, priced, s) && later == Choose(fair, s).1
    ensures Invariant(fair, priced, later)
  {
    if s.queue == [] {
      var rebuilt := Rebuild(fair, s);
      RebuildEstablishes(fair, priced, s, rebuilt);
      ChooseAfterRebuild(fair, s, rebuilt);
      if rebuilt.queue != [] {
        ChooseKeepsFrom(fair, priced, rebuilt, later);
      }
    } else {
      ChooseKeepsFrom(fair, priced, s, later);
    }
  }

  lemma UpdateIsDistinct(priced: bool, slots: seq<Slot>, k: nat, slot: Slot)
    requires Distinct(slots) && AllRegistrable(priced, slots) && k < |slots| && slot.modelId == slots[k].modelId
    requires priced ==> Registrable(slot)
    ensures Distinct(slots[k := slot]) && AllRegistrable(priced, slots[k := slot])
  {
  }

  /** Replacing a slot by one of the same name and price, then rebuilding. */
  lemma RebuildAfterUpdate(fair: bool, priced: bool, s: State, k: nat, slot: Slot, round: nat, later: State)
    requires Invariant(fair, priced, s) && k < |s.slots| && slot.modelId == s.slots[k].modelId
    requires priced ==> Registrable(slot)
    requires later == Rebuild(fair, State(s.slots[k := slot], s.queue, round))
    ensures Invariant(fair, priced, later)
  {
    UpdateIsDistinct(priced, s.slots, k, slot);
    RebuildEstablishes(fair, priced, State(s.slots[k := slot], s.queue, round), later);
  }

  lemma RecordKeeps(fair: bool, priced: bool, s: State, id: string, cost: Option<real>, later: State)
    requires Invariant(fair, priced, s) && (priced && cost.Some? ==> cost.value >= 0.0)
    requires later == Recorded(fair, s, id, cost).1
    ensures Invariant(fair, priced, later)
  {
    var k := Find(s.slots, id, 0);
    if k < |s.slots| {
      var slot := s.slots[k];
      var price := if cost.Some? then cost.value else slot.paymentPerIteration;
      if slot.paymentBalance < price {
        RebuildAfterUpdate(fair, priced, s, k, slot.(isPaidUp := false), s.round, later);
      } else {
        CountKeeps(fair, priced, s, k, price, later);
      }
    }
  }

  lemma CountKeeps(fair: bool, priced: bool, s: State, k: nat, price: real, later: State)
    requires Invariant(fair, priced, s) && k < |s.slots| && (priced ==> price >= 0.0)
    requires later == Counted(fair, s, k, Charged(s.slots[k], price))
    ensures Invariant(fair, priced, later)
  {
    var slot := Charged(s.slots[k], price);
    var counted := slot.(totalIterations := slot.totalIterations + 1);
    if slot.iterationsThisRound + 1 >= ROUND_ITERATIONS {
      RebuildAfterUpdate(fair, priced, s, k, counted.(iterationsThisRound := 0), s.round + 1, later);
    } else {
      KeptByUpdate(fair, priced, s, k, counted.(iterationsThisRound := slot.iterationsThisRound + 1), later);
    }
  }

  function Topped(slot: Slot, amount: real): Slot { slot.(paymentBalance := slot.paymentBalance + amount) }

  lemma PayKeeps(fair: bool, priced: bool, s: State, id: string, amount: real, later: State)
    requires Invariant(fair, priced, s) && later == PaidInto(fair, s, id, amount).1
    ensures Invariant(fair, priced, later)
  {
    var k := Find(s.slots, id, 0);
    if k < |s.slots| {
      var slot := Topped(s.slots[k], amount);
      if !slot.isPaidUp && Funded(slot) {
        RebuildAfterUpdate(fair, priced, s, k, slot.(isPaidUp := true), s.round, later);
      } else {
        KeptByUpdate(fair, priced, s, k, slot, later);
      }
    }
  }

  /** A withdrawal empties the balance, so a model that stays active is no longer funded. */
  lemma WithdrawKeeps(fair: bool, priced: bool, s: State, id: string, owner: string, later: State)
    requires Invariant(fair, priced, s) && later == Withdrawn(s, id, owner).1
    ensures Invariant(fair, priced, later)
  {
    var k := Find(s.slots, id, 0);
    if k < |s.slots| && later != s {
      KeptByUpdate(fair, priced, s, k, s.slots[k].(paymentBalance := 0.0), later);
    }
  }

  lemma GrowthIsDistinct(priced: bool, slots: seq<Slot>, slot: Slot)
    requires Distinct(slots) && AllRegistrable(priced, slots) && (priced ==> Registrable(slot))
    requires forall j :: 0 <= j < |slots| ==> slots[j].modelId != slot.modelId
    ensures Distinct(slots + [slot]) && AllRegistrable(priced, slots + [slot])
  {
  }

  lemma RegisterKeeps(fair: bool, priced: bool, s: State, slot: Slot, later: State)
    requires Invariant(fair, priced, s) && (priced ==> Registrable(slot)) && later == Registered(fair, s, slot)
    ensures Invariant(fair, priced, later)
  {
    if Find(s.slots, slot.modelId, 0) == |s.slots| {
      GrowthIsDistinct(priced, s.slots, slot);
      RebuildEstablishes(fair, priced, s.(slots := s.slots + [slot]), later);
    }
  }

  lemma RemovalIsDistinct(priced: bool, slots: seq<Slot>, k: nat)
    requires Distinct(slots) && AllRegistrable(priced, slots) && k < |slots|
    ensures Distinct(slots[..k] + slots[k + 1..]) && AllRegistrable(priced, slots[..k] + slots[k + 1..])
  {
    var rest := slots[..k] + slots[k + 1..];
    forall j | 0 <= j < |rest| ensures rest[j] == slots[if j < k then j else j + 1] {
    }
  }

  lemma RemoveKeeps(fair: bool, priced: bool, s: State, id: string, later: State)
    requires Invariant(fair, priced, s) && later == Removed(fair, s, id).1
    ensures Invariant(fair, priced, later)
  {
    var k := Find(s.slots, id, 0);
    if k < |s.slots| {
      RemovalIsDistinct(priced, s.slots, k);
      RebuildEstablishes(fair, priced, s.(slots := s.slots[..k] + s.slots[k + 1..]), later);
    }
  }

  lemma ActivateKeeps(fair: bool, priced: bool, s: State, id: string, active: bool, later: State)
    requires Invariant(fair, priced, s) && later == Activated(fair, s, id, active).1
    ensures Invariant(fair, priced, later)
  {
    var k := Find(s.slots, id, 0);
    if k < |s.slots| {
      RebuildAfterUpdate(fair, priced, s, k, s.slots[k].(isActive := active), s.round, later);
    }
  }

  lemma DeprecateKeeps(fair: bool, priced: bool, s: State, id: string, later: State)
    requires Invariant(fair, priced, s) && later == Deprecated(fair, s, id).1
    ensures Invariant(fair, priced, later)
  {
    var k := Find(s.slots, id, 0);
    if k < |s.slots| {
      RebuildAfterUpdate(fair, priced, s, k, s.slots[k].(isDeprecated := true, isActive := false), s.round, later);
    }
  }

  lemma StepKeeps(fair: bool, priced: bool, s: State, op: Op, later: State)
    requires Invariant(fair, priced, s) && (priced ==> Priced(op)) && later == After(fair, s, op)
    ensures Invariant(fair, priced, later)
  {
    match op
    case Register(id, owner, price, initial, priority) =>
      RegisterKeeps(fair, priced, s, NewSlot(id, owner, price, initial, priority), later);
    case GetNext => ChooseKeeps(fair, priced, s, later);
    case Record(id, cost) => RecordKeeps(fair, priced, s, id, cost, later);
    case Pay(id, amount) => PayKeeps(fair, priced, s, id, amount, later);
    case SetActive(id, active) => ActivateKeeps(fair, priced, s, id, active, later);
    case Deprecate(id) => DeprecateKeeps(fair, priced, s, id, later);
    case Withdraw(id, owner) => WithdrawKeeps(fair, priced, s, id, owner, later);
    case Remove(id) => RemoveKeeps(fair, priced, s, id, later);
  }

  /**
    From an empty scheduler, after any operations in any order, the queue is as described; and if none of
    them prices training below zero, whoever has the funds counts as paid up.
   */
  lemma {:induction false} RunsKeep(fair: bool, priced: bool, ops: seq<Op>)
    requires priced ==> forall k :: 0 <= k < |ops| ==> Priced(ops[k])
    ensures Invariant(fair, priced, AfterAll(fair, State([], [], 0), ops))
  {
    if ops == [] {
      EmptyQueue(fair, priced);
    } else {
      var last := |ops| - 1;
      RunsKeep(fair, priced, ops[..last]);
      StepKeeps(fair, priced, AfterAll(fair, State([], [], 0), ops[..last]), ops[last],
                AfterAll(fair, State([], [], 0), ops));
    }
  }

  lemma EmptyQueue(fair: bool, priced: bool)
    ensures Invariant(fair, priced, State([], [], 0))
  {
    assert Tier([], High) == [] && Tier([], Normal) == [] && Tier([], Low) == [];
    assert BuildQueue(fair, []) == [];
    assert [] == Rotated([], 0);
  }
}
