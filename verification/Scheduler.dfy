/**
  The training scheduler: paying models take turns from a rotation queue that is rebuilt when the set of
  active, paid-up models changes.
 */
module Scheduler {

  import opened Basics

  datatype Priority = High | Normal | Low | Paused

  datatype Slot = Slot(
    modelId: string, owner: string, paymentPerIteration: real, priority: Priority,
    totalIterations: nat, iterationsThisRound: nat, totalPayments: real,
    paymentBalance: real, minBalanceRequired: real,
    isActive: bool, isPaidUp: bool, isDeprecated: bool)

  /** The registered models in registration order, the rotation queue and the round counter. */
  datatype State = State(slots: seq<Slot>, queue: seq<string>, round: nat)

  datatype Choice = Train(modelId: string) | Nothing | KeyError

  const ROUND_ITERATIONS := 10
  const MIN_BALANCE := 1.0

  // ----- what a rebuild yields

  predicate Funded(s: Slot) { s.paymentBalance >= s.minBalanceRequired }

  function Refresh(s: Slot): Slot { if s.isActive then s.(isPaidUp := Funded(s)) else s }

  function RefreshAll(slots: seq<Slot>): (refreshed: seq<Slot>)
    ensures |refreshed| == |slots| && forall k :: 0 <= k < |slots| ==> refreshed[k] == Refresh(slots[k])
  {
    if slots == [] then [] else RefreshAll(slots[..|slots| - 1]) + [Refresh(slots[|slots| - 1])]
  }

  predicate Listed(s: Slot, p: Priority) { s.isActive && s.isPaidUp && s.priority == p }

  /** The active, paid-up models of one tier, in registration order. */
  function Tier(slots: seq<Slot>, p: Priority): seq<string> {
    if slots == [] then []
    else
      var last := slots[|slots| - 1];
      Tier(slots[..|slots| - 1], p) + (if Listed(last, p) then [last.modelId] else [])
  }

  /** Whose turn it is at step `i` among `size`. */
  function Turn(i: nat, size: nat): (k: nat)
    requires size > 0
    ensures k < size
  {
    i % size
  }

  function Pick(tier: seq<string>, i: nat): seq<string> {
    if tier == [] then [] else [tier[Turn(i, |tier|)]]
  }

  /** What step `i` of the build puts into the queue. */
  function Round(high: seq<string>, normal: seq<string>, low: seq<string>, i: nat): seq<string> {
    Pick(high, i) + (if i % 2 == 0 then Pick(normal, i) else []) + (if i % 3 == 0 then Pick(low, i) else [])
  }

  function Steps(high: seq<string>, normal: seq<string>, low: seq<string>): nat -> seq<string> {
    (i: nat) => Round(high, normal, low, i)
  }

  function Concat(f: nat -> seq<string>, n: nat): seq<string> {
    if n == 0 then [] else Concat(f, n - 1) + f(n - 1)
  }

  function Rounds(high: seq<string>, normal: seq<string>, low: seq<string>, n: nat): seq<string> {
    Concat(Steps(high, normal, low), n)
  }

  function BuildLength(high: nat, normal: nat, low: nat): nat {
    MaxInt(MaxInt(high * 3, normal * 2), MaxInt(low, 1))
  }

  function BuildQueue(fair: bool, slots: seq<Slot>): seq<string> {
    var high, normal, low := Tier(slots, High), Tier(slots, Normal), Tier(slots, Low);
    if fair then Rounds(high, normal, low, BuildLength(|high|, |normal|, |low|)) else high + normal + low
  }

  function Rebuild(fair: bool, s: State): State {
    var slots := RefreshAll(s.slots);
    State(slots, BuildQueue(fair, slots), s.round)
  }

  // ----- what the operations do

  /** The index of the model, or the number of models when it is not registered. */
  function Find(slots: seq<Slot>, id: string, n: nat): (k: nat)
    requires n <= |slots|
    ensures n <= k <= |slots| && (k < |slots| ==> slots[k].modelId == id)
    ensures forall j :: n <= j < k ==> slots[j].modelId != id
    decreases |slots| - n
  {
    if n == |slots| then n
    else if slots[n].modelId == id then n
    else Find(slots, id, n + 1)
  }

  predicate Ready(slots: seq<Slot>, id: string) {
    var k := Find(slots, id, 0);
    k < |slots| && slots[k].isActive && Funded(slots[k])
  }

  /** The first place at or after `n` whose model is ready, or the length of the queue. */
  function FirstReady(slots: seq<Slot>, queue: seq<string>, n: nat): (k: nat)
    requires n <= |queue|
    ensures n <= k <= |queue| && (k < |queue| ==> Ready(slots, queue[k]))
    ensures forall j :: n <= j < k ==> !Ready(slots, queue[j])
    decreases |queue| - n
  {
    if n == |queue| then n
    else if Ready(slots, queue[n]) then n
    else FirstReady(slots, queue, n + 1)
  }

  /** The queue after its head went to the back `n` times. */
  function Rotated(queue: seq<string>, n: nat): (rotated: seq<string>)
    requires n <= |queue|
    ensures |rotated| == |queue|
  {
    if n == 0 then queue
    else
      var before := Rotated(queue, n - 1);
      before[1..] + [before[0]]
  }

  /** The choice from a queue that is not empty. */
  function ChooseFrom(fair: bool, s: State): (Choice, State)
    requires s.queue != []
  {
    if fair then
      var k := FirstReady(s.slots, s.queue, 0);
      if k == |s.queue| then (Nothing, s) else (Train(s.queue[k]), s.(queue := Rotated(s.queue, k + 1)))
    else
      var k := Find(s.slots, s.queue[0], 0);
      (if k == |s.slots| then KeyError else if Funded(s.slots[k]) then Train(s.queue[0]) else Nothing, s)
  }

  function Choose(fair: bool, s: State): (Choice, State) {
    var st := if s.queue == [] then Rebuild(fair, s) else s;
    if st.queue == [] then (Nothing, st) else ChooseFrom(fair, st)
  }

  function NewSlot(modelId: string, owner: string, paymentPerIteration: real, initialPayment: real,
                   priority: Priority): Slot {
    Slot(modelId, owner, paymentPerIteration, priority, 0, 0, 0.0, initialPayment, MIN_BALANCE, true, true, false)
  }

  function Registered(fair: bool, s: State, slot: Slot): State {
    if Find(s.slots, slot.modelId, 0) < |s.slots| then s
    else Rebuild(fair, s.(slots := s.slots + [slot]))
  }

  /** The slot after paying for an iteration. */
  function Charged(slot: Slot, cost: real): Slot {
    slot.(paymentBalance := slot.paymentBalance - cost, totalPayments := slot.totalPayments + cost)
  }

  /** Counts an iteration for slot `k`, whose new content is `slot`; a full round rebuilds the queue. */
  function Counted(fair: bool, s: State, k: nat, slot: Slot): State
    requires k < |s.slots|
  {
    var counted := slot.(totalIterations := slot.totalIterations + 1);
    if slot.iterationsThisRound + 1 >= ROUND_ITERATIONS
    then Rebuild(fair, State(s.slots[k := counted.(iterationsThisRound := 0)], s.queue, s.round + 1))
    else s.(slots := s.slots[k := counted.(iterationsThisRound := slot.iterationsThisRound + 1)])
  }

  function Recorded(fair: bool, s: State, id: string, cost: Option<real>): (bool, State) {
    var k := Find(s.slots, id, 0);
    if k == |s.slots| then (false, s)
    else
      var slot := s.slots[k];
      var price := if cost.Some? then cost.value else slot.paymentPerIteration;
      if slot.paymentBalance < price then (false, Rebuild(fair, s.(slots := s.slots[k := slot.(isPaidUp := false)])))
      else (true, Counted(fair, s, k, Charged(slot, price)))
  }

  function PaidInto(fair: bool, s: State, id: string, amount: real): (bool, State) {
    var k := Find(s.slots, id, 0);
    if k == |s.slots| then (false, s)
    else
      var slot := s.slots[k].(paymentBalance := s.slots[k].paymentBalance + amount);
      (true, if !slot.isPaidUp && Funded(slot)
             then Rebuild(fair, s.(slots := s.slots[k := slot.(isPaidUp := true)]))
             else s.(slots := s.slots[k := slot]))
  }

  /** Pausing and resuming. */
  function Activated(fair: bool, s: State, id: string, active: bool): (bool, State) {
    var k := Find(s.slots, id, 0);
    if k == |s.slots| then (false, s)
    else (true, Rebuild(fair, s.(slots := s.slots[k := s.slots[k].(isActive := active)])))
  }

  function Deprecated(fair: bool, s: State, id: string): (bool, State) {
    var k := Find(s.slots, id, 0);
    if k == |s.slots| then (false, s)
    else (true, Rebuild(fair, s.(slots := s.slots[k := s.slots[k].(isDeprecated := true, isActive := false)])))
  }

  function Withdrawn(s: State, id: string, owner: string): (Option<real>, State) {
    var k := Find(s.slots, id, 0);
    if k == |s.slots| || s.slots[k].owner != owner || (s.slots[k].isActive && !s.slots[k].isDeprecated) then (None, s)
    else (Some(s.slots[k].paymentBalance), s.(slots := s.slots[k := s.slots[k].(paymentBalance := 0.0)]))
  }

  function Removed(fair: bool, s: State, id: string): (bool, State) {
    var k := Find(s.slots, id, 0);
    if k == |s.slots| then (false, s)
    else (true, Rebuild(fair, s.(slots := s.slots[..k] + s.slots[k + 1..])))
  }

  class ModelTrainingScheduler {
    var trainingSlots: seq<Slot>
    var rotationQueue: seq<string>
    var currentRound: nat
    const fairRotation: bool

    function View(): State
      reads this
    {
      State(trainingSlots, rotationQueue, currentRound)
    }

    constructor (fair: bool)
      ensures View() == State([], [], 0) && fairRotation == fair
    {
      trainingSlots, rotationQueue, currentRound, fairRotation := [], [], 0, fair;
    }

    method UpdateRotationQueue()
      modifies this
      ensures View() == Rebuild(fairRotation, old(View()))
    {
      var high, normal, low := GroupByPriority();
      if fairRotation {
        rotationQueue := BuildFairQueue(high, normal, low);
      } else {
        rotationQueue := high + normal + low;
      }
    }

    /** Marks who is paid up and collects the tiers. */
    method GroupByPriority() returns (high: seq<string>, normal: seq<string>, low: seq<string>)
      modifies `trainingSlots
      ensures trainingSlots == RefreshAll(old(trainingSlots))
      ensures high == Tier(trainingSlots, High) && normal == Tier(trainingSlots, Normal)
              && low == Tier(trainingSlots, Low)
    {
      high, normal, low := [], [], [];
      var refreshed: seq<Slot> := [];
      for i := 0 to |trainingSlots|
        invariant trainingSlots == old(trainingSlots) && refreshed == RefreshAll(trainingSlots[..i])
        invariant Grouped(refreshed, high, normal, low)
      {
        var slot := trainingSlots[i];
        if slot.isActive {
          slot := slot.(isPaidUp := slot.paymentBalance >= slot.minBalanceRequired);
        }
        RefreshSnoc(trainingSlots, i);
        var h, n, l := PlaceInGroups(slot, high, normal, low);
        GroupOneMore(refreshed, slot, high, normal, low, h, n, l);
        high, normal, low, refreshed := h, n, l, refreshed + [slot];
      }
      WholePrefix(trainingSlots, |trainingSlots|);
      trainingSlots := refreshed;
    }

    /** Adds an active, paid-up model to the list of its priority. */
    method PlaceInGroups(slot: Slot, high: seq<string>, normal: seq<string>, low: seq<string>)
      returns (h: seq<string>, n: seq<string>, l: seq<string>)
      ensures h == high + Extra(slot, High) && n == normal + Extra(slot, Normal) && l == low + Extra(slot, Low)
    {
      h, n, l := high, normal, low;
      if slot.isActive && slot.isPaidUp {
        match slot.priority
        case High => h := h + [slot.modelId];
        case Normal => n := n + [slot.modelId];
        case Low => l := l + [slot.modelId];
        case Paused =>
      }
    }

    method BuildFairQueue(high: seq<string>, normal: seq<string>, low: seq<string>) returns (queue: seq<string>)
      ensures queue == Rounds(high, normal, low, BuildLength(|high|, |normal|, |low|))
    {
      queue := [];
      var maxLen := BuildLength(|high|, |normal|, |low|);
      for i := 0 to maxLen
        invariant queue == Rounds(high, normal, low, i)
      {
        ghost var before := queue;
        if high != [] {
          queue := queue + [high[Turn(i, |high|)]];
        }
        assert queue == before + Pick(high, i);
        if i % 2 == 0 && normal != [] {
          queue := queue + [normal[Turn(i, |normal|)]];
        }
        assert queue == (before + Pick(high, i)) + (if i % 2 == 0 then Pick(normal, i) else []);
        if i % 3 == 0 && low != [] {
          queue := queue + [low[Turn(i, |low|)]];
        }
        Regroup(before, Pick(high, i),
                if i % 2 == 0 then Pick(normal, i) else [],
                if i % 3 == 0 then Pick(low, i) else []);
      }
    }

    method RegisterModel(modelId: string, owner: string, paymentPerIteration: real, initialPayment: real,
                         priority: Priority)
      returns (ok: bool)
      modifies this
      ensures ok <==> forall k :: 0 <= k < |old(trainingSlots)| ==> old(trainingSlots)[k].modelId != modelId
      ensures View() == Registered(fairRotation, old(View()),
                                   NewSlot(modelId, owner, paymentPerIteration, initialPayment, priority))
    {
      if Find(trainingSlots, modelId, 0) < |trainingSlots| {
        return false;
      }
      trainingSlots := trainingSlots + [NewSlot(modelId, owner, paymentPerIteration, initialPayment, priority)];
      UpdateRotationQueue();
      ok := true;
    }

    method GetNextModelForTraining() returns (choice: Choice)
      modifies this
      ensures (choice, View()) == Choose(fairRotation, old(View()))
    {
      if rotationQueue == [] {
        UpdateRotationQueue();
      }
      if rotationQueue == [] {
        return Nothing;
      }
      if fairRotation {
        choice := RotateToReady();
      } else {
        var k := Find(trainingSlots, rotationQueue[0], 0);
        if k == |trainingSlots| {
          return KeyError;
        }
        choice := if Funded(trainingSlots[k]) then Train(rotationQueue[0]) else Nothing;
      }
    }

    method RotateToReady() returns (choice: Choice)
      modifies `rotationQueue
      ensures var k := FirstReady(trainingSlots, old(rotationQueue), 0);
              if k == |old(rotationQueue)| then choice == Nothing && rotationQueue == old(rotationQueue)
              else choice == Train(old(rotationQueue)[k]) && rotationQueue == Rotated(old(rotationQueue), k + 1)
    {
      ghost var queue := rotationQueue;
      for n := 0 to |rotationQueue|
        invariant |rotationQueue| == |queue| && rotationQueue == Rotated(queue, n)
        invariant FirstReady(trainingSlots, queue, 0) == FirstReady(trainingSlots, queue, n)
      {
        var modelId := rotationQueue[0];
        RotatedHead(queue, n);
        rotationQueue := rotationQueue[1..] + [modelId];
        var k := Find(trainingSlots, modelId, 0);
        if k < |trainingSlots| && trainingSlots[k].isActive && Funded(trainingSlots[k]) {
          return Train(modelId);
        }
      }
      RotatedIs(queue, |queue|);
      choice := Nothing;
    }

    method RecordTrainingIteration(modelId: string, iterationCost: Option<real>) returns (ok: bool)
      modifies this
      ensures (ok, View()) == Recorded(fairRotation, old(View()), modelId, iterationCost)
    {
      var k := Find(trainingSlots, modelId, 0);
      if k == |trainingSlots| {
        return false;
      }
      var slot := trainingSlots[k];
      var cost := if iterationCost.Some? then iterationCost.value else slot.paymentPerIteration;
      if slot.paymentBalance >= cost {
        CountIteration(k, Charged(slot, cost));
        ok := true;
      } else {
        trainingSlots := trainingSlots[k := slot.(isPaidUp := false)];
        UpdateRotationQueue();
        ok := false;
      }
    }

    method CountIteration(k: nat, paid: Slot)
      requires k < |trainingSlots|
      modifies this
      ensures View() == Counted(fairRotation, old(View()), k, paid)
    {
      var slot := paid.(totalIterations := paid.totalIterations + 1,
                        iterationsThisRound := paid.iterationsThisRound + 1);
      if slot.iterationsThisRound >= ROUND_ITERATIONS {
        trainingSlots := trainingSlots[k := slot.(iterationsThisRound := 0)];
        currentRound := currentRound + 1;
        UpdateRotationQueue();
      } else {
        trainingSlots := trainingSlots[k := slot];
      }
    }

    method AddModelPayment(modelId: string, amount: real) returns (ok: bool)
      modifies this
      ensures (ok, View()) == PaidInto(fairRotation, old(View()), modelId, amount)
    {
      var k := Find(trainingSlots, modelId, 0);
      if k == |trainingSlots| {
        return false;
      }
      var slot := trainingSlots[k].(paymentBalance := trainingSlots[k].paymentBalance + amount);
      if !slot.isPaidUp && Funded(slot) {
        trainingSlots := trainingSlots[k := slot.(isPaidUp := true)];
        UpdateRotationQueue();
      } else {
        trainingSlots := trainingSlots[k := slot];
      }
      ok := true;
    }

    method PauseModel(modelId: string) returns (ok: bool)
      modifies this
      ensures (ok, View()) == Activated(fairRotation, old(View()), modelId, false)
    {
      ok := SetActive(modelId, false);
    }

    method ResumeModel(modelId: string) returns (ok: bool)
      modifies this
      ensures (ok, View()) == Activated(fairRotation, old(View()), modelId, true)
    {
      ok := SetActive(modelId, true);
    }

    method SetActive(modelId: string, active: bool) returns (ok: bool)
      modifies this
      ensures (ok, View()) == Activated(fairRotation, old(View()), modelId, active)
    {
      var k := Find(trainingSlots, modelId, 0);
      if k == |trainingSlots| {
        return false;
      }
      trainingSlots := trainingSlots[k := trainingSlots[k].(isActive := active)];
      UpdateRotationQueue();
      ok := true;
    }

    method DeprecateModel(modelId: string) returns (ok: bool)
      modifies this
      ensures (ok, View()) == Deprecated(fairRotation, old(View()), modelId)
    {
      var k := Find(trainingSlots, modelId, 0);
      if k == |trainingSlots| {
        return false;
      }
      trainingSlots := trainingSlots[k := trainingSlots[k].(isDeprecated := true, isActive := false)];
      UpdateRotationQueue();
      ok := true;
    }

    method WithdrawBalance(modelId: string, owner: string) returns (amount: Option<real>)
      modifies `trainingSlots
      ensures (amount, View()) == Withdrawn(old(View()), modelId, owner)
    {
      var k := Find(trainingSlots, modelId, 0);
      if k == |trainingSlots| || trainingSlots[k].owner != owner {
        return None;
      }
      if trainingSlots[k].isActive && !trainingSlots[k].isDeprecated {
        return None;
      }
      amount := Some(trainingSlots[k].paymentBalance);
      trainingSlots := trainingSlots[k := trainingSlots[k].(paymentBalance := 0.0)];
    }

    method RemoveModel(modelId: string) returns (ok: bool)
      modifies this
      ensures (ok, View()) == Removed(fairRotation, old(View()), modelId)
    {
      var k := Find(trainingSlots, modelId, 0);
      if k == |trainingSlots| {
        return false;
      }
      trainingSlots := trainingSlots[..k] + trainingSlots[k + 1..];
      UpdateRotationQueue();
      ok := true;
    }
  }

  ghost predicate Grouped(slots: seq<Slot>, high: seq<string>, normal: seq<string>, low: seq<string>) {
    high == Tier(slots, High) && normal == Tier(slots, Normal) && low == Tier(slots, Low)
  }

  function Extra(slot: Slot, p: Priority): seq<string> { if Listed(slot, p) then [slot.modelId] else [] }

  lemma TierSnoc(slots: seq<Slot>, slot: Slot, p: Priority)
    ensures Tier(slots + [slot], p) == Tier(slots, p) + Extra(slot, p)
  {
    assert (slots + [slot])[..|slots|] == slots;
  }

  lemma GroupOneMore(slots: seq<Slot>, slot: Slot, h: seq<string>, n: seq<string>, l: seq<string>,
                     high: seq<string>, normal: seq<string>, low: seq<string>)
    requires Grouped(slots, h, n, l)
    requires high == h + Extra(slot, High) && normal == n + Extra(slot, Normal) && low == l + Extra(slot, Low)
    ensures Grouped(slots + [slot], high, normal, low)
  {
    TierSnoc(slots, slot, High);
    TierSnoc(slots, slot, Normal);
    TierSnoc(slots, slot, Low);
  }

  lemma RefreshSnoc(slots: seq<Slot>, i: nat)
    requires i < |slots|
    ensures RefreshAll(slots[..i + 1]) == RefreshAll(slots[..i]) + [Refresh(slots[i])]
  {
    PrefixOfPrefix(slots, i);
  }

  lemma {:induction false} RotatedIs(queue: seq<string>, n: nat)
    requires n <= |queue|
    ensures Rotated(queue, n) == queue[n..] + queue[..n]
  {
    if n > 0 {
      RotatedIs(queue, n - 1);
      HeadToTheBack(queue, n - 1);
    }
  }

  lemma HeadToTheBack<T>(s: seq<T>, n: nat)
    requires n < |s|
    ensures (s[n..] + s[..n])[0] == s[n] && (s[n..] + s[..n])[1..] + [s[n]] == s[n + 1..] + s[..n + 1]
  {
  }

  lemma RotatedHead(queue: seq<string>, n: nat)
    requires n < |queue|
    ensures Rotated(queue, n)[0] == queue[n]
  {
    RotatedIs(queue, n);
  }

  lemma Regroup<T>(a: seq<T>, b: seq<T>, c: seq<T>, d: seq<T>)
    ensures ((a + b) + c) + d == a + (b + c + d)
  {
  }
}
