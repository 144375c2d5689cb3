/**
  The training loop: ask for the next model, train it, record the iteration. Which funded models it trains
  as long as the set of listed models stays what it is, and which it starves.

  Owners may top up listed models before every call; that keeps them listed and changes nothing else.
 */
module SchedulerTraining {
  import opened Basics
  import opened Scheduler
  import opened SchedulerService
  import opened SchedulerRuns
  import opened SchedulerFairness
  import opened SchedulerRounds
  import opened RotationWheel

  /** One turn of the loop: the choice, and the state after recording the iteration. */
  function TrainOnce(s: State): (Choice, State) {
    var (choice, chosen) := Choose(true, s);
    if choice.Train? then (choice, Recorded(true, chosen, choice.modelId, None).1) else (choice, chosen)
  }

  datatype TopUp = TopUp(id: string, amount: real)

  function Paid(s: State, ups: seq<TopUp>): State {
    if ups == [] then s
    else PaidInto(true, Paid(s, ups[..|ups| - 1]), ups[|ups| - 1].id, ups[|ups| - 1].amount).1
  }

  /** The state before call `n`, the top-ups `ups(n)` before it included. */
  function Before(s: State, ups: nat -> seq<TopUp>, n: nat): State {
    Paid(if n == 0 then s else TrainOnce(Before(s, ups, n - 1)).1, ups(n))
  }

  /** The model that call `n` has trained. */
  function Chosen(s: State, ups: nat -> seq<TopUp>, n: nat): Choice {
    TrainOnce(Before(s, ups, n)).0
  }

  // ----- a listing that stays

  /** A listed model can pay for an iteration and stay funded; an active one that is not listed has no funds. */
  predicate Settled(slot: Slot) {
    && Registrable(slot)
    && (slot.isActive ==>
          if slot.isPaidUp then slot.paymentBalance >= slot.paymentPerIteration + MIN_BALANCE else !Funded(slot))
  }

  ghost predicate Stocked(slots: seq<Slot>) {
    Distinct(slots) && forall k :: 0 <= k < |slots| ==> Settled(slots[k])
  }

  predicate PaysListed(slots: seq<Slot>, up: TopUp) {
    var k := Find(slots, up.id, 0);
    k < |slots| ==> slots[k].isPaidUp
  }

  /** All through the run the listed models are stocked, and only listed ones are topped up. */
  ghost predicate KeptStocked(s: State, ups: nat -> seq<TopUp>) {
    && Distinct(s.slots)
    && (forall n: nat :: Stocked(Before(s, ups, n).slots))
    && (forall n: nat, i :: 0 <= i < |ups(n)| ==> PaysListed(s.slots, ups(n)[i]))
  }

  // ----- the state as a wheel

  /** How often a model was trained in its current round. */
  function RoundOf(slots: seq<Slot>, x: string): nat {
    var k := Find(slots, x, 0);
    if k < |slots| then slots[k].iterationsThisRound else 0
  }

  ghost predicate SameCounts(slots: seq<Slot>, w: Wheel) {
    forall x :: CountOf(w, x) == RoundOf(slots, x)
  }

  /** The queue is the one a rebuild makes of these slots, turned to the wheel's place. */
  ghost predicate Shows(slots: seq<Slot>, s: State, w: Wheel) {
    && SameListing(s.slots, slots) && SameCounts(s.slots, w)
    && var queue := BuildQueue(true, slots);
       w.place < |queue| && s.queue == Rotated(queue, w.place)
  }

  lemma SameListingTwice(a: seq<Slot>, b: seq<Slot>, c: seq<Slot>)
    requires SameListing(a, b) && SameListing(b, c)
    ensures SameListing(a, c)
  {
  }

  lemma {:induction false} SameFind(a: seq<Slot>, b: seq<Slot>, id: string, n: nat)
    requires SameListing(a, b) && n <= |a|
    ensures Find(a, id, n) == Find(b, id, n)
    decreases |a| - n
  {
    if n < |a| {
      SameFind(a, b, id, n + 1);
    }
  }

  lemma SameRounds(a: seq<Slot>, b: seq<Slot>)
    requires SameListing(a, b) && forall k :: 0 <= k < |a| ==> a[k].iterationsThisRound == b[k].iterationsThisRound
    ensures forall x :: RoundOf(a, x) == RoundOf(b, x)
  {
    forall x ensures RoundOf(a, x) == RoundOf(b, x) {
      SameFind(a, b, x, 0);
    }
  }

  // ----- top-ups

  lemma TopUpKeeps(slots: seq<Slot>, s: State, w: Wheel, up: TopUp, later: State)
    requires Shows(slots, s, w) && PaysListed(slots, up) && later == PaidInto(true, s, up.id, up.amount).1
    ensures Shows(slots, later, w)
  {
    SameFind(s.slots, slots, up.id, 0);
    var k := Find(s.slots, up.id, 0);
    if k < |s.slots| {
      var slot := Topped(s.slots[k], up.amount);
      assert later == s.(slots := s.slots[k := slot]);
      UpdateKeepsListing(s.slots, k, slot);
      SameListingTwice(later.slots, s.slots, slots);
      SameRounds(s.slots, later.slots);
    }
  }

  lemma {:induction false} TopUpsKeep(slots: seq<Slot>, s: State, w: Wheel, ups: seq<TopUp>)
    requires Shows(slots, s, w) && forall i :: 0 <= i < |ups| ==> PaysListed(slots, ups[i])
    ensures Shows(slots, Paid(s, ups), w)
  {
    if ups != [] {
      var last := |ups| - 1;
      TopUpsKeep(slots, s, w, ups[..last]);
      TopUpKeeps(slots, Paid(s, ups[..last]), w, ups[last], Paid(s, ups));
    }
  }

  // ----- one turn of the loop is one turn of the wheel

  lemma HeadIsReady(s: State, x: string)
    requires Stocked(s.slots) && x in BuildQueue(true, s.slots)
    ensures var k := Find(s.slots, x, 0);
            && k < |s.slots| && s.slots[k].isActive && s.slots[k].isPaidUp && Ready(s.slots, x)
  {
    QueueFromTiers(true, s.slots, x);
    var p := if x in Tier(s.slots, High) then High else if x in Tier(s.slots, Normal) then Normal else Low;
    TierMembers(s.slots, p, x);
    var j :| 0 <= j < |s.slots| && s.slots[j].modelId == x && Listed(s.slots[j], p);
    Found(s.slots, x, j);
  }

  /** The slot after an iteration. */
  function Trained(slot: Slot): Slot {
    var paid := Charged(slot, slot.paymentPerIteration);
    paid.(totalIterations := slot.totalIterations + 1,
          iterationsThisRound := if slot.iterationsThisRound + 1 >= ROUND_ITERATIONS then 0
                                 else slot.iterationsThisRound + 1)
  }

  lemma RefreshIsIdle(slots: seq<Slot>, k: nat)
    requires Stocked(slots) && k < |slots| && slots[k].isActive && slots[k].isPaidUp
    ensures RefreshAll(slots[k := Trained(slots[k])]) == slots[k := Trained(slots[k])]
  {
    var trained := slots[k := Trained(slots[k])];
    forall j | 0 <= j < |slots| ensures Refresh(trained[j]) == trained[j] {
      assert Settled(slots[j]);
    }
  }

  /** What recording an iteration of a listed model does. */
  lemma RecordTrains(s: State, k: nat, x: string)
    requires Stocked(s.slots) && k == Find(s.slots, x, 0) < |s.slots| && s.slots[k].isActive && s.slots[k].isPaidUp
    ensures var later := Recorded(true, s, x, None).1;
            && later.slots == s.slots[k := Trained(s.slots[k])]
            && later.queue == if s.slots[k].iterationsThisRound + 1 >= ROUND_ITERATIONS
                              then BuildQueue(true, later.slots) else s.queue
  {
    assert Settled(s.slots[k]);
    RefreshIsIdle(s.slots, k);
  }

  lemma CountsTurn(slots: seq<Slot>, w: Wheel, k: nat, slot: Slot, v: Wheel)
    requires Distinct(slots) && SameCounts(slots, w) && k < |slots| && SameListing(slots, slots[k := slot])
    requires v.counts == w.counts[slot.modelId := slot.iterationsThisRound]
    ensures SameCounts(slots[k := slot], v)
  {
    assert slots[k := slot][k] == slot;
    forall x ensures CountOf(v, x) == RoundOf(slots[k := slot], x) {
      SameFind(slots, slots[k := slot], x, 0);
      assert CountOf(w, x) == RoundOf(slots, x);
    }
  }

  lemma QueueTurns(queue: seq<string>, place: nat)
    requires place < |queue|
    ensures Rotated(queue, place) != [] && Rotated(queue, place)[0] == queue[place]
    ensures Rotated(Rotated(queue, place), 1) == Rotated(queue, if place + 1 == |queue| then 0 else place + 1)
  {
    RotatedHead(queue, place);
    RotatedIs(queue, |queue|);
    assert Rotated(Rotated(queue, place), 0) == Rotated(queue, place);
  }

  lemma CallTurns(slots: seq<Slot>, s: State, w: Wheel, later: State)
    requires Shows(slots, s, w) && Stocked(s.slots) && later == TrainOnce(s).1
    ensures var queue := BuildQueue(true, slots);
            && TrainOnce(s).0 == Train(queue[w.place])
            && Shows(slots, later, Advance(ROUND_ITERATIONS, queue, w))
  {
    var queue := BuildQueue(true, slots);
    var x := queue[w.place];
    SameBuild(true, s.slots, slots);
    QueueTurns(queue, w.place);
    HeadIsReady(s, x);
    ChooseReady(s);
    var k, chosen := Find(s.slots, x, 0), s.(queue := Rotated(s.queue, 1));
    RecordTrains(chosen, k, x);
    RecordShows(slots, s, w, k, later);
  }

  lemma RecordShows(slots: seq<Slot>, s: State, w: Wheel, k: nat, later: State)
    requires Shows(slots, s, w) && Stocked(s.slots) && k < |s.slots|
    requires s.slots[k].modelId == BuildQueue(true, slots)[w.place]
    requires later.slots == s.slots[k := Trained(s.slots[k])]
    requires later.queue == if s.slots[k].iterationsThisRound + 1 >= ROUND_ITERATIONS
                            then BuildQueue(true, later.slots) else Rotated(s.queue, 1)
    ensures Shows(slots, later, Advance(ROUND_ITERATIONS, BuildQueue(true, slots), w))
  {
    var queue, slot := BuildQueue(true, slots), Trained(s.slots[k]);
    QueueTurns(queue, w.place);
    UpdateKeepsListing(s.slots, k, slot);
    SameListingTwice(later.slots, s.slots, slots);
    SameBuild(true, later.slots, slots);
    CountsTurn(s.slots, w, k, slot, Advance(ROUND_ITERATIONS, queue, w));
  }

  // ----- whole runs

  function WheelOf(slots: seq<Slot>, place: nat): Wheel {
    Wheel(place, map k | 0 <= k < |slots| :: slots[k].modelId := RoundOf(slots, slots[k].modelId))
  }

  lemma WheelShows(s: State, place: nat)
    requires var queue := BuildQueue(true, s.slots); place < |queue| && s.queue == Rotated(queue, place)
    ensures Shows(s.slots, s, WheelOf(s.slots, place))
    ensures InRound(s.slots) ==> Running(ROUND_ITERATIONS, BuildQueue(true, s.slots), WheelOf(s.slots, place))
  {
    forall x ensures CountOf(WheelOf(s.slots, place), x) == RoundOf(s.slots, x) {
      var k := Find(s.slots, x, 0);
      assert k < |s.slots| ==> s.slots[k].modelId == x;
    }
  }

  lemma TurnShows(slots: seq<Slot>, s: State, w: Wheel, ups: seq<TopUp>, later: State)
    requires Shows(slots, s, w) && Stocked(s.slots) && later == Paid(TrainOnce(s).1, ups)
    requires forall i :: 0 <= i < |ups| ==> PaysListed(slots, ups[i])
    ensures Shows(slots, later, Advance(ROUND_ITERATIONS, BuildQueue(true, slots), w))
  {
    CallTurns(slots, s, w, TrainOnce(s).1);
    TopUpsKeep(slots, TrainOnce(s).1, Advance(ROUND_ITERATIONS, BuildQueue(true, slots), w), ups);
  }

  lemma StepShows(s: State, ups: nat -> seq<TopUp>, queue: seq<string>, n: nat, v: Wheel)
    requires KeptStocked(s, ups) && queue == BuildQueue(true, s.slots) && Shows(s.slots, Before(s, ups, n), v)
    ensures Shows(s.slots, Before(s, ups, n + 1), Advance(ROUND_ITERATIONS, queue, v))
  {
    TurnShows(s.slots, Before(s, ups, n), v, ups(n + 1), Before(s, ups, n + 1));
  }

  lemma RunShows(s: State, ups: nat -> seq<TopUp>, queue: seq<string>, w: Wheel, n: nat)
    requires KeptStocked(s, ups) && Shows(s.slots, s, w) && queue == BuildQueue(true, s.slots)
    ensures Shows(s.slots, Before(s, ups, n), Spun(ROUND_ITERATIONS, queue, w, n))
  {
    ghost var shows := (k: nat, v: Wheel) => Shows(s.slots, Before(s, ups, k), v);
    TopUpsKeep(s.slots, s, w, ups(0));
    forall k: nat, v | shows(k, v) ensures shows(k + 1, Advance(ROUND_ITERATIONS, queue, v)) {
      StepShows(s, ups, queue, k, v);
    }
    SpinsAlong(ROUND_ITERATIONS, queue, w, shows, n);
  }

  /** The loop turns the wheel: call `n` trains the model at the place reached after `n` turns. */
  lemma RunTurns(s: State, ups: nat -> seq<TopUp>, w: Wheel, n: nat)
    requires KeptStocked(s, ups) && Shows(s.slots, s, w)
    ensures var queue := BuildQueue(true, s.slots);
            var later := Spun(ROUND_ITERATIONS, queue, w, n);
            later.place < |queue| && Chosen(s, ups, n) == Train(queue[later.place])
  {
    var queue, now := BuildQueue(true, s.slots), Before(s, ups, n);
    RunShows(s, ups, queue, w, n);
    CallTurns(s.slots, now, Spun(ROUND_ITERATIONS, queue, w, n), TrainOnce(now).1);
  }

  /** Its queue has no place for the model, or somebody fills a whole round before the first one. */
  ghost predicate Starves(slots: seq<Slot>, x: string) {
    var queue := BuildQueue(true, slots);
    x !in queue || Blocked(ROUND_ITERATIONS, queue, FirstPlace(queue, x, 0))
  }

  ghost predicate JustRebuilt(s: State) { s.queue == BuildQueue(true, s.slots) && s.queue != [] }

  lemma RebuiltShows(s: State)
    requires JustRebuilt(s)
    ensures Shows(s.slots, s, WheelOf(s.slots, 0))
    ensures InRound(s.slots) ==> Running(ROUND_ITERATIONS, s.queue, WheelOf(s.slots, 0))
  {
    WheelShows(s, 0);
  }

  /** From a rebuild on, a starved model is never trained, whatever the counters are. */
  lemma StarvedIsNeverTrained(s: State, ups: nat -> seq<TopUp>, x: string, n: nat)
    requires KeptStocked(s, ups) && InRound(s.slots) && JustRebuilt(s) && Starves(s.slots, x)
    ensures Chosen(s, ups, n) != Train(x)
  {
    var w := WheelOf(s.slots, 0);
    RebuiltShows(s);
    RunTurns(s, ups, w, n);
    if x in s.queue {
      BlockedIsNeverReached(ROUND_ITERATIONS, s.queue, w, FirstPlace(s.queue, x, 0), n);
    }
  }

  /** Wherever in its queue the loop begins, a starved model is trained in the first turn of the queue or never. */
  lemma StarvedIsSoonNeverTrained(s: State, ups: nat -> seq<TopUp>, x: string, place: nat, n: nat)
    requires KeptStocked(s, ups) && InRound(s.slots) && Starves(s.slots, x)
    requires var queue := BuildQueue(true, s.slots); place < |queue| <= n && s.queue == Rotated(queue, place)
    ensures Chosen(s, ups, n) != Train(x)
  {
    var queue, w := BuildQueue(true, s.slots), WheelOf(s.slots, place);
    WheelShows(s, place);
    RunTurns(s, ups, w, n);
    if x in queue {
      BlockedIsSoonOver(ROUND_ITERATIONS, queue, w, FirstPlace(queue, x, 0), n);
    }
  }

  /** When all models are at the start of their rounds, a model is ever trained if and only if it does not starve. */
  lemma FreshlyTrainedIff(s: State, ups: nat -> seq<TopUp>, x: string)
    requires KeptStocked(s, ups) && JustRebuilt(s)
    requires forall k :: 0 <= k < |s.slots| ==> s.slots[k].iterationsThisRound == 0
    ensures (exists n: nat :: Chosen(s, ups, n) == Train(x)) <==> !Starves(s.slots, x)
  {
    if Starves(s.slots, x) {
      forall n: nat ensures Chosen(s, ups, n) != Train(x) {
        StarvedIsNeverTrained(s, ups, x, n);
      }
    } else {
      var w, f := WheelOf(s.slots, 0), FirstPlace(s.queue, x, 0);
      RebuiltShows(s);
      forall y ensures CountOf(w, y) == 0 {
        assert CountOf(w, y) == RoundOf(s.slots, y);
      }
      FreshReachesIff(ROUND_ITERATIONS, s.queue, w, f);
      var n: nat :| Spun(ROUND_ITERATIONS, s.queue, w, n).place == f;
      RunTurns(s, ups, w, n);
    }
  }

  /** Whatever the counters, a model that can be balanced is trained again and again. */
  lemma BalancedIsTrainedAgain(s: State, ups: nat -> seq<TopUp>, x: string, place: nat, weigh: Weights, after: nat)
    returns (n: nat)
    requires KeptStocked(s, ups) && InRound(s.slots) && x in BuildQueue(true, s.slots)
    requires var queue := BuildQueue(true, s.slots); place < |queue| && s.queue == Rotated(queue, place)
    requires var queue := BuildQueue(true, s.slots);
             Balanced(ROUND_ITERATIONS, queue, FirstPlace(queue, x, 0), weigh)
    ensures n >= after && Chosen(s, ups, n) == Train(x)
  {
    var queue, w := BuildQueue(true, s.slots), WheelOf(s.slots, place);
    WheelShows(s, place);
    n := BalancedIsReachedAgain(ROUND_ITERATIONS, queue, FirstPlace(queue, x, 0), weigh, w, after);
    RunTurns(s, ups, w, n);
  }

  /**
    In particular a model is, when from the tenth place of the queue on whoever comes before its first place
    comes there only once; as all do when that first place is among the first ten.
   */
  lemma LightIsTrainedAgain(s: State, ups: nat -> seq<TopUp>, x: string, place: nat, after: nat) returns (n: nat)
    requires KeptStocked(s, ups) && InRound(s.slots) && x in BuildQueue(true, s.slots)
    requires var queue := BuildQueue(true, s.slots); place < |queue| && s.queue == Rotated(queue, place)
    requires var queue := BuildQueue(true, s.slots); Light(ROUND_ITERATIONS, queue, FirstPlace(queue, x, 0))
    ensures n >= after && Chosen(s, ups, n) == Train(x)
  {
    var queue := BuildQueue(true, s.slots);
    LightIsBalanced(ROUND_ITERATIONS, queue, FirstPlace(queue, x, 0));
    n := BalancedIsTrainedAgain(s, ups, x, place, LightWeights(ROUND_ITERATIONS, queue), after);
  }
}
