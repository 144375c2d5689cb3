/**
  Which funded models the fair scheduler offers for training: the places of the queue they get, and that
  whoever has a place is chosen within one turn of the queue as long as no iteration is recorded.
 */
module SchedulerFairness {
  import opened Basics
  import opened Scheduler
  import opened SchedulerService
  import opened SchedulerRuns

  // ----- who is in the queue

  lemma {:induction false} TierMembers(slots: seq<Slot>, p: Priority, x: string)
    ensures x in Tier(slots, p) <==> exists k :: 0 <= k < |slots| && slots[k].modelId == x && Listed(slots[k], p)
  {
    if slots != [] {
      var last := |slots| - 1;
      TierMembers(slots[..last], p, x);
      assert forall k :: 0 <= k < last ==> slots[..last][k] == slots[k];
    }
  }

  lemma {:induction false} TierIsDistinct(slots: seq<Slot>, p: Priority)
    requires Distinct(slots)
    ensures forall j, k :: 0 <= j < k < |Tier(slots, p)| ==> Tier(slots, p)[j] != Tier(slots, p)[k]
  {
    if slots != [] {
      var last := |slots| - 1;
      TierIsDistinct(slots[..last], p);
      TierMembers(slots[..last], p, slots[last].modelId);
    }
  }

  lemma TiersAreApart(slots: seq<Slot>, p: Priority, q: Priority, x: string)
    requires Distinct(slots) && p != q && x in Tier(slots, p)
    ensures x !in Tier(slots, q)
  {
    TierMembers(slots, p, x);
    TierMembers(slots, q, x);
  }

  lemma TiersOf(slots: seq<Slot>)
    requires Distinct(slots)
    ensures Tiers(Tier(slots, High), Tier(slots, Normal), Tier(slots, Low))
  {
    TierIsDistinct(slots, High);
    TierIsDistinct(slots, Normal);
    TierIsDistinct(slots, Low);
    forall x | x in Tier(slots, High) ensures x !in Tier(slots, Normal) && x !in Tier(slots, Low) {
      TiersAreApart(slots, High, Normal, x);
      TiersAreApart(slots, High, Low, x);
    }
    forall x | x in Tier(slots, Normal) ensures x !in Tier(slots, Low) {
      TiersAreApart(slots, Normal, Low, x);
    }
  }

  /** A listed model's place in its tier is the number of listed models of that tier registered before it. */
  lemma {:induction false} PlaceInTier(slots: seq<Slot>, j: nat, p: Priority)
    requires j < |slots| && Listed(slots[j], p)
    ensures |Tier(slots[..j], p)| < |Tier(slots, p)| && Tier(slots, p)[|Tier(slots[..j], p)|] == slots[j].modelId
  {
    var last := |slots| - 1;
    if j < last {
      PlaceInTier(slots[..last], j, p);
      assert slots[..last][..j] == slots[..j];
    }
  }

  lemma RotationHasSame(queue: seq<string>, built: seq<string>, x: string)
    requires IsRotation(queue, built)
    ensures x in queue <==> x in built
  {
    var n: nat :| n <= |built| && queue == Rotated(built, n);
    RotatedIs(built, n);
    assert built == built[..n] + built[n..];
  }

  /** Whether the model in place `k` of its tier gets into a queue built from tiers of these sizes. */
  predicate Served(p: Priority, k: nat, high: nat, normal: nat, low: nat) {
    match p
    case High => true
    case Normal => ServedAtEvenSteps(normal, k)
    case Low => ServedAtThirdSteps(low, k, BuildLength(high, normal, low))
    case Paused => false
  }

  /** The place of slot `j` in its tier is one the build picks. */
  predicate HasPlace(slots: seq<Slot>, j: nat)
    requires j < |slots|
  {
    var p := slots[j].priority;
    Served(p, |Tier(slots[..j], p)|, |Tier(slots, High)|, |Tier(slots, Normal)|, |Tier(slots, Low)|)
  }

  /** In every reachable state of the fair scheduler, an active paid-up model is queued exactly when it has a place. */
  lemma ListedModelIsQueuedIff(priced: bool, s: State, j: nat)
    requires Invariant(true, priced, s) && j < |s.slots| && s.slots[j].isActive && s.slots[j].isPaidUp
    ensures s.slots[j].modelId in s.queue <==> HasPlace(s.slots, j)
  {
    RotationHasSame(s.queue, BuildQueue(true, s.slots), s.slots[j].modelId);
    ListedIsBuiltIff(s.slots, j);
  }

  lemma ListedIsBuiltIff(slots: seq<Slot>, j: nat)
    requires Distinct(slots) && j < |slots| && slots[j].isActive && slots[j].isPaidUp
    ensures slots[j].modelId in BuildQueue(true, slots) <==> HasPlace(slots, j)
  {
    var high, normal, low := Tier(slots, High), Tier(slots, Normal), Tier(slots, Low);
    var p := slots[j].priority;
    var k := |Tier(slots[..j], p)|;
    TiersOf(slots);
    PlaceInTier(slots, j, p);
    match p
    case High =>
      HighTierService(high, normal, low, k, k);
    case Normal =>
      NormalTierService(high, normal, low, k);
    case Low =>
      LowTierService(high, normal, low, k);
    case Paused =>
      PausedIsNotQueued(slots, j);
  }

  lemma PausedIsNotQueued(slots: seq<Slot>, j: nat)
    requires Distinct(slots) && j < |slots| && slots[j].priority == Paused
    ensures slots[j].modelId !in BuildQueue(true, slots)
  {
    OtherTier(slots, j, High);
    OtherTier(slots, j, Normal);
    OtherTier(slots, j, Low);
    QueueFromTiers(true, slots, slots[j].modelId);
  }

  lemma OtherTier(slots: seq<Slot>, j: nat, p: Priority)
    requires Distinct(slots) && j < |slots| && slots[j].priority != p
    ensures slots[j].modelId !in Tier(slots, p)
  {
    TierMembers(slots, p, slots[j].modelId);
  }

  lemma QueueFromTiers(fair: bool, slots: seq<Slot>, x: string)
    ensures x in BuildQueue(fair, slots) ==> x in Tier(slots, High) || x in Tier(slots, Normal) || x in Tier(slots, Low)
  {
    if fair {
      var high, normal, low := Tier(slots, High), Tier(slots, Normal), Tier(slots, Low);
      RoundsFromTiers(high, normal, low, BuildLength(|high|, |normal|, |low|), x);
    }
  }

  lemma RoundsFromTiers(high: seq<string>, normal: seq<string>, low: seq<string>, n: nat, x: string)
    ensures x in Rounds(high, normal, low, n) ==> x in high || x in normal || x in low
  {
    var f := Steps(high, normal, low);
    InConcat(f, n, x);
    forall i: nat | x in f(i) ensures x in high || x in normal || x in low {
      assert x in Round(high, normal, low, i);
    }
  }

  function Without(id: string): State -> bool { (s: State) => s.queue != [] && id !in s.queue }

  lemma NotQueuedStays(fair: bool, s: State, n: nat, id: string)
    requires s.queue != [] && id !in s.queue
    ensures AfterCalls(fair, s, n).queue != [] && id !in AfterCalls(fair, s, n).queue
  {
    forall t | Without(id)(t) ensures Without(id)(NextState(fair)(t)) {
      QueueStays(fair, t, id, NextState(fair)(t));
    }
    IterateKeeps(NextState(fair), Without(id), s, n);
  }

  /** A model outside a non-empty queue is not chosen by any number of calls. */
  lemma NotQueuedNeverChosen(fair: bool, s: State, n: nat, id: string)
    requires s.queue != [] && id !in s.queue
    ensures Choose(fair, AfterCalls(fair, s, n)).0 != Train(id)
  {
    NotQueuedStays(fair, s, n, id);
    ChoiceIsQueued(fair, AfterCalls(fair, s, n), id);
  }

  lemma QueueStays(fair: bool, s: State, id: string, later: State)
    requires s.queue != [] && id !in s.queue && later == Choose(fair, s).1
    ensures later.queue != [] && id !in later.queue
  {
    if fair {
      var k := FirstReady(s.slots, s.queue, 0);
      if k < |s.queue| {
        RotatedIs(s.queue, k + 1);
      }
    }
  }

  lemma ChoiceIsQueued(fair: bool, s: State, id: string)
    requires s.queue != [] && id !in s.queue
    ensures Choose(fair, s).0 != Train(id)
  {
  }

  lemma Found(slots: seq<Slot>, id: string, k: nat)
    requires k < |slots| && slots[k].modelId == id
    ensures Find(slots, id, 0) < |slots|
  {
  }

  lemma QueuedIsRegistered(fair: bool, priced: bool, s: State, id: string)
    requires Invariant(fair, priced, s) && id in s.queue
    ensures Find(s.slots, id, 0) < |s.slots|
  {
    RotationHasSame(s.queue, BuildQueue(fair, s.slots), id);
    QueueFromTiers(fair, s.slots, id);
    var p := if id in Tier(s.slots, High) then High else if id in Tier(s.slots, Normal) then Normal else Low;
    TierMembers(s.slots, p, id);
    var k :| 0 <= k < |s.slots| && s.slots[k].modelId == id && Listed(s.slots[k], p);
    Found(s.slots, id, k);
  }

  /** In no reachable state does asking for the next model look up one that is not registered. */
  lemma NeverKeyError(fair: bool, priced: bool, s: State)
    requires Invariant(fair, priced, s)
    ensures Choose(fair, s).0 != KeyError
  {
    if s.queue == [] {
      var rebuilt := Rebuild(fair, s);
      assert AllRegistrable(false, s.slots) && Invariant(fair, false, s);
      RebuildEstablishes(fair, false, s, rebuilt);
      ChooseAfterRebuild(fair, s, rebuilt);
      if rebuilt.queue != [] {
        NoKeyErrorFrom(fair, rebuilt);
      }
    } else {
      NoKeyErrorFrom(fair, s);
    }
  }

  lemma NoKeyErrorFrom(fair: bool, s: State)
    requires Invariant(fair, false, s) && s.queue != []
    ensures Choose(fair, s).0 != KeyError
  {
    QueuedIsRegistered(fair, false, s, s.queue[0]);
  }

  // ----- whoever has a place and the funds is chosen

  lemma ChooseFirstReady(s: State, k: nat)
    requires k < |s.queue| && k == FirstReady(s.slots, s.queue, 0)
    ensures Choose(true, s) == (Train(s.queue[k]), s.(queue := Rotated(s.queue, k + 1)))
  {
  }

  lemma CallsFromNext(fair: bool, s: State, next: State, n: nat)
    requires next == Choose(fair, s).1
    ensures AfterCalls(fair, next, n) == AfterCalls(fair, s, n + 1)
  {
    IterateFromNext(NextState(fair), s, n);
    assert NextState(fair)(s) == next;
  }

  lemma PlaceAfterRotation(queue: seq<string>, n: nat, j: nat)
    requires n <= j < |queue|
    ensures |Rotated(queue, n)| == |queue| && Rotated(queue, n)[j - n] == queue[j]
  {
    RotatedIs(queue, n);
  }

  /** A queued model that is ready is chosen by the time its place is reached, whatever the others are. */
  lemma {:induction false} QueuedReadyIsChosen(s: State, j: nat) returns (n: nat)
    requires j < |s.queue| && Ready(s.slots, s.queue[j])
    ensures n <= j && Choose(true, AfterCalls(true, s, n)).0 == Train(s.queue[j])
    decreases j
  {
    var k := FirstReady(s.slots, s.queue, 0);
    ChooseFirstReady(s, k);
    if k == j {
      n := 0;
    } else {
      var next := s.(queue := Rotated(s.queue, k + 1));
      PlaceAfterRotation(s.queue, k + 1, j);
      n := QueuedReadyIsChosen(next, j - k - 1);
      CallsFromNext(true, s, next, n);
      n := n + 1;
    }
  }

  lemma FundedIsReady(slots: seq<Slot>, j: nat)
    requires Distinct(slots) && j < |slots| && slots[j].isActive && Funded(slots[j])
    ensures Ready(slots, slots[j].modelId)
  {
    Found(slots, slots[j].modelId, j);
  }

  ghost predicate IsChosenWithin(s: State, id: string, calls: nat) {
    exists n: nat :: n < calls && Choose(true, AfterCalls(true, s, n)).0 == Train(id)
  }

  /**
    As long as no iteration is recorded: in every reachable state of the fair scheduler, an active model with
    the funds is chosen within one turn of the queue exactly when the place of its registration in its tier
    is one the build picks; otherwise no number of calls chooses it.
   */
  lemma FundedModelIsOfferedIff(s: State, j: nat)
    requires Invariant(true, true, s) && j < |s.slots| && s.slots[j].isActive && Funded(s.slots[j])
    ensures IsChosenWithin(s, s.slots[j].modelId, |s.queue|) <==> HasPlace(s.slots, j)
    ensures !HasPlace(s.slots, j) && s.queue != [] ==>
              forall n: nat :: Choose(true, AfterCalls(true, s, n)).0 != Train(s.slots[j].modelId)
  {
    var id := s.slots[j].modelId;
    ListedModelIsQueuedIff(true, s, j);
    if HasPlace(s.slots, j) {
      var k :| 0 <= k < |s.queue| && s.queue[k] == id;
      FundedIsReady(s.slots, j);
      var n := QueuedReadyIsChosen(s, k);
    } else if s.queue != [] {
      forall n: nat ensures Choose(true, AfterCalls(true, s, n)).0 != Train(id) {
        NotQueuedNeverChosen(true, s, n, id);
      }
    }
  }

  // ----- high-priority models, in every reachable state

  lemma RotationCounts(queue: seq<string>, built: seq<string>)
    requires IsRotation(queue, built)
    ensures multiset(queue) == multiset(built)
  {
    var n: nat :| n <= |built| && queue == Rotated(built, n);
    RotatedIs(built, n);
    HalvesCount(built, n);
  }

  lemma HalvesCount(built: seq<string>, n: nat)
    requires n <= |built|
    ensures multiset(built[n..] + built[..n]) == multiset(built)
  {
    assert built == built[..n] + built[n..];
  }

  /** The queue holds every listed high-priority model at least three times, no two counts more than one apart. */
  lemma HighModelsArePlacedEvenly(priced: bool, s: State, i: nat, j: nat)
    requires Invariant(true, priced, s) && i < |s.slots| && j < |s.slots|
    requires Listed(s.slots[i], High) && Listed(s.slots[j], High)
    ensures multiset(s.queue)[s.slots[i].modelId] >= 3
    ensures multiset(s.queue)[s.slots[i].modelId] <= multiset(s.queue)[s.slots[j].modelId] + 1
  {
    RotationCounts(s.queue, BuildQueue(true, s.slots));
    TiersOf(s.slots);
    PlaceInTier(s.slots, i, High);
    PlaceInTier(s.slots, j, High);
    HighTierService(Tier(s.slots, High), Tier(s.slots, Normal), Tier(s.slots, Low),
                    |Tier(s.slots[..i], High)|, |Tier(s.slots[..j], High)|);
  }

  // ----- right after a rebuild

  lemma ListedAfterRefreshIsReady(slots: seq<Slot>, k: nat, p: Priority)
    requires Distinct(slots) && k < |slots| && Listed(RefreshAll(slots)[k], p)
    ensures Ready(RefreshAll(slots), slots[k].modelId)
  {
    RefreshedArePaidUp(slots);
    FundedIsReady(RefreshAll(slots), k);
  }

  /** Every model in a rebuilt queue is ready. */
  lemma RebuiltIsReady(s: State)
    requires Distinct(s.slots)
    ensures AllReady(Rebuild(true, s).slots, Rebuild(true, s).queue)
  {
    var slots := RefreshAll(s.slots);
    forall x | x in BuildQueue(true, slots) ensures Ready(slots, x) {
      QueueFromTiers(true, slots, x);
      var p := if x in Tier(slots, High) then High else if x in Tier(slots, Normal) then Normal else Low;
      TierIsReady(s.slots, p, x);
    }
  }

  lemma TierIsReady(slots: seq<Slot>, p: Priority, x: string)
    requires Distinct(slots) && x in Tier(RefreshAll(slots), p)
    ensures Ready(RefreshAll(slots), x)
  {
    TierMembers(RefreshAll(slots), p, x);
    var k :| 0 <= k < |slots| && RefreshAll(slots)[k].modelId == x && Listed(RefreshAll(slots)[k], p);
    ListedAfterRefreshIsReady(slots, k, p);
  }

  /** So as many calls as a rebuilt queue is long serve exactly that queue in order and restore it. */
  lemma FullCycleAfterRebuild(s: State, rebuilt: State)
    requires Distinct(s.slots) && rebuilt == Rebuild(true, s)
    ensures forall n: nat :: n < |rebuilt.queue| ==>
              Choose(true, AfterCalls(true, rebuilt, n)).0 == Train(rebuilt.queue[n])
    ensures AfterCalls(true, rebuilt, |rebuilt.queue|) == rebuilt
  {
    RebuiltIsReady(s);
    FullCycle(rebuilt);
  }
}
