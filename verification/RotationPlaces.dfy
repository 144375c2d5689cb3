/** The rotation queue place by place, and what the scheduler takes from it. */
module RotationPlaces {
  import opened Scheduler
  import opened SchedulerRuns
  import opened SchedulerFairness

  /** A tier lists its active, paid-up models in the order of registration. */
  lemma TierIs(slots: seq<Slot>, slot: Slot, p: Priority)
    ensures Tier(slots + [slot], p)
            == Tier(slots, p) + (if slot.isActive && slot.isPaidUp && slot.priority == p then [slot.modelId] else [])
    ensures Tier([], p) == []
  {
    assert (slots + [slot])[..|slots|] == slots;
  }

  /** How many names the steps below `i` queue: a high one each, a normal one every second, a low one every third. */
  function Start(high: seq<string>, normal: seq<string>, low: seq<string>, i: nat): nat {
    (if high == [] then 0 else i) + (if normal == [] then 0 else (i + 1) / 2) + (if low == [] then 0 else (i + 2) / 3)
  }

  lemma RoundLength(high: seq<string>, normal: seq<string>, low: seq<string>, i: nat)
    ensures |Round(high, normal, low, i)| == Start(high, normal, low, i + 1) - Start(high, normal, low, i)
  {
    HalfSteps(i);
  }

  lemma HalfSteps(i: nat)
    ensures (i + 2) / 2 == (i + 1) / 2 + if i % 2 == 0 then 1 else 0
    ensures (i + 3) / 3 == (i + 2) / 3 + if i % 3 == 0 then 1 else 0
  {
  }

  lemma {:induction false} ConcatLength(f: nat -> seq<string>, start: nat -> nat, n: nat)
    requires start(0) == 0 && forall i: nat :: i < n ==> |f(i)| == start(i + 1) - start(i)
    ensures |Concat(f, n)| == start(n)
  {
    if n > 0 {
      ConcatLength(f, start, n - 1);
    }
  }

  lemma RoundsLength(high: seq<string>, normal: seq<string>, low: seq<string>, n: nat)
    ensures |Rounds(high, normal, low, n)| == Start(high, normal, low, n)
  {
    var f, start := Steps(high, normal, low), (i: nat) => Start(high, normal, low, i);
    forall i: nat | i < n ensures |f(i)| == start(i + 1) - start(i) {
      RoundLength(high, normal, low, i);
    }
    ConcatLength(f, start, n);
  }

  lemma {:induction false} ConcatAt(f: nat -> seq<string>, n: nat, i: nat, j: nat)
    requires i < n && j < |f(i)|
    ensures |Concat(f, i)| + j < |Concat(f, n)| && Concat(f, n)[|Concat(f, i)| + j] == f(i)[j]
  {
    if i < n - 1 {
      ConcatAt(f, n - 1, i, j);
    }
  }

  lemma NamedAt(f: nat -> seq<string>, n: nat, i: nat, round: seq<string>, j: nat, place: nat, name: string)
    requires i < n && f(i) == round && j < |round| && round[j] == name && place == |Concat(f, i)| + j
    ensures place < |Concat(f, n)| && Concat(f, n)[place] == name
  {
    ConcatAt(f, n, i, j);
  }

  lemma ThreeInPlace(f: nat -> seq<string>, n: nat, i: nat, a: seq<string>, b: seq<string>, c: seq<string>)
    requires i < n && f(i) == a + b + c && |a| <= 1 && |b| <= 1 && |c| <= 1
    ensures a != [] ==> Has(Concat(f, n), |Concat(f, i)|, a[0])
    ensures b != [] ==> Has(Concat(f, n), |Concat(f, i)| + |a|, b[0])
    ensures c != [] ==> Has(Concat(f, n), |Concat(f, i)| + |f(i)| - 1, c[0])
  {
    if a != [] {
      NamedAt(f, n, i, f(i), 0, |Concat(f, i)|, a[0]);
    }
    if b != [] {
      NamedAt(f, n, i, f(i), |a|, |Concat(f, i)| + |a|, b[0]);
    }
    if c != [] {
      NamedAt(f, n, i, f(i), |f(i)| - 1, |Concat(f, i)| + |f(i)| - 1, c[0]);
    }
  }

  /** At each step the next high model, at every second the next normal one, at every third the next low one. */
  ghost predicate InTurn(queue: seq<string>, high: seq<string>, normal: seq<string>, low: seq<string>, i: nat) {
    var start, next := Start(high, normal, low, i), Start(high, normal, low, i + 1);
    && (high != [] ==> Has(queue, start, high[i % |high|]))
    && (normal != [] && i % 2 == 0 ==> Has(queue, start + if high == [] then 0 else 1, normal[i % |normal|]))
    && (low != [] && i % 3 == 0 ==> Has(queue, next - 1, low[i % |low|]))
  }

  ghost predicate Has(queue: seq<string>, place: int, name: string) {
    0 <= place < |queue| && queue[place] == name
  }

  lemma TurnsTaken(high: seq<string>, normal: seq<string>, low: seq<string>, n: nat, i: nat, f: nat -> seq<string>,
                   a: seq<string>, b: seq<string>, c: seq<string>)
    requires i < n && |Concat(f, i)| == Start(high, normal, low, i)
    requires |f(i)| == Start(high, normal, low, i + 1) - Start(high, normal, low, i) && f(i) == a + b + c
    requires a == Pick(high, i)
    requires b == if i % 2 == 0 then Pick(normal, i) else []
    requires c == if i % 3 == 0 then Pick(low, i) else []
    ensures InTurn(Concat(f, n), high, normal, low, i)
  {
    ThreeInPlace(f, n, i, a, b, c);
  }

  lemma RoundsAreInTurn(high: seq<string>, normal: seq<string>, low: seq<string>, n: nat, i: nat)
    requires i < n
    ensures InTurn(Rounds(high, normal, low, n), high, normal, low, i)
  {
    RoundLength(high, normal, low, i);
    RoundsLength(high, normal, low, i);
    TurnsTaken(high, normal, low, n, i, Steps(high, normal, low), Pick(high, i),
               if i % 2 == 0 then Pick(normal, i) else [],
               if i % 3 == 0 then Pick(low, i) else []);
  }

  /** Three places for each high model, two for each normal one, one for each low one, and never none. */
  ghost predicate Enough(n: nat, high: nat, normal: nat, low: nat) {
    && n >= 3 * high && n >= 2 * normal && n >= low && n >= 1
    && (n == 3 * high || n == 2 * normal || n == low || n == 1)
  }

  lemma FairQueueIsRounds(slots: seq<Slot>, high: seq<string>, normal: seq<string>, low: seq<string>, n: nat)
    requires high == Tier(slots, High) && normal == Tier(slots, Normal) && low == Tier(slots, Low)
    requires Enough(n, |high|, |normal|, |low|)
    ensures BuildQueue(true, slots) == Rounds(high, normal, low, n)
  {
  }

  /**
    The queue of fair rotation is built of just enough steps for three places of every high-priority model, two of
    every normal one and one of every low one, and every step adds the models whose turn it is, in this order.
   */
  lemma FairQueueIs(slots: seq<Slot>, high: seq<string>, normal: seq<string>, low: seq<string>, n: nat, i: nat)
    requires high == Tier(slots, High) && normal == Tier(slots, Normal) && low == Tier(slots, Low)
    requires Enough(n, |high|, |normal|, |low|)
    ensures |BuildQueue(true, slots)| == Start(high, normal, low, n)
    ensures i < n ==> InTurn(BuildQueue(true, slots), high, normal, low, i)
  {
    FairQueueIsRounds(slots, high, normal, low, n);
    RoundsLength(high, normal, low, n);
    if i < n {
      RoundsAreInTurn(high, normal, low, n, i);
    }
  }

  /** Without fair rotation the tiers follow each other. */
  lemma PlainQueueIs(slots: seq<Slot>)
    ensures BuildQueue(false, slots) == Tier(slots, High) + Tier(slots, Normal) + Tier(slots, Low)
  {
  }

  // ----- one choice

  /** Fair rotation takes the first model that is ready and moves everything up to it to the back. */
  lemma FairChoiceIs(s: State, k: nat)
    requires k < |s.queue| && Ready(s.slots, s.queue[k]) && forall j :: 0 <= j < k ==> !Ready(s.slots, s.queue[j])
    ensures Choose(true, s) == (Train(s.queue[k]), s.(queue := s.queue[k + 1..] + s.queue[..k + 1]))
  {
    RotatedIs(s.queue, k + 1);
    ChooseFirstReady(s, k);
  }

  /** When none is ready, nothing is chosen and nothing moves. */
  lemma NoneReady(s: State)
    requires s.queue != [] && forall k :: 0 <= k < |s.queue| ==> !Ready(s.slots, s.queue[k])
    ensures Choose(true, s) == (Nothing, s)
  {
  }

  /** A model is ready when it is registered and active with the balance required of it. */
  lemma ReadyIff(slots: seq<Slot>, k: nat)
    requires Distinct(slots) && k < |slots|
    ensures Ready(slots, slots[k].modelId)
            <==> slots[k].isActive && slots[k].paymentBalance >= slots[k].minBalanceRequired
  {
    Found(slots, slots[k].modelId, k);
  }

  /** Without fair rotation the head of the queue is taken or nothing is, and the queue never moves. */
  lemma PlainChoiceIs(s: State, k: nat)
    requires Distinct(s.slots) && k < |s.slots| && s.queue != [] && s.queue[0] == s.slots[k].modelId
    ensures Choose(false, s)
            == (if s.slots[k].paymentBalance >= s.slots[k].minBalanceRequired then Train(s.queue[0]) else Nothing, s)
  {
    Found(s.slots, s.queue[0], k);
  }

  /** An empty queue is built anew before the choice; when it stays empty nothing is chosen. */
  lemma EmptyQueueIsRebuilt(fair: bool, s: State)
    requires s.queue == []
    ensures var rebuilt := State(RefreshAll(s.slots), BuildQueue(fair, RefreshAll(s.slots)), s.round);
            Choose(fair, s) == if rebuilt.queue == [] then (Nothing, rebuilt) else Choose(fair, rebuilt)
  {
  }
}
