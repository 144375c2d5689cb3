/**
  Who gets training time: a cycle serves the queue in order, and which models the queue serves.
 */
module SchedulerService {
  import opened Basics
  import opened Scheduler

  // ----- a cycle of calls

  function NextState(fair: bool): State -> State { (s: State) => Choose(fair, s).1 }

  /** The state after `n` calls for the next model. */
  function AfterCalls(fair: bool, s: State, n: nat): State { Iterate(NextState(fair), s, n) }

  ghost predicate AllReady(slots: seq<Slot>, queue: seq<string>) {
    forall k :: 0 <= k < |queue| ==> Ready(slots, queue[k])
  }

  lemma FirstIsReady(slots: seq<Slot>, queue: seq<string>)
    requires queue != [] && Ready(slots, queue[0])
    ensures FirstReady(slots, queue, 0) == 0
  {
  }

  lemma ChooseReady(s: State)
    requires s.queue != [] && Ready(s.slots, s.queue[0])
    ensures Choose(true, s) == (Train(s.queue[0]), s.(queue := Rotated(s.queue, 1)))
  {
    FirstIsReady(s.slots, s.queue);
  }

  lemma {:induction false} StepsRotate(next: State -> State, s: State, n: nat)
    requires n <= |s.queue|
    requires forall k: nat :: k < n ==> next(Turned(s, k)) == Turned(s, k + 1)
    ensures Iterate(next, s, n) == Turned(s, n)
  {
    if n > 0 {
      StepsRotate(next, s, n - 1);
      assert next(Turned(s, n - 1)) == Turned(s, n);
    }
  }

  function Turned(s: State, n: nat): State {
    if n <= |s.queue| then s.(queue := Rotated(s.queue, n)) else s
  }

  lemma CallsRotate(s: State, n: nat)
    requires n <= |s.queue| && AllReady(s.slots, s.queue)
    ensures AfterCalls(true, s, n) == s.(queue := Rotated(s.queue, n))
  {
    forall k: nat | k < n ensures NextState(true)(Turned(s, k)) == Turned(s, k + 1) {
      RotatedHead(s.queue, k);
      ChooseReady(Turned(s, k));
    }
    StepsRotate(NextState(true), s, n);
  }

  /** When every model in the queue is ready, call `n` serves place `n` of the queue. */
  lemma NthCall(s: State, n: nat)
    requires n < |s.queue| && AllReady(s.slots, s.queue)
    ensures Choose(true, AfterCalls(true, s, n)).0 == Train(s.queue[n])
  {
    CallsRotate(s, n);
    RotatedHead(s.queue, n);
    ChooseReady(s.(queue := Rotated(s.queue, n)));
  }

  /** A full cycle serves exactly the queue and restores it. */
  lemma FullCycle(s: State)
    requires AllReady(s.slots, s.queue)
    ensures forall n: nat :: n < |s.queue| ==> Choose(true, AfterCalls(true, s, n)).0 == Train(s.queue[n])
    ensures AfterCalls(true, s, |s.queue|) == s
  {
    forall n: nat | n < |s.queue| ensures Choose(true, AfterCalls(true, s, n)).0 == Train(s.queue[n]) {
      NthCall(s, n);
    }
    CallsRotate(s, |s.queue|);
    RotatedIs(s.queue, |s.queue|);
  }

  // ----- how often a high-priority model is served

  /** How many steps below `n` pick place `k` of `size`. */
  function Hits(n: nat, size: nat, k: nat): nat
    requires size > 0
  {
    if n == 0 then 0 else Hits(n - 1, size, k) + HitsAt(n - 1, size, k)
  }

  lemma OneMore(n: nat, size: nat)
    requires size > 0
    ensures n % size + 1 < size ==> (n + 1) / size == n / size && (n + 1) % size == n % size + 1
    ensures n % size + 1 == size ==> (n + 1) / size == n / size + 1 && (n + 1) % size == 0
  {
    var q, r := n / size, n % size;
    assert n == q * size + r;
    if r + 1 < size {
      DivisionIsUnique(n + 1, size, q, r + 1);
    } else {
      DivisionIsUnique(n + 1, size, q + 1, 0);
    }
  }

  lemma DivisionIsUnique(n: nat, size: nat, q: nat, r: nat)
    requires size > 0 && n == q * size + r && r < size
    ensures n / size == q && n % size == r
  {
    var d: int := n / size - q;
    assert n == (n / size) * size + n % size;
    assert d * size == r - n % size;
    assert d >= 1 ==> d * size >= size;
    assert d <= -1 ==> d * size + size <= 0;
  }

  lemma {:induction false} HitsAre(n: nat, size: nat, k: nat)
    requires k < size
    ensures Hits(n, size, k) == n / size + if k < n % size then 1 else 0
  {
    if n > 0 {
      HitsAre(n - 1, size, k);
      OneMore(n - 1, size);
    } else {
      DivisionIsUnique(0, size, 0, 0);
    }
  }

  /** Distinct names, each in one tier. */
  ghost predicate Tiers(high: seq<string>, normal: seq<string>, low: seq<string>) {
    && (forall j, k :: 0 <= j < k < |high| ==> high[j] != high[k])
    && (forall j, k :: 0 <= j < k < |normal| ==> normal[j] != normal[k])
    && (forall j, k :: 0 <= j < k < |low| ==> low[j] != low[k])
    && (forall x :: x in high ==> x !in normal && x !in low)
    && (forall x :: x in normal ==> x !in low)
  }

  lemma CountInPick(tier: seq<string>, i: nat, k: nat)
    requires k < |tier| && forall j, l :: 0 <= j < l < |tier| ==> tier[j] != tier[l]
    ensures multiset(Pick(tier, i))[tier[k]] == HitsAt(i, |tier|, k)
  {
    PickedAt(tier, i, k);
  }

  lemma NotInPick(tier: seq<string>, i: nat, x: string)
    requires x !in tier
    ensures multiset(Pick(tier, i))[x] == 0
  {
  }

  lemma CountOfThree(a: seq<string>, b: seq<string>, c: seq<string>, x: string)
    ensures multiset(a + b + c)[x] == multiset(a)[x] + multiset(b)[x] + multiset(c)[x]
  {
  }

  lemma CountInRound(high: seq<string>, normal: seq<string>, low: seq<string>, i: nat, k: nat)
    requires Tiers(high, normal, low) && k < |high|
    ensures multiset(Round(high, normal, low, i))[high[k]] == HitsAt(i, |high|, k)
  {
    assert high[k] in high;
    CountInPick(high, i, k);
    NotInPick(normal, i, high[k]);
    NotInPick(low, i, high[k]);
    CountOfThree(Pick(high, i),
                 if i % 2 == 0 then Pick(normal, i) else [],
                 if i % 3 == 0 then Pick(low, i) else [], high[k]);
  }

  function HitsAt(i: nat, size: nat, k: nat): nat
    requires size > 0
  {
    if Turn(i, size) == k then 1 else 0
  }

  lemma {:induction false} CountInRounds(f: nat -> seq<string>, n: nat, x: string, size: nat, k: nat)
    requires size > 0 && forall i: nat :: i < n ==> multiset(f(i))[x] == HitsAt(i, size, k)
    ensures multiset(Concat(f, n))[x] == Hits(n, size, k)
  {
    if n > 0 {
      CountInRounds(f, n - 1, x, size, k);
      assert multiset(Concat(f, n)) == multiset(Concat(f, n - 1)) + multiset(f(n - 1));
    }
  }

  /** In one cycle every high-priority model is served at least three times, and counts differ by at most one. */
  lemma HighTierService(high: seq<string>, normal: seq<string>, low: seq<string>, j: nat, k: nat)
    requires Tiers(high, normal, low) && j < |high| && k < |high|
    ensures var served := multiset(Rounds(high, normal, low, BuildLength(|high|, |normal|, |low|)));
            served[high[j]] >= 3 && served[high[j]] <= served[high[k]] + 1
  {
    var n := BuildLength(|high|, |normal|, |low|);
    HighCount(high, normal, low, n, j);
    HighCount(high, normal, low, n, k);
    AtLeastThree(n, |high|);
  }

  lemma HighCount(high: seq<string>, normal: seq<string>, low: seq<string>, n: nat, k: nat)
    requires Tiers(high, normal, low) && k < |high|
    ensures n / |high| <= multiset(Rounds(high, normal, low, n))[high[k]] <= n / |high| + 1
  {
    forall i: nat | i < n ensures multiset(Round(high, normal, low, i))[high[k]] == HitsAt(i, |high|, k) {
      CountInRound(high, normal, low, i, k);
    }
    CountInRounds(Steps(high, normal, low), n, high[k], |high|, k);
    HitsAre(n, |high|, k);
  }

  lemma AtLeastThree(n: nat, size: nat)
    requires size > 0 && n >= size * 3
    ensures n / size >= 3
  {
    var q := n / size;
    assert n == q * size + n % size;
    assert q <= 2 ==> q * size <= 2 * size;
  }

  // ----- which normal- and low-priority models are served at all

  lemma {:induction false} InConcat(f: nat -> seq<string>, n: nat, x: string)
    ensures x in Concat(f, n) <==> exists i: nat :: i < n && x in f(i)
  {
    if n > 0 {
      InConcat(f, n - 1, x);
      assert x in f(n - 1) ==> exists i: nat :: i < n && x in f(i);
    }
  }

  lemma PickedAt(tier: seq<string>, i: nat, k: nat)
    requires k < |tier| && forall j, l :: 0 <= j < l < |tier| ==> tier[j] != tier[l]
    ensures tier[k] in Pick(tier, i) <==> Turn(i, |tier|) == k
  {
    var t := Turn(i, |tier|);
    assert t < k ==> tier[t] != tier[k];
    assert k < t ==> tier[k] != tier[t];
  }

  lemma NormalInRound(high: seq<string>, normal: seq<string>, low: seq<string>, i: nat, k: nat)
    requires Tiers(high, normal, low) && k < |normal|
    ensures normal[k] in Round(high, normal, low, i) <==> i % 2 == 0 && Turn(i, |normal|) == k
  {
    PickedAt(normal, i, k);
    assert normal[k] in normal;
    assert forall x :: x in Pick(high, i) ==> x in high;
    assert forall x :: x in Pick(low, i) ==> x in low;
  }

  lemma LowInRound(high: seq<string>, normal: seq<string>, low: seq<string>, i: nat, k: nat)
    requires Tiers(high, normal, low) && k < |low|
    ensures low[k] in Round(high, normal, low, i) <==> i % 3 == 0 && Turn(i, |low|) == k
  {
    PickedAt(low, i, k);
    assert low[k] in low;
    assert forall x :: x in Pick(high, i) ==> x in high;
    assert forall x :: x in Pick(normal, i) ==> x in normal;
  }

  /** In a tier of `size`, place `k` comes up at an even step of the build. */
  predicate ServedAtEvenSteps(size: nat, k: nat) { size % 2 == 1 || k % 2 == 0 }

  /** The first of `k`, `k + size` and `k + 2 * size` that is a multiple of three lies below `n`. */
  predicate ServedAtThirdSteps(size: nat, k: nat, n: nat) {
    if k % 3 == 0 then k < n
    else if (k + size) % 3 == 0 then k + size < n
    else (k + 2 * size) % 3 == 0 && k + 2 * size < n
  }

  lemma TurnOf(size: nat, t: nat, k: nat)
    requires k < size
    ensures Turn(k + t * size, size) == k
  {
    DivisionIsUnique(k + t * size, size, t, k);
  }

  lemma TurnMeans(i: nat, size: nat, k: nat) returns (t: nat)
    requires size > 0 && Turn(i, size) == k
    ensures i == k + t * size
  {
    t := i / size;
  }

  lemma EvenSteps(size: nat, k: nat, n: nat)
    requires k < size && n >= 2 * size
    ensures ServedAtEvenSteps(size, k) <==> exists i: nat :: i < n && i % 2 == 0 && Turn(i, size) == k
  {
    if ServedAtEvenSteps(size, k) {
      var i := EvenStepFor(size, k);
      assert i < n && i % 2 == 0 && Turn(i, size) == k;
    }
    forall i: nat | i < n && i % 2 == 0 && Turn(i, size) == k ensures ServedAtEvenSteps(size, k) {
      EvenStepMeans(i, size, k);
    }
  }

  lemma EvenStepFor(size: nat, k: nat) returns (i: nat)
    requires k < size && ServedAtEvenSteps(size, k)
    ensures i < 2 * size && i % 2 == 0 && Turn(i, size) == k
  {
    TurnOf(size, 0, k);
    TurnOf(size, 1, k);
    i := if k % 2 == 0 then k else k + size;
  }

  lemma EvenStepMeans(i: nat, size: nat, k: nat)
    requires size > 0 && i % 2 == 0 && Turn(i, size) == k
    ensures ServedAtEvenSteps(size, k)
  {
    var p := Offset(i, size, k);
    assert i % 2 == 0 && p % 2 == 0 ==> k % 2 == 0;
  }

  lemma Offset(i: nat, size: nat, k: nat) returns (p: nat)
    requires size > 0 && Turn(i, size) == k
    ensures i == k + p && (size % 2 == 0 ==> p % 2 == 0)
  {
    var t := TurnMeans(i, size, k);
    Parity(size, t);
    p := t * size;
  }

  lemma Parity(size: nat, t: nat)
    ensures size % 2 == 0 ==> (t * size) % 2 == 0
  {
    if size % 2 == 0 {
      assert t * size == 2 * (t * (size / 2));
    }
  }

  lemma ThirdSteps(size: nat, k: nat, n: nat)
    requires k < size
    ensures ServedAtThirdSteps(size, k, n) <==> exists i: nat :: i < n && i % 3 == 0 && Turn(i, size) == k
  {
    if ServedAtThirdSteps(size, k, n) {
      var i := ThirdStepFor(size, k, n);
      assert i < n && i % 3 == 0 && Turn(i, size) == k;
    }
    forall i: nat | i < n && i % 3 == 0 && Turn(i, size) == k ensures ServedAtThirdSteps(size, k, n) {
      ThirdStepMeans(i, size, k, n);
    }
  }

  lemma ThirdStepFor(size: nat, k: nat, n: nat) returns (i: nat)
    requires k < size && ServedAtThirdSteps(size, k, n)
    ensures i < n && i % 3 == 0 && Turn(i, size) == k
  {
    TurnOf(size, 0, k);
    TurnOf(size, 1, k);
    TurnOf(size, 2, k);
    i := if k % 3 == 0 then k else if (k + size) % 3 == 0 then k + size else k + 2 * size;
  }

  lemma ThirdStepMeans(i: nat, size: nat, k: nat, n: nat)
    requires size > 0 && i < n && i % 3 == 0 && Turn(i, size) == k
    ensures ServedAtThirdSteps(size, k, n)
  {
    var r := EarliestTurn(i, size, k);
    SmallestOfThree(size, k, r, i, n);
  }

  lemma EarliestTurn(i: nat, size: nat, k: nat) returns (r: nat)
    requires size > 0 && i % 3 == 0 && Turn(i, size) == k
    ensures r < 3 && k + r * size <= i && (k + r * size) % 3 == 0
  {
    var t := TurnMeans(i, size, k);
    r := t % 3;
    ModuloThree(size, t);
    ThreeApart(i, k + r * size);
  }

  lemma ThreeApart(i: nat, j: int)
    requires i % 3 == 0 && (i - j) % 3 == 0
    ensures j % 3 == 0
  {
  }

  lemma SmallestOfThree(size: nat, k: nat, r: nat, i: nat, n: nat)
    requires r < 3 && i < n && k + r * size <= i && (k + r * size) % 3 == 0
    ensures ServedAtThirdSteps(size, k, n)
  {
    assert r * size == if r == 0 then 0 else if r == 1 then size else 2 * size;
  }

  lemma ModuloThree(size: nat, t: nat)
    ensures t * size >= (t % 3) * size && (t * size - (t % 3) * size) % 3 == 0
  {
    assert t * size - (t % 3) * size == 3 * (t / 3 * size) by {
      assert t == 3 * (t / 3) + t % 3;
    }
  }

  /** A normal-priority model is in a freshly built queue exactly when its tier is odd or its place is even. */
  lemma NormalTierService(high: seq<string>, normal: seq<string>, low: seq<string>, k: nat)
    requires Tiers(high, normal, low) && k < |normal|
    ensures normal[k] in Rounds(high, normal, low, BuildLength(|high|, |normal|, |low|))
            <==> ServedAtEvenSteps(|normal|, k)
  {
    var n, f := BuildLength(|high|, |normal|, |low|), Steps(high, normal, low);
    InConcat(f, n, normal[k]);
    EvenSteps(|normal|, k, n);
    forall i: nat ensures normal[k] in f(i) <==> i % 2 == 0 && Turn(i, |normal|) == k {
      NormalInRound(high, normal, low, i, k);
    }
  }

  /** A low-priority model is in it exactly when the first multiple of three that picks it comes before the end. */
  lemma LowTierService(high: seq<string>, normal: seq<string>, low: seq<string>, k: nat)
    requires Tiers(high, normal, low) && k < |low|
    ensures var n := BuildLength(|high|, |normal|, |low|);
            low[k] in Rounds(high, normal, low, n) <==> ServedAtThirdSteps(|low|, k, n)
  {
    var n, f := BuildLength(|high|, |normal|, |low|), Steps(high, normal, low);
    InConcat(f, n, low[k]);
    ThirdSteps(|low|, k, n);
    forall i: nat ensures low[k] in f(i) <==> i % 3 == 0 && Turn(i, |low|) == k {
      LowInRound(high, normal, low, i, k);
    }
  }

  /** The second of two normal-priority models alone in the scheduler is never served, contrary to the documentation. */
  lemma SecondOfTwoStarves(first: string, second: string)
    requires first != second
    ensures second !in Rounds([], [first, second], [], BuildLength(0, 2, 0))
  {
    NormalTierService([], [first, second], [], 1);
  }
}
