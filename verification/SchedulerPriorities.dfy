/**
  The training loop by priority: who starves behind the high tier, and that nobody who is queued starves
  when all models have the same priority.
 */
module SchedulerPriorities {
  import opened Scheduler
  import opened SchedulerService
  import opened SchedulerRuns
  import opened SchedulerFairness
  import opened SchedulerRounds
  import opened RotationWheel
  import opened SchedulerTraining

  // ----- who starves behind the high tier

  lemma {:induction false} ConcatGrows(f: nat -> seq<string>, a: nat, b: nat)
    requires a <= b
    ensures Concat(f, a) <= Concat(f, b)
  {
    if a < b {
      ConcatGrows(f, a, b - 1);
    }
  }

  lemma {:induction false} PlacesAreCounted(queue: seq<string>, x: string, n: nat)
    requires n <= |queue|
    ensures Places(queue, x, n) == multiset(queue[..n])[x]
  {
    if n > 0 {
      PlacesAreCounted(queue, x, n - 1);
      assert queue[..n] == queue[..n - 1] + [queue[n - 1]];
    }
  }

  lemma FirstPlaceIsBehind(queue: seq<string>, early: seq<string>, y: string, x: string)
    requires early + [y] <= queue && x !in early && x != y
    ensures FirstPlace(queue, x, 0) > |early|
  {
    forall k | 0 <= k <= |early| ensures queue[k] != x {
      assert queue[k] == (early + [y])[k];
    }
  }

  /** Nine places in the front part of the queue and one right after it make ten. */
  lemma TenPlaces(queue: seq<string>, early: seq<string>, y: string)
    requires early + [y] <= queue && multiset(early)[y] >= 9
    ensures Places(queue, y, |early| + 1) >= 10
  {
    assert queue[..|early| + 1] == early + [y];
    PlacesAreCounted(queue, y, |early| + 1);
  }

  /** The step right after nine for each high-priority model begins with the first of them. */
  lemma TenthTurn(high: seq<string>, normal: seq<string>, low: seq<string>, n: nat)
    requires high != [] && n > 9 * |high|
    ensures Rounds(high, normal, low, 9 * |high|) + [high[0]] <= Rounds(high, normal, low, n)
  {
    var f, steps := Steps(high, normal, low), 9 * |high|;
    ConcatGrows(f, steps + 1, n);
    DivisionIsUnique(steps, |high|, 9, 0);
    FirstOfRound(high, normal, low, steps);
    AppendFirst(Concat(f, steps), f(steps), high[0]);
    assert Concat(f, steps + 1) == Concat(f, steps) + f(steps);
  }

  lemma FirstOfRound(high: seq<string>, normal: seq<string>, low: seq<string>, i: nat)
    requires high != [] && i % |high| == 0
    ensures Steps(high, normal, low)(i) != [] && Steps(high, normal, low)(i)[0] == high[0]
  {
  }

  lemma AppendFirst(a: seq<string>, b: seq<string>, y: string)
    requires b != [] && b[0] == y
    ensures a + [y] <= a + b
  {
  }

  lemma NinePlaces(high: seq<string>, normal: seq<string>, low: seq<string>)
    requires Tiers(high, normal, low) && high != []
    ensures multiset(Rounds(high, normal, low, 9 * |high|))[high[0]] >= 9
  {
    DivisionIsUnique(9 * |high|, |high|, 9, 0);
    HighCount(high, normal, low, 9 * |high|, 0);
  }

  lemma TenPlacesBlock(queue: seq<string>, early: seq<string>, y: string, x: string)
    requires early + [y] <= queue && multiset(early)[y] >= 9 && x !in early && x != y
    ensures Blocked(ROUND_ITERATIONS, queue, FirstPlace(queue, x, 0))
  {
    TenPlaces(queue, early, y);
    FirstPlaceIsBehind(queue, early, y, x);
    PlacesGrow(queue, y, |early| + 1, FirstPlace(queue, x, 0));
  }

  lemma NotInTheQueue(high: seq<string>, normal: seq<string>, low: seq<string>, n: nat, m: nat, x: string)
    requires n <= m && x !in Rounds(high, normal, low, m)
    ensures x !in Rounds(high, normal, low, n)
  {
    ConcatGrows(Steps(high, normal, low), n, m);
  }

  /** Whoever is not of high priority and gets no turn in so many steps of the build starves. */
  lemma BehindTheHighTierStarves(slots: seq<Slot>, x: string)
    requires Distinct(slots) && Tier(slots, High) != [] && x !in Tier(slots, High)
    requires x !in Rounds(Tier(slots, High), Tier(slots, Normal), Tier(slots, Low), 9 * |Tier(slots, High)|)
    ensures Starves(slots, x)
  {
    var high, normal, low := Tier(slots, High), Tier(slots, Normal), Tier(slots, Low);
    var n := BuildLength(|high|, |normal|, |low|);
    TiersOf(slots);
    assert high[0] in high;
    if n <= 9 * |high| {
      NotInTheQueue(high, normal, low, n, 9 * |high|, x);
    } else {
      NinePlaces(high, normal, low);
      TenthTurn(high, normal, low, n);
      TenPlacesBlock(BuildQueue(true, slots), Rounds(high, normal, low, 9 * |high|), high[0], x);
    }
  }

  // ----- models of one priority

  /** Every place of the queue is `d` further in the tier than the one before. */
  ghost predicate Strides(queue: seq<string>, tier: seq<string>, d: nat) {
    tier != [] && forall j :: 0 <= j < |queue| ==> queue[j] == tier[(d * j) % |tier|]
  }

  predicate EveryStep(f: nat -> seq<string>, tier: seq<string>, d: nat, i: nat)
    requires tier != [] && d > 0
  {
    f(i) == if i % d == 0 then [tier[i % |tier|]] else []
  }

  lemma NextMultiple(d: nat, j: nat, i: nat)
    requires d > 0 && d * j < i + d && i <= d * j
    ensures i % d == 0 <==> i == d * j
  {
    if j > 0 {
      DivisionIsUnique(i, d, if i == d * j then j else j - 1, if i == d * j then 0 else i - d * (j - 1));
    }
  }

  /** The queue after `n` steps, and that it has one place for every `d` steps. */
  ghost predicate StridesTo(queue: seq<string>, tier: seq<string>, d: nat, n: nat) {
    Strides(queue, tier, d) && n <= d * |queue| < n + d
  }

  lemma OneStride(queue: seq<string>, tier: seq<string>, d: nat, n: nat)
    requires StridesTo(queue, tier, d, n) && d > 0 && n % d == 0
    ensures StridesTo(queue + [tier[n % |tier|]], tier, d, n + 1)
  {
    NextMultiple(d, |queue|, n);
    assert d * (|queue| + 1) == d * |queue| + d;
  }

  lemma NoStride(queue: seq<string>, tier: seq<string>, d: nat, n: nat)
    requires StridesTo(queue, tier, d, n) && d > 0 && n % d != 0
    ensures StridesTo(queue, tier, d, n + 1)
  {
    NextMultiple(d, |queue|, n);
  }

  /** A build that picks from one tier at every `d`-th step strides through it. */
  lemma {:induction false} BuildStrides(f: nat -> seq<string>, tier: seq<string>, d: nat, n: nat)
    requires tier != [] && d > 0 && forall i: nat :: EveryStep(f, tier, d, i)
    ensures StridesTo(Concat(f, n), tier, d, n)
  {
    if n > 0 {
      BuildStrides(f, tier, d, n - 1);
      assert EveryStep(f, tier, d, n - 1);
      if (n - 1) % d == 0 {
        OneStride(Concat(f, n - 1), tier, d, n - 1);
      } else {
        NoStride(Concat(f, n - 1), tier, d, n - 1);
        assert Concat(f, n) == Concat(f, n - 1);
      }
    }
  }

  lemma SameRest(a: nat, b: nat, c: nat, size: nat)
    requires size > 0 && a <= b <= c && a % size == b % size
    ensures (c - (b - a)) % size == c % size
  {
    var q: int := b / size - a / size;
    assert b - a == q * size;
    DivisionIsUnique(c - (b - a), size, c / size - q, c % size) by {
      assert c == (c / size) * size + c % size;
      assert (c / size - q) * size == (c / size) * size - q * size;
      SmallMultiple(c, q, size);
    }
  }

  lemma SmallMultiple(c: nat, q: int, size: nat)
    requires size > 0 && q * size <= c
    ensures q <= c / size
  {
    var e := q - c / size;
    assert e * size == q * size - (c / size) * size;
    assert c == (c / size) * size + c % size;
    assert e >= 1 ==> e * size >= size;
  }

  /** Two places with the same model mean that every later place has an earlier one with the same model. */
  lemma StridesRepeat(queue: seq<string>, tier: seq<string>, d: nat, i: nat, j: nat, f: nat)
    requires Strides(queue, tier, d) && i < j < f < |queue| && queue[i] == queue[j]
    requires forall k, l :: 0 <= k < l < |tier| ==> tier[k] != tier[l]
    ensures queue[f - (j - i)] == queue[f]
  {
    var a, b, c := d * i, d * j, d * f;
    assert a <= b <= c && d * (f - (j - i)) == c - (b - a);
    assert tier[a % |tier|] == tier[b % |tier|];
    assert a % |tier| == b % |tier|;
    SameRest(a, b, c, |tier|);
  }

  lemma {:induction false} PlacedOnce(queue: seq<string>, k: nat, n: nat)
    requires k < |queue| && n <= |queue| && forall j :: 0 <= j < n && j != k ==> queue[j] != queue[k]
    ensures Places(queue, queue[k], n) == if k < n then 1 else 0
  {
    if n > 0 {
      PlacedOnce(queue, k, n - 1);
    }
  }

  /** So before its first place no other model has two. */
  lemma StridingIsLight(queue: seq<string>, tier: seq<string>, d: nat, x: string)
    requires Strides(queue, tier, d) && forall k, l :: 0 <= k < l < |tier| ==> tier[k] != tier[l]
    requires x in queue
    ensures Light(ROUND_ITERATIONS, queue, FirstPlace(queue, x, 0))
  {
    var f := FirstPlace(queue, x, 0);
    forall k | 0 <= k < f ensures Places(queue, queue[k], f) == 1 {
      forall j | 0 <= j < f && j != k ensures queue[j] != queue[k] {
        if queue[j] == queue[k] {
          var a, b := if j < k then j else k, if j < k then k else j;
          StridesRepeat(queue, tier, d, a, b, f);
        }
      }
      PlacedOnce(queue, k, f);
    }
  }

  ghost predicate OnePriority(slots: seq<Slot>) {
    var high, normal, low := Tier(slots, High), Tier(slots, Normal), Tier(slots, Low);
    (normal == [] && low == []) || (high == [] && low == []) || (high == [] && normal == [])
  }

  lemma OneTierStrides(high: seq<string>, normal: seq<string>, low: seq<string>, n: nat, p: Priority)
    requires if p.High? then high != [] && normal == [] && low == []
             else if p.Normal? then high == [] && normal != [] && low == []
             else p.Low? && high == [] && normal == [] && low != []
    ensures Strides(Rounds(high, normal, low, n), if p.High? then high else if p.Normal? then normal else low,
                    if p.High? then 1 else if p.Normal? then 2 else 3)
  {
    var tier := if p.High? then high else if p.Normal? then normal else low;
    var d := if p.High? then 1 else if p.Normal? then 2 else 3;
    var f := Steps(high, normal, low);
    forall i: nat ensures EveryStep(f, tier, d, i) {
    }
    BuildStrides(f, tier, d, n);
  }

  lemma OnePriorityIsLight(slots: seq<Slot>, x: string)
    requires Distinct(slots) && OnePriority(slots) && x in BuildQueue(true, slots)
    ensures Light(ROUND_ITERATIONS, BuildQueue(true, slots), FirstPlace(BuildQueue(true, slots), x, 0))
  {
    var high, normal, low := Tier(slots, High), Tier(slots, Normal), Tier(slots, Low);
    TiersOf(slots);
    QueueFromTiers(true, slots, x);
    var p := if high != [] then High else if normal != [] then Normal else Low;
    OneTierStrides(high, normal, low, BuildLength(|high|, |normal|, |low|), p);
    StridingIsLight(BuildQueue(true, slots), if p.High? then high else if p.Normal? then normal else low,
                    if p.High? then 1 else if p.Normal? then 2 else 3, x);
  }

  /** When all listed models have the same priority, every one that is queued is trained again and again. */
  lemma OnePriorityIsTrainedAgain(s: State, ups: nat -> seq<TopUp>, x: string, place: nat, after: nat) returns (n: nat)
    requires KeptStocked(s, ups) && InRound(s.slots) && OnePriority(s.slots) && x in BuildQueue(true, s.slots)
    requires place < |BuildQueue(true, s.slots)| && s.queue == Rotated(BuildQueue(true, s.slots), place)
    ensures n >= after && Chosen(s, ups, n) == Train(x)
  {
    OnePriorityIsLight(s.slots, x);
    n := LightIsTrainedAgain(s, ups, x, place, after);
  }
}
