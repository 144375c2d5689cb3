/**
  The rotation queue as a wheel: serve the current place and step on, but once a model has been served
  `round` times go back to the start. Which places are reached, and which never.
 */
module RotationWheel {
  import opened Basics
  import opened MapSums

  /** The place to be served next, and how often each model was served in its current round. */
  datatype Wheel = Wheel(place: nat, counts: map<string, nat>)

  function CountOf(w: Wheel, x: string): nat {
    if x in w.counts then w.counts[x] else 0
  }

  /** Serves the current place. */
  function Advance(round: nat, queue: seq<string>, w: Wheel): Wheel {
    if w.place >= |queue| then w
    else
      var x := queue[w.place];
      if CountOf(w, x) + 1 >= round then Wheel(0, w.counts[x := 0])
      else Wheel(if w.place + 1 == |queue| then 0 else w.place + 1, w.counts[x := CountOf(w, x) + 1])
  }

  function Turns(round: nat, queue: seq<string>): Wheel -> Wheel {
    (w: Wheel) => Advance(round, queue, w)
  }

  function Spun(round: nat, queue: seq<string>, w: Wheel, n: nat): Wheel {
    Iterate(Turns(round, queue), w, n)
  }

  /** No model has finished its round. */
  ghost predicate Running(round: nat, queue: seq<string>, w: Wheel) {
    w.place < |queue| && forall x :: CountOf(w, x) < round
  }

  lemma TurnRuns(round: nat, queue: seq<string>, w: Wheel)
    requires Running(round, queue, w)
    ensures Running(round, queue, Advance(round, queue, w))
  {
    var y := queue[w.place];
    assert CountOf(w, y) < round;
    forall x ensures CountOf(Advance(round, queue, w), x) < round {
      assert x != y ==> CountOf(Advance(round, queue, w), x) == CountOf(w, x);
    }
  }

  lemma {:induction false} SpinRuns(round: nat, queue: seq<string>, w: Wheel, n: nat)
    requires Running(round, queue, w)
    ensures Running(round, queue, Spun(round, queue, w, n))
  {
    if n > 0 {
      SpinRuns(round, queue, w, n - 1);
      TurnRuns(round, queue, Spun(round, queue, w, n - 1));
    }
  }

  /** What shows the wheel at the beginning and follows every turn shows it all along. */
  lemma {:induction false} SpinsAlong(round: nat, queue: seq<string>, w: Wheel, shows: (nat, Wheel) -> bool, n: nat)
    requires shows(0, w) && forall k: nat, v :: shows(k, v) ==> shows(k + 1, Advance(round, queue, v))
    ensures shows(n, Spun(round, queue, w, n))
  {
    if n > 0 {
      SpinsAlong(round, queue, w, shows, n - 1);
      assert shows(n - 1, Spun(round, queue, w, n - 1));
    }
  }

  lemma SpunOn(round: nat, queue: seq<string>, w: Wheel, n: nat)
    ensures Spun(round, queue, Advance(round, queue, w), n) == Spun(round, queue, w, n + 1)
  {
    IterateFromNext(Turns(round, queue), w, n);
    assert Turns(round, queue)(w) == Advance(round, queue, w);
  }

  lemma {:induction false} SpunTwice(round: nat, queue: seq<string>, w: Wheel, a: nat, b: nat)
    ensures Spun(round, queue, Spun(round, queue, w, a), b) == Spun(round, queue, w, a + b)
  {
    if b > 0 {
      SpunTwice(round, queue, w, a, b - 1);
    }
  }

  // ----- places that are never reached

  /** How many of the first `n` places belong to `x`. */
  function Places(queue: seq<string>, x: string, n: nat): nat
    requires n <= |queue|
  {
    if n == 0 then 0 else Places(queue, x, n - 1) + (if queue[n - 1] == x then 1 else 0)
  }

  /** Some model fills a whole round before place `f`. */
  ghost predicate Blocked(round: nat, queue: seq<string>, f: nat)
    requires f <= |queue|
  {
    exists x :: Places(queue, x, f) >= round
  }

  lemma {:induction false} PlacesGrow(queue: seq<string>, x: string, a: nat, b: nat)
    requires a <= b <= |queue|
    ensures Places(queue, x, a) <= Places(queue, x, b)
  {
    if a < b {
      PlacesGrow(queue, x, a, b - 1);
    }
  }

  /** Since the wheel last started over, `x` was served at every place it has passed. */
  ghost predicate PassedAreCounted(queue: seq<string>, x: string, w: Wheel) {
    w.place < |queue| && Places(queue, x, w.place) <= CountOf(w, x)
  }

  lemma TurnCounts(round: nat, queue: seq<string>, x: string, w: Wheel)
    requires Running(round, queue, w) && PassedAreCounted(queue, x, w)
    ensures PassedAreCounted(queue, x, Advance(round, queue, w))
  {
  }

  lemma {:induction false} SpinCounts(round: nat, queue: seq<string>, x: string, w: Wheel, n: nat)
    requires Running(round, queue, w) && PassedAreCounted(queue, x, w)
    ensures PassedAreCounted(queue, x, Spun(round, queue, w, n)) && Running(round, queue, Spun(round, queue, w, n))
  {
    if n > 0 {
      SpinCounts(round, queue, x, w, n - 1);
      TurnRuns(round, queue, Spun(round, queue, w, n - 1));
      TurnCounts(round, queue, x, Spun(round, queue, w, n - 1));
    }
  }

  /** From the start of the queue on, a blocked place is never reached, whatever the counts. */
  lemma BlockedIsNeverReached(round: nat, queue: seq<string>, w: Wheel, f: nat, n: nat)
    requires Running(round, queue, w) && w.place == 0 && f <= |queue| && Blocked(round, queue, f)
    ensures Spun(round, queue, w, n).place < f
  {
    var x :| Places(queue, x, f) >= round;
    SpinCounts(round, queue, x, w, n);
    var later := Spun(round, queue, w, n);
    if later.place >= f {
      PlacesGrow(queue, x, f, later.place);
    }
  }

  /** From any place the start comes up within one turn of the queue. */
  lemma {:induction false} StartComesUp(round: nat, queue: seq<string>, w: Wheel) returns (n: nat)
    requires Running(round, queue, w)
    ensures n <= |queue| - w.place && Spun(round, queue, w, n).place == 0
    decreases |queue| - w.place
  {
    var next := Advance(round, queue, w);
    if w.place == 0 {
      n := 0;
    } else if next.place == 0 {
      n := 1;
      assert Spun(round, queue, w, 0) == w;
    } else {
      TurnRuns(round, queue, w);
      n := StartComesUp(round, queue, next);
      SpunOn(round, queue, w, n);
      n := n + 1;
    }
  }

  /** So from any place a blocked one is reached in the current turn of the queue or not at all. */
  lemma BlockedIsSoonOver(round: nat, queue: seq<string>, w: Wheel, f: nat, n: nat)
    requires Running(round, queue, w) && f <= |queue| <= n && Blocked(round, queue, f)
    ensures Spun(round, queue, w, n).place < f
  {
    var k := StartComesUp(round, queue, w);
    SpinRuns(round, queue, w, k);
    BlockedIsNeverReached(round, queue, Spun(round, queue, w, k), f, n - k);
    SpunTwice(round, queue, w, k, n - k);
  }

  // ----- the first turn from the start

  /** From the start place `f` is reached without starting over exactly when no model finishes its round before. */
  ghost predicate Passes(round: nat, queue: seq<string>, w: Wheel, f: nat)
    requires f <= |queue|
  {
    forall x :: CountOf(w, x) + Places(queue, x, f) < round
  }

  lemma {:induction false} FirstTurn(round: nat, queue: seq<string>, w: Wheel, f: nat, n: nat)
    requires n <= f < |queue| && w.place == 0 && Passes(round, queue, w, f)
    ensures var v := Spun(round, queue, w, n);
            v.place == n && forall x :: CountOf(v, x) == CountOf(w, x) + Places(queue, x, n)
  {
    if n > 0 {
      FirstTurn(round, queue, w, f, n - 1);
      PlacesGrow(queue, queue[n - 1], n, f);
    }
  }

  lemma FreshPasses(round: nat, queue: seq<string>, w: Wheel, f: nat)
    requires f <= |queue| && (forall x :: CountOf(w, x) == 0) && !Blocked(round, queue, f)
    ensures Passes(round, queue, w, f)
  {
    forall x ensures CountOf(w, x) + Places(queue, x, f) < round {
      assert !(Places(queue, x, f) >= round);
    }
  }

  /** When all models are at the start of their rounds, a place is ever reached if and only if it is not blocked. */
  lemma FreshReachesIff(round: nat, queue: seq<string>, w: Wheel, f: nat)
    requires round > 0 && f < |queue| && w.place == 0 && forall x :: CountOf(w, x) == 0
    ensures (exists n: nat :: Spun(round, queue, w, n).place == f) <==> !Blocked(round, queue, f)
  {
    if Blocked(round, queue, f) {
      forall n: nat ensures Spun(round, queue, w, n).place != f {
        BlockedIsNeverReached(round, queue, w, f, n);
      }
    } else {
      FreshPasses(round, queue, w, f);
      FirstTurn(round, queue, w, f, f);
    }
  }

  // ----- places that are reached again and again

  type Weights = string -> real

  /** What the first `n` places weigh together. */
  function Load(queue: seq<string>, weigh: Weights, n: nat): real
    requires n <= |queue|
  {
    if n == 0 then 0.0 else Load(queue, weigh, n - 1) + weigh(queue[n - 1])
  }

  function Times(n: nat, x: real): real { n as real * x }

  /** Whoever can send the wheel back before place `f` weighs more in a round than all it went past. */
  ghost predicate Balanced(round: nat, queue: seq<string>, f: nat, weigh: Weights) {
    && f <= |queue| && (forall x :: weigh(x) >= 0.0)
    && forall k :: 0 <= k < f ==> Load(queue, weigh, k + 1) + 1.0 <= Times(round, weigh(queue[k]))
  }

  function Weighed(weigh: Weights, counts: map<string, nat>): map<string, real> {
    map x | x in counts :: Times(counts[x], weigh(x))
  }

  lemma {:induction false} LoadGrows(queue: seq<string>, weigh: Weights, a: nat, b: nat)
    requires a <= b <= |queue| && forall x :: weigh(x) >= 0.0
    ensures 0.0 <= Load(queue, weigh, a) <= Load(queue, weigh, b)
  {
    if a < b {
      LoadGrows(queue, weigh, a, b - 1);
    } else if a > 0 {
      LoadGrows(queue, weigh, a - 1, b - 1);
    }
  }

  /** The weight of all counts, and of the places still to come before `f`. */
  ghost function Potential(queue: seq<string>, f: nat, weigh: Weights, w: Wheel): real
    requires w.place <= f <= |queue|
  {
    Total(Weighed(weigh, w.counts)) + Load(queue, weigh, f) - Load(queue, weigh, w.place)
  }

  lemma {:induction false} TotalIsNotNegative(m: map<string, real>)
    requires forall x :: x in m ==> m[x] >= 0.0
    ensures Total(m) >= 0.0
    decreases |m|
  {
    if m != map[] {
      var k :| k in m && Total(m) == m[k] + Total(m - {k});
      TotalIsNotNegative(m - {k});
    }
  }

  lemma TimesIsNotNegative(n: nat, x: real)
    requires x >= 0.0
    ensures Times(n, x) >= 0.0
  {
  }

  lemma PotentialIsNotNegative(queue: seq<string>, f: nat, weigh: Weights, w: Wheel)
    requires w.place <= f <= |queue| && forall x :: weigh(x) >= 0.0
    ensures Potential(queue, f, weigh, w) >= 0.0
  {
    forall x | x in w.counts ensures Weighed(weigh, w.counts)[x] >= 0.0 {
      TimesIsNotNegative(w.counts[x], weigh(x));
    }
    TotalIsNotNegative(Weighed(weigh, w.counts));
    LoadGrows(queue, weigh, w.place, f);
  }

  lemma WeighedSet(weigh: Weights, w: Wheel, x: string, n: nat)
    ensures Total(Weighed(weigh, w.counts[x := n]))
            == Total(Weighed(weigh, w.counts)) - Times(CountOf(w, x), weigh(x)) + Times(n, weigh(x))
  {
    var m := Weighed(weigh, w.counts);
    assert Weighed(weigh, w.counts[x := n]) == m[x := Times(n, weigh(x))];
    TotalSet(m, x, Times(n, weigh(x)));
    if x !in w.counts {
      assert Times(0, weigh(x)) == 0.0;
    }
  }

  lemma OneMore(n: nat, x: real)
    ensures Times(n + 1, x) == Times(n, x) + x && Times(0, x) == 0.0
  {
  }

  /** A step on leaves the potential as it is, and starting over lowers it. */
  lemma TurnLowers(round: nat, queue: seq<string>, f: nat, weigh: Weights, w: Wheel)
    requires Balanced(round, queue, f, weigh) && Running(round, queue, w) && w.place < f < |queue|
    ensures var next := Advance(round, queue, w);
            && next.place <= f
            && if next.place == w.place + 1 then Potential(queue, f, weigh, next) == Potential(queue, f, weigh, w)
               else Potential(queue, f, weigh, next) + 1.0 <= Potential(queue, f, weigh, w)
  {
    var x := queue[w.place];
    var c := CountOf(w, x);
    OneMore(c, weigh(x));
    if c + 1 >= round {
      WeighedSet(weigh, w, x, 0);
      OneMore(0, weigh(x));
    } else {
      WeighedSet(weigh, w, x, c + 1);
    }
  }

  /** From any state a place that can be balanced is reached. */
  lemma {:induction false} BalancedIsReached(round: nat, queue: seq<string>, f: nat, weigh: Weights, w: Wheel)
    returns (n: nat)
    requires Balanced(round, queue, f, weigh) && Running(round, queue, w) && w.place <= f < |queue|
    ensures Spun(round, queue, w, n).place == f
    decreases Potential(queue, f, weigh, w), f - w.place
  {
    if w.place == f {
      n := 0;
    } else {
      var next := Advance(round, queue, w);
      TurnLowers(round, queue, f, weigh, w);
      TurnRuns(round, queue, w);
      PotentialIsNotNegative(queue, f, weigh, next);
      PotentialIsNotNegative(queue, f, weigh, w);
      n := BalancedIsReached(round, queue, f, weigh, next);
      SpunOn(round, queue, w, n);
      n := n + 1;
    }
  }

  /** And from then on again and again. */
  lemma BalancedIsReachedAgain(round: nat, queue: seq<string>, f: nat, weigh: Weights, w: Wheel, after: nat)
    returns (n: nat)
    requires Balanced(round, queue, f, weigh) && Running(round, queue, w) && f < |queue|
    ensures n >= after && Spun(round, queue, w, n).place == f
  {
    var a := Spun(round, queue, w, after);
    SpinRuns(round, queue, w, after);
    var k := StartComesUp(round, queue, a);
    SpinRuns(round, queue, a, k);
    var j := BalancedIsReached(round, queue, f, weigh, Spun(round, queue, a, k));
    SpunTwice(round, queue, a, k, j);
    SpunTwice(round, queue, w, after, k + j);
    n := after + k + j;
  }

  // ----- a condition that can be read off the queue

  /** From the place with number `round` on, whoever comes before place `f` comes only once before it. */
  ghost predicate Light(round: nat, queue: seq<string>, f: nat)
    requires f <= |queue|
  {
    forall k :: 0 <= k < f && round <= k + 1 ==> Places(queue, queue[k], f) == 1
  }

  /** Doubling weights: one for each of the first places, and for every later one as much as all before it. */
  function WeightAt(round: nat, k: nat): real {
    if k + 1 < round then 1.0 else WeightUpTo(round, k)
  }

  function WeightUpTo(round: nat, k: nat): real
    decreases k, 0
  {
    if k == 0 then 0.0
    else if k < round then WeightUpTo(round, k - 1) + 1.0
    else WeightUpTo(round, k - 1) + WeightUpTo(round, k - 1)
  }

  function FirstPlace(queue: seq<string>, x: string, n: nat): (k: nat)
    requires n <= |queue|
    ensures n <= k <= |queue| && (k < |queue| ==> queue[k] == x)
    ensures forall j :: n <= j < k ==> queue[j] != x
    decreases |queue| - n
  {
    if n == |queue| then n else if queue[n] == x then n else FirstPlace(queue, x, n + 1)
  }

  function LightWeights(round: nat, queue: seq<string>): Weights {
    x => WeightAt(round, FirstPlace(queue, x, 0))
  }

  lemma {:induction false} OnlyPlace(queue: seq<string>, j: nat, k: nat, f: nat)
    requires j < k < f <= |queue| && queue[j] == queue[k]
    ensures Places(queue, queue[k], f) >= 2
  {
    PlacesGrow(queue, queue[k], 0, j);
    PlacesGrow(queue, queue[k], j + 1, k);
    PlacesGrow(queue, queue[k], k + 1, f);
  }

  lemma {:induction false} WeightUpToGrows(round: nat, k: nat)
    ensures 0.0 <= WeightUpTo(round, k)
    ensures round >= 1 && k + 1 >= round ==> WeightUpTo(round, k) >= (round - 1) as real
    ensures k < round ==> WeightUpTo(round, k) == k as real
  {
    if k > 0 {
      WeightUpToGrows(round, k - 1);
    }
  }

  lemma LightWeightOf(round: nat, queue: seq<string>, k: nat, f: nat)
    requires k < f <= |queue| && Light(round, queue, f)
    ensures LightWeights(round, queue)(queue[k]) == WeightAt(round, k)
  {
    var j := FirstPlace(queue, queue[k], 0);
    if j < k && round <= k + 1 {
      OnlyPlace(queue, j, k, f);
    }
  }

  lemma {:induction false} LightLoad(round: nat, queue: seq<string>, n: nat, f: nat)
    requires n <= f <= |queue| && Light(round, queue, f)
    ensures Load(queue, LightWeights(round, queue), n) == WeightUpTo(round, n)
  {
    if n > 0 {
      LightLoad(round, queue, n - 1, f);
      LightWeightOf(round, queue, n - 1, f);
    }
  }

  lemma LightIsBalanced(round: nat, queue: seq<string>, f: nat)
    requires f <= |queue| && round >= 3 && Light(round, queue, f)
    ensures Balanced(round, queue, f, LightWeights(round, queue))
  {
    var weigh := LightWeights(round, queue);
    forall x ensures weigh(x) >= 0.0 {
      WeightUpToGrows(round, FirstPlace(queue, x, 0));
    }
    forall k | 0 <= k < f ensures Load(queue, weigh, k + 1) + 1.0 <= Times(round, weigh(queue[k])) {
      LightLoad(round, queue, k + 1, f);
      LightWeightOf(round, queue, k, f);
      WeightUpToGrows(round, k);
      WeightUpToGrows(round, k + 1);
      EnoughWeight(round, k);
    }
  }

  lemma AtLeastThree(n: nat, x: real)
    requires n >= 3 && x >= 0.0
    ensures Times(n, x) >= 3.0 * x
  {
    assert (n - 3) as real * x >= 0.0;
  }

  lemma EnoughWeight(round: nat, k: nat)
    requires round >= 3
    ensures WeightUpTo(round, k + 1) + 1.0 <= Times(round, WeightAt(round, k))
  {
    WeightUpToGrows(round, k);
    WeightUpToGrows(round, k + 1);
    AtLeastThree(round, WeightAt(round, k));
    if k + 1 < round {
      assert Times(round, 1.0) == round as real;
    }
  }

  // ----- why not being blocked is not enough in general

  function Three(place: nat, a: nat, b: nat, c: nat): Wheel {
    Wheel(place, map["a" := a, "b" := b, "c" := c])
  }

  /** Twelve turns that come back to where they began and leave out place five. */
  function Circle(i: nat): Wheel {
    match i
    case 0 => Three(0, 0, 0, 2)
    case 1 => Three(1, 1, 0, 2)
    case 2 => Three(0, 1, 0, 0)
    case 3 => Three(1, 2, 0, 0)
    case 4 => Three(2, 2, 0, 1)
    case 5 => Three(3, 2, 1, 1)
    case 6 => Three(0, 0, 1, 1)
    case 7 => Three(1, 1, 1, 1)
    case 8 => Three(2, 1, 1, 2)
    case 9 => Three(3, 1, 2, 2)
    case 10 => Three(4, 2, 2, 2)
    case _ => Three(0, 2, 0, 2)
  }

  const FEW := ["a", "c", "b", "a", "b", "d", "a", "b"]

  lemma CircleTurns(i: nat)
    requires i < 12
    ensures Advance(3, FEW, Circle(i)) == Circle(if i == 11 then 0 else i + 1)
  {
    assert Advance(3, FEW, Circle(i)).counts == Circle(if i == 11 then 0 else i + 1).counts;
  }

  lemma {:induction false} CircleSpins(n: nat) returns (i: nat)
    ensures i < 12 && Spun(3, FEW, Circle(0), n) == Circle(i)
  {
    i := 0;
    if n > 0 {
      var k := CircleSpins(n - 1);
      CircleTurns(k);
      i := if k == 11 then 0 else k + 1;
    }
  }

  /** With rounds of three a place can be missed for ever although no model fills a round before it. */
  lemma NotBlockedIsNotEnough(n: nat)
    ensures Running(3, FEW, Circle(0)) && Circle(0).place == 0 && !Blocked(3, FEW, 5)
    ensures FEW[5] == "d" && Spun(3, FEW, Circle(0), n).place != 5
  {
    forall x ensures Places(FEW, x, 5) < 3 {
      assert Places(FEW, x, 5) == Places(FEW, x, 4) + (if FEW[4] == x then 1 else 0);
      assert Places(FEW, x, 4) == Places(FEW, x, 3) + (if FEW[3] == x then 1 else 0);
      assert Places(FEW, x, 3) == Places(FEW, x, 2) + (if FEW[2] == x then 1 else 0);
      assert Places(FEW, x, 2) == Places(FEW, x, 1) + (if FEW[1] == x then 1 else 0);
    }
    var i := CircleSpins(n);
  }
}
