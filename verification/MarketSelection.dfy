/** What greedy packing achieves: it is optimal among all feasible packings, and it is canonical. */
module MarketSelection {
  import opened Basics
  import opened StableSort
  import opened FeeMarket

  function Models(tasks: seq<Task>): set<string> { set t | t in tasks :: t.modelId }

  predicate DistinctModels(tasks: seq<Task>) {
    forall i, j :: 0 <= i < j < |tasks| ==> tasks[i].modelId != tasks[j].modelId
  }

  /** A block anyone could have proposed: eligible tasks, one per model, no more than `room` of them. */
  predicate Feasible(cfg: Config, m: Market, block: int, room: int, tasks: seq<Task>) {
    && (forall t :: t in tasks ==> t in m.pending && CanRun(t, m.cooldowns, block))
    && DistinctModels(tasks)
    && |tasks| <= room
  }

  /** The effective tip of a task at a given height. */
  function TipAt(cfg: Config, block: int): Task -> real {
    (t: Task) => EffectiveTip(cfg, t, block)
  }

  ghost predicate OrderedBy(tip: Task -> real, tasks: seq<Task>) {
    forall i, j :: 0 <= i < j < |tasks| ==> tip(tasks[i]) >= tip(tasks[j])
  }

  function Total(tip: Task -> real, tasks: seq<Task>): real {
    if tasks == [] then 0.0 else tip(tasks[0]) + Total(tip, tasks[1..])
  }

  // ----- the packing loop

  lemma ModelsOfCons(t: Task, tasks: seq<Task>)
    ensures Models([t] + tasks) == {t.modelId} + Models(tasks)
  {
    assert forall u :: u in [t] + tasks <==> u == t || u in tasks;
  }

  lemma {:induction false} PackMembers(tasks: seq<Task>, seen: set<string>, room: int)
    ensures forall t :: t in Pack(tasks, seen, room) ==> t in tasks && t.modelId !in seen
    ensures |Pack(tasks, seen, room)| <= MaxInt(0, room)
  {
    if tasks != [] && room > 0 {
      if tasks[0].modelId in seen {
        PackMembers(tasks[1..], seen, room);
      } else {
        PackMembers(tasks[1..], seen + {tasks[0].modelId}, room - 1);
      }
    }
  }

  /** The loop picks distinct fresh models, all from the input, and never more than fit. */
  lemma {:induction false} PackFacts(tasks: seq<Task>, seen: set<string>, room: int)
    ensures DistinctModels(Pack(tasks, seen, room))
    ensures forall t :: t in Pack(tasks, seen, room) ==> t in tasks && t.modelId !in seen
    ensures |Pack(tasks, seen, room)| <= MaxInt(0, room)
  {
    PackMembers(tasks, seen, room);
    if tasks != [] && room > 0 {
      if tasks[0].modelId in seen {
        PackFacts(tasks[1..], seen, room);
      } else {
        PackFacts(tasks[1..], seen + {tasks[0].modelId}, room - 1);
        var r' := Pack(tasks[1..], seen + {tasks[0].modelId}, room - 1);
        assert forall i :: 0 <= i < |r'| ==> r'[i] in r';
      }
    }
  }

  /** It stops short of the limit only when no unseen model is left. */
  lemma {:induction false} PackCovers(tasks: seq<Task>, seen: set<string>, room: int)
    requires |Pack(tasks, seen, room)| < room
    ensures Models(tasks) <= seen + Models(Pack(tasks, seen, room))
  {
    if tasks != [] {
      var t, rest := tasks[0], tasks[1..];
      assert tasks == [t] + rest;
      ModelsOfCons(t, rest);
      if t.modelId in seen {
        PackCovers(rest, seen, room);
      } else {
        PackCovers(rest, seen + {t.modelId}, room - 1);
        ModelsOfCons(t, Pack(rest, seen + {t.modelId}, room - 1));
      }
    }
  }

  /** A task that out-tips the i-th pick had its model taken before that pick was made. */
  lemma {:induction false} PackIsGreedy(tip: Task -> real, tasks: seq<Task>, seen: set<string>, room: int, i: nat,
                                        t: Task)
    requires OrderedBy(tip, tasks) && t in tasks
    requires i < |Pack(tasks, seen, room)| && tip(t) > tip(Pack(tasks, seen, room)[i])
    ensures t.modelId in seen + Models(Pack(tasks, seen, room)[..i])
  {
    var head, rest := tasks[0], tasks[1..];
    var r := Pack(tasks, seen, room);
    var k :| 0 <= k < |tasks| && tasks[k] == t;
    if head.modelId in seen {
      if k > 0 {
        assert rest[k - 1] == t;
        PackIsGreedy(tip, rest, seen, room, i, t);
      }
    } else if i > 0 {
      var r' := Pack(rest, seen + {head.modelId}, room - 1);
      assert r[..i] == [head] + r'[..i - 1];
      ModelsOfCons(head, r'[..i - 1]);
      if k > 0 {
        assert rest[k - 1] == t;
        PackIsGreedy(tip, rest, seen + {head.modelId}, room - 1, i - 1, t);
      }
    }
  }

  /** The exchange argument: i + 1 distinct models that all out-tip pick i cannot fit in i earlier picks. */
  lemma PackDominates(tip: Task -> real, tasks: seq<Task>, room: int, rival: seq<Task>, i: nat)
    requires OrderedBy(tip, tasks) && OrderedBy(tip, rival) && DistinctModels(rival)
    requires i < |rival| <= room && forall t :: t in rival ==> t in tasks
    ensures i < |Pack(tasks, {}, room)| && tip(Pack(tasks, {}, room)[i]) >= tip(rival[i])
  {
    var r, best := Pack(tasks, {}, room), rival[..i + 1];
    PackFacts(tasks, {}, room);
    DistinctModelsCount(best);
    if |r| <= i {
      PackCovers(tasks, {}, room);
      DistinctModelsCount(r);
      forall id | id in Models(best) ensures id in Models(r) {
        var t :| t in best && t.modelId == id;
        assert t in rival;
      }
      SubsetCount(Models(best), Models(r));
    } else if tip(r[i]) < tip(rival[i]) {
      forall id | id in Models(best) ensures id in Models(r[..i]) {
        var k :| 0 <= k <= i && rival[k].modelId == id;
        assert k == i || tip(rival[k]) >= tip(rival[i]);
        PackIsGreedy(tip, tasks, {}, room, i, rival[k]);
      }
      DistinctModelsCount(r[..i]);
      SubsetCount(Models(best), Models(r[..i]));
    }
  }

  lemma {:induction false} DistinctModelsCount(tasks: seq<Task>)
    requires DistinctModels(tasks)
    ensures |Models(tasks)| == |tasks|
  {
    if tasks != [] {
      DistinctModelsCount(tasks[1..]);
      assert tasks == [tasks[0]] + tasks[1..];
      ModelsOfCons(tasks[0], tasks[1..]);
      assert tasks[0].modelId !in Models(tasks[1..]);
    }
  }

  lemma SubsetCount(a: set<string>, b: set<string>)
    requires a <= b
    ensures |a| <= |b|
  {
    assert b == a + (b - a);
  }

  // ----- the selection as a whole

  /** The selection is itself feasible, and as large as the distinct eligible models allow. */
  lemma SelectionIsFeasibleAndFull(cfg: Config, m: Market, block: int, tiebreak: string -> int, room: int)
    ensures var s := Selected(cfg, m, block, tiebreak, room);
            && Feasible(cfg, m, block, MaxInt(0, room), s)
            && |s| == MinInt(MaxInt(0, room), |Models(Eligible(m.pending, m.cooldowns, block))|)
  {
    var eligible := Eligible(m.pending, m.cooldowns, block);
    EligibleMembers(m.pending, m.cooldowns, block);
    SortSameMembers(eligible, SortKey(cfg, block, tiebreak));
    PackFacts(Sort(eligible, SortKey(cfg, block, tiebreak)), {}, room);
    PackCount(eligible, Sort(eligible, SortKey(cfg, block, tiebreak)), room);
  }

  lemma PackCount(tasks: seq<Task>, sorted: seq<Task>, room: int)
    requires forall t :: t in sorted <==> t in tasks
    ensures |Pack(sorted, {}, room)| == MinInt(MaxInt(0, room), |Models(tasks)|)
  {
    var r := Pack(sorted, {}, room);
    PackFacts(sorted, {}, room);
    DistinctModelsCount(r);
    assert Models(sorted) == Models(tasks);
    SubsetCount(Models(r), Models(sorted));
    if |r| < room {
      PackCovers(sorted, {}, room);
      SubsetCount(Models(sorted), Models(r));
    }
  }

  lemma SortedByTip(cfg: Config, block: int, tiebreak: string -> int, tasks: seq<Task>)
    ensures OrderedBy(TipAt(cfg, block), Sort(tasks, SortKey(cfg, block, tiebreak)))
  {
    var key := SortKey(cfg, block, tiebreak);
    SortIsSorted(tasks, key);
    var s := Sort(tasks, key);
    forall i, j | 0 <= i < j < |s| ensures TipAt(cfg, block)(s[i]) >= TipAt(cfg, block)(s[j]) {
      assert !Above(key(s[j]), key(s[i]));
    }
  }

  /** Rank by rank, no feasible block pays a larger effective tip than the greedy one. */
  lemma GreedyDominates(cfg: Config, m: Market, block: int, tiebreak: string -> int, room: int, rival: seq<Task>,
                        i: nat)
    requires Feasible(cfg, m, block, room, rival) && OrderedBy(TipAt(cfg, block), rival) && i < |rival|
    ensures var s := Selected(cfg, m, block, tiebreak, room);
            i < |s| && TipAt(cfg, block)(s[i]) >= TipAt(cfg, block)(rival[i])
  {
    var eligible := Eligible(m.pending, m.cooldowns, block);
    EligibleMembers(m.pending, m.cooldowns, block);
    SortSameMembers(eligible, SortKey(cfg, block, tiebreak));
    SortedByTip(cfg, block, tiebreak, eligible);
    PackDominates(TipAt(cfg, block), Sort(eligible, SortKey(cfg, block, tiebreak)), room, rival, i);
  }

  lemma {:induction false} TotalOfInsert(tip: Task -> real, t: Task, tasks: seq<Task>, key: Task -> Rank)
    ensures Total(tip, Insert(t, tasks, key)) == tip(t) + Total(tip, tasks)
  {
    if tasks == [] || !Above(key(tasks[0]), key(t)) {
      assert ([t] + tasks)[1..] == tasks;
    } else {
      TotalOfInsert(tip, t, tasks[1..], key);
      assert ([tasks[0]] + Insert(t, tasks[1..], key))[1..] == Insert(t, tasks[1..], key);
    }
  }

  lemma {:induction false} TotalOfSort(tip: Task -> real, tasks: seq<Task>, key: Task -> Rank)
    ensures Total(tip, Sort(tasks, key)) == Total(tip, tasks)
  {
    if tasks != [] {
      TotalOfSort(tip, tasks[1..], key);
      TotalOfInsert(tip, tasks[0], Sort(tasks[1..], key), key);
    }
  }

  lemma {:induction false} DominatedTotal(tip: Task -> real, a: seq<Task>, b: seq<Task>)
    requires |a| <= |b|
    requires forall i :: 0 <= i < |a| ==> tip(a[i]) <= tip(b[i])
    requires forall i :: 0 <= i < |b| ==> tip(b[i]) >= 0.0
    ensures Total(tip, a) <= Total(tip, b)
  {
    if b != [] {
      DominatedTotal(tip, if a == [] then [] else a[1..], b[1..]);
    }
  }

  /** With tips that are worth something, the greedy block collects the most effective tip possible. */
  lemma GreedyMaximisesTips(cfg: Config, m: Market, block: int, tiebreak: string -> int, room: int, rival: seq<Task>)
    requires Feasible(cfg, m, block, room, rival)
    requires forall t :: t in m.pending ==> TipAt(cfg, block)(t) >= 0.0
    ensures Total(TipAt(cfg, block), rival) <= Total(TipAt(cfg, block), Selected(cfg, m, block, tiebreak, room))
  {
    var tip, key := TipAt(cfg, block), SortKey(cfg, block, tiebreak);
    var ordered := Sort(rival, key);
    var s := Selected(cfg, m, block, tiebreak, room);
    SortedByTip(cfg, block, tiebreak, rival);
    SortPermutes(rival, key);
    SortSameMembers(rival, key);
    TotalOfSort(tip, rival, key);
    SortKeepsDistinct(rival, key);
    SelectionIsFeasibleAndFull(cfg, m, block, tiebreak, room);
    forall i | 0 <= i < |ordered| ensures i < |s| && tip(ordered[i]) <= tip(s[i]) {
      GreedyDominates(cfg, m, block, tiebreak, room, ordered, i);
    }
    if ordered != [] {
      GreedyDominates(cfg, m, block, tiebreak, room, ordered, |ordered| - 1);
    }
    DominatedTotal(tip, ordered, s);
  }

  lemma SortKeepsDistinct(tasks: seq<Task>, key: Task -> Rank)
    requires DistinctModels(tasks)
    ensures DistinctModels(Sort(tasks, key))
  {
    var r := Sort(tasks, key);
    SortPermutes(tasks, key);
    SortSameMembers(tasks, key);
    DistinctOnce(tasks);
    DistinctOnce(r);
    forall i, j | 0 <= i < j < |r| ensures r[i].modelId != r[j].modelId {
      assert r[i] in tasks && r[j] in tasks;
    }
  }

  // ----- independence of the arrival order

  lemma {:induction false} EligibleMultiset(tasks: seq<Task>, cooldowns: map<string, int>, block: int, t: Task)
    ensures multiset(Eligible(tasks, cooldowns, block))[t]
            == if CanRun(t, cooldowns, block) then multiset(tasks)[t] else 0
  {
    if tasks != [] {
      EligibleMultiset(tasks[1..], cooldowns, block, t);
      assert tasks == [tasks[0]] + tasks[1..];
    }
  }

  /** The selection depends on which tasks wait, not on the order they were posted in. */
  lemma SelectionIsCanonical(cfg: Config, m: Market, n: Market, block: int, tiebreak: string -> int, room: int)
    requires multiset(m.pending) == multiset(n.pending) && m.cooldowns == n.cooldowns
    requires forall t, u :: t in m.pending && u in m.pending && tiebreak(t.taskId) == tiebreak(u.taskId) ==> t == u
    ensures Selected(cfg, m, block, tiebreak, room) == Selected(cfg, n, block, tiebreak, room)
  {
    var a := Eligible(m.pending, m.cooldowns, block);
    var b := Eligible(n.pending, n.cooldowns, block);
    forall t ensures multiset(a)[t] == multiset(b)[t] {
      EligibleMultiset(m.pending, m.cooldowns, block, t);
      EligibleMultiset(n.pending, n.cooldowns, block, t);
    }
    EligibleMembers(m.pending, m.cooldowns, block);
    SortIsCanonical(a, b, SortKey(cfg, block, tiebreak));
  }

  // ----- exactly which tasks are selected

  /** How many elements of a set with `h` are outside `seen`. */
  lemma NewWith<T>(h: T, rest: set<T>, seen: set<T>)
    ensures h in seen ==> ({h} + rest) - seen == rest - seen
    ensures h !in seen ==> |({h} + rest) - seen| == 1 + |rest - (seen + {h})|
  {
    if h in seen {
      assert ({h} + rest) - seen == rest - seen;
    } else {
      assert ({h} + rest) - seen == {h} + (rest - (seen + {h}));
    }
  }

  predicate Reached(before: seq<Task>, t: Task, seen: set<string>, room: int) {
    t.modelId !in seen + Models(before) && |Models(before) - seen| < room
  }

  lemma ReachedLater(head: Task, rest: seq<Task>, t: Task, seen: set<string>, room: int)
    ensures head.modelId in seen ==> (Reached([head] + rest, t, seen, room) <==> Reached(rest, t, seen, room))
    ensures head.modelId !in seen ==>
              (Reached([head] + rest, t, seen, room) <==> Reached(rest, t, seen + {head.modelId}, room - 1))
  {
    ModelsOfCons(head, rest);
    NewWith(head.modelId, Models(rest), seen);
  }

  lemma NothingLeft(before: seq<Task>, t: Task, seen: set<string>, room: int)
    requires room <= 0
    ensures !Reached(before, t, seen, room)
  {
  }

  lemma PackStep(head: Task, rest: seq<Task>, seen: set<string>, room: int)
    requires room > 0
    ensures Pack([head] + rest, seen, room)
            == if head.modelId in seen then Pack(rest, seen, room)
               else [head] + Pack(rest, seen + {head.modelId}, room - 1)
  {
    assert ([head] + rest)[1..] == rest;
  }

  /** Packing takes a task exactly when its model is new and fewer than `room` other new models come before it. */
  lemma {:induction false} PackReaches(before: seq<Task>, t: Task, tail: seq<Task>, seen: set<string>, room: int)
    requires t !in before && tail != [] && tail[0] == t
    ensures t in Pack(before + tail, seen, room) <==> Reached(before, t, seen, room)
    decreases before
  {
    if room <= 0 {
      NothingLeft(before, t, seen, room);
    } else if before == [] {
      assert before + tail == tail;
      HeadIsTaken(t, tail, seen, room);
    } else {
      ConcatFirst(before, tail);
      PackStep(before[0], before[1..] + tail, seen, room);
      ReachedLater(before[0], before[1..], t, seen, room);
      if before[0].modelId in seen {
        PackReaches(before[1..], t, tail, seen, room);
      } else {
        PackReaches(before[1..], t, tail, seen + {before[0].modelId}, room - 1);
      }
    }
  }

  lemma HeadIsTaken(t: Task, tail: seq<Task>, seen: set<string>, room: int)
    requires tail != [] && tail[0] == t && room > 0
    ensures t in Pack(tail, seen, room) <==> Reached([], t, seen, room)
  {
    PackMembers(tail[1..], seen, room);
    assert Models([]) == {} && {} - seen == {};
  }

  lemma ConcatFirst<T>(a: seq<T>, b: seq<T>)
    requires a != []
    ensures a == [a[0]] + a[1..] && a + b == [a[0]] + (a[1..] + b)
  {
  }

  /** The eligible tasks that come before `t` in the sorted list. */
  ghost function Outranking(cfg: Config, m: Market, block: int, tiebreak: string -> int, t: Task): set<Task> {
    var eligible := Eligible(m.pending, m.cooldowns, block);
    set u | u in eligible && u != t && Ahead(eligible, SortKey(cfg, block, tiebreak), u, t)
  }

  ghost function ModelsOf(tasks: set<Task>): set<string> { set t | t in tasks :: t.modelId }

  lemma {:induction false} EligibleKeepsUnique(tasks: seq<Task>, cooldowns: map<string, int>, block: int)
    requires UniqueIds(tasks)
    ensures UniqueIds(Eligible(tasks, cooldowns, block))
  {
    if tasks != [] {
      var rest := Eligible(tasks[1..], cooldowns, block);
      EligibleKeepsUnique(tasks[1..], cooldowns, block);
      EligibleMembers(tasks[1..], cooldowns, block);
      forall i | 0 <= i < |rest| ensures rest[i].taskId != tasks[0].taskId {
        assert rest[i] in tasks[1..];
      }
    }
  }

  lemma SortKeepsUnique(tasks: seq<Task>, key: Task -> Rank)
    requires UniqueIds(tasks)
    ensures |Sort(tasks, key)| == |tasks|
    ensures forall i, j :: 0 <= i < j < |tasks| ==> Sort(tasks, key)[i] != Sort(tasks, key)[j]
  {
    SortPermutes(tasks, key);
    DistinctOnce(tasks);
    DistinctOnce(Sort(tasks, key));
  }

  lemma {:induction false} AheadIsStrict(tasks: seq<Task>, key: Task -> Rank, t: Task, u: Task)
    requires UniqueIds(tasks) && Ahead(tasks, key, t, u)
    ensures !Ahead(tasks, key, u, t)
  {
  }

  /** In the sorted list, what comes before a task is what outranks it. */
  lemma BeforeIsOutranking(tasks: seq<Task>, key: Task -> Rank, k: nat, u: Task)
    requires UniqueIds(tasks) && k < |tasks| && |Sort(tasks, key)| == |tasks|
    ensures u in Sort(tasks, key)[..k]
            <==> u in tasks && u != Sort(tasks, key)[k] && Ahead(tasks, key, u, Sort(tasks, key)[k])
  {
    var r := Sort(tasks, key);
    SortIsStable(tasks, key);
    SortSameMembers(tasks, key);
    SortKeepsUnique(tasks, key);
    if u in tasks && u != r[k] {
      var i :| 0 <= i < |r| && r[i] == u;
      if i < k {
        assert u == r[..k][i];
      } else {
        AheadIsStrict(tasks, key, r[k], u);
        assert u !in r[..k];
      }
    }
  }

  /**
    A task is selected exactly when it is eligible, no task that outranks it has its model, and fewer than
    `room` models have a task that does.
   */
  lemma SelectedIff(cfg: Config, m: Market, block: int, tiebreak: string -> int, room: int, t: Task)
    requires UniqueIds(m.pending)
    ensures t in Selected(cfg, m, block, tiebreak, room)
            <==> && t in m.pending && CanRun(t, m.cooldowns, block)
                 && t.modelId !in ModelsOf(Outranking(cfg, m, block, tiebreak, t))
                 && |ModelsOf(Outranking(cfg, m, block, tiebreak, t))| < room
  {
    var eligible, key := Eligible(m.pending, m.cooldowns, block), SortKey(cfg, block, tiebreak);
    EligibleMembers(m.pending, m.cooldowns, block);
    EligibleKeepsUnique(m.pending, m.cooldowns, block);
    SortSameMembers(eligible, key);
    PackMembers(Sort(eligible, key), {}, room);
    if t in eligible {
      SelectedAmong(eligible, key, t, room, Outranking(cfg, m, block, tiebreak, t));
    }
  }

  lemma SelectedAmong(eligible: seq<Task>, key: Task -> Rank, t: Task, room: int, outranking: set<Task>)
    requires UniqueIds(eligible) && t in eligible
    requires forall u :: u in outranking <==> u in eligible && u != t && Ahead(eligible, key, u, t)
    ensures t in Pack(Sort(eligible, key), {}, room)
            <==> t.modelId !in ModelsOf(outranking) && |ModelsOf(outranking)| < room
  {
    var r := Sort(eligible, key);
    SortSameMembers(eligible, key);
    SortKeepsUnique(eligible, key);
    var k :| 0 <= k < |r| && r[k] == t;
    forall u ensures u in r[..k] <==> u in outranking {
      BeforeIsOutranking(eligible, key, k, u);
    }
    ReachedFromStart(r, k, room, outranking);
  }

  lemma ReachedFromStart(r: seq<Task>, k: nat, room: int, outranking: set<Task>)
    requires k < |r| && r[k] !in outranking && forall u :: u in r[..k] <==> u in outranking
    ensures r[k] in Pack(r, {}, room) <==> r[k].modelId !in ModelsOf(outranking) && |ModelsOf(outranking)| < room
  {
    SameModels(r[..k], outranking);
    SplitAt(r, k);
    PackReaches(r[..k], r[k], r[k..], {}, room);
  }

  lemma SameModels(tasks: seq<Task>, same: set<Task>)
    requires forall u :: u in tasks <==> u in same
    ensures Models(tasks) == ModelsOf(same) && Models(tasks) - {} == Models(tasks)
            && {} + Models(tasks) == Models(tasks)
  {
  }

  lemma SplitAt<T>(s: seq<T>, k: nat)
    requires k < |s|
    ensures s == s[..k] + s[k..] && s[k..] != [] && s[k..][0] == s[k]
  {
  }

  // ----- urgency is capped

  /** A task that as many eligible tasks of distinct models out-tip as there are slots is not selected. */
  lemma OutTippedIsSkipped(cfg: Config, m: Market, block: int, tiebreak: string -> int, room: nat, poor: Task,
                           rivals: seq<Task>)
    requires Feasible(cfg, m, block, room, rivals) && |rivals| == room
    requires forall u :: u in rivals ==> TipAt(cfg, block)(u) > TipAt(cfg, block)(poor)
    ensures poor !in Selected(cfg, m, block, tiebreak, room)
  {
    var key := SortKey(cfg, block, tiebreak);
    var ordered, s := Sort(rivals, key), Selected(cfg, m, block, tiebreak, room);
    SortedByTip(cfg, block, tiebreak, rivals);
    SortPermutes(rivals, key);
    SortSameMembers(rivals, key);
    SortKeepsDistinct(rivals, key);
    SelectionIsFeasibleAndFull(cfg, m, block, tiebreak, room);
    forall i | 0 <= i < |s| ensures s[i] != poor {
      GreedyDominates(cfg, m, block, tiebreak, room, ordered, i);
      assert ordered[i] in rivals;
    }
  }

  /**
    The urgency cap limits what waiting does: a task whose tip stays below those of enough rivals even at
    the cap is passed over at every height at which they wait, however long it has waited.
   */
  lemma CappedUrgencyCanStarve(cfg: Config, m: Market, block: int, tiebreak: string -> int, room: nat,
                               poor: Task, rivals: seq<Task>)
    requires cfg.urgencyCap >= 1.0 && cfg.urgencyRate >= 0.0 && poor.tip >= 0.0
    requires Feasible(cfg, m, block, room, rivals) && |rivals| == room
    requires forall u :: u in rivals ==> poor.tip * cfg.urgencyCap < u.tip
    ensures poor !in Selected(cfg, m, block, tiebreak, room)
  {
    CappedTip(cfg, poor, block);
    forall u | u in rivals ensures TipAt(cfg, block)(u) > TipAt(cfg, block)(poor) {
      NonNegative(poor.tip, cfg.urgencyCap);
      CappedTip(cfg, u, block);
    }
    OutTippedIsSkipped(cfg, m, block, tiebreak, room, poor, rivals);
  }

  lemma NonNegative(a: real, b: real)
    requires a >= 0.0 && b >= 0.0
    ensures a * b >= 0.0
  {
  }

  lemma CappedTip(cfg: Config, t: Task, block: int)
    requires cfg.urgencyCap >= 1.0 && cfg.urgencyRate >= 0.0 && t.tip >= 0.0
    ensures t.tip <= TipAt(cfg, block)(t) <= t.tip * cfg.urgencyCap
  {
    var u := Urgency(cfg, t, block);
    assert MaxInt(0, block - t.submittedBlock) as real * cfg.urgencyRate >= 0.0;
    assert 1.0 <= u <= cfg.urgencyCap;
  }

  /** A waiting task reaches the cap after finitely many blocks. */
  lemma UrgencyReachesCap(cfg: Config, t: Task) returns (block: int)
    requires cfg.urgencyCap >= 1.0 && cfg.urgencyRate > 0.0
    ensures block >= t.submittedBlock && Urgency(cfg, t, block) == cfg.urgencyCap
  {
    var enough := (cfg.urgencyCap - 1.0) / cfg.urgencyRate;
    var waiting := enough.Floor + 1;
    block := t.submittedBlock + waiting;
    assert enough * cfg.urgencyRate == cfg.urgencyCap - 1.0;
    AtLeastAsMuch(waiting as real, enough, cfg.urgencyRate);
  }

  lemma AtLeastAsMuch(a: real, b: real, x: real)
    requires a >= b && x >= 0.0
    ensures a * x >= b * x
  {
    assert (a - b) * x >= 0.0;
  }

  /** Waiting makes a task out-tip newcomers of a given tip exactly when its capped tip does. */
  lemma OvertakesNewcomersIff(cfg: Config, t: Task, newcomersTip: real)
    requires cfg.urgencyCap >= 1.0 && cfg.urgencyRate > 0.0 && t.tip >= 0.0
    ensures (exists block: int :: block >= t.submittedBlock && TipAt(cfg, block)(t) > newcomersTip)
            <==> t.tip * cfg.urgencyCap > newcomersTip
  {
    if t.tip * cfg.urgencyCap > newcomersTip {
      var block := UrgencyReachesCap(cfg, t);
      assert TipAt(cfg, block)(t) == t.tip * cfg.urgencyCap;
    }
    forall block: int | TipAt(cfg, block)(t) > newcomersTip ensures t.tip * cfg.urgencyCap > newcomersTip {
      CappedTip(cfg, t, block);
    }
  }

  /** A task that out-tips every other eligible one gets the first slot. */
  lemma HighestTipIsSelected(cfg: Config, m: Market, block: int, tiebreak: string -> int, room: int, t: Task)
    requires t in m.pending && CanRun(t, m.cooldowns, block) && room >= 1
    requires forall u :: u in Eligible(m.pending, m.cooldowns, block) && u != t ==>
               TipAt(cfg, block)(u) < TipAt(cfg, block)(t)
    ensures t in Selected(cfg, m, block, tiebreak, room)
  {
    var eligible := Eligible(m.pending, m.cooldowns, block);
    var sorted := Sort(eligible, SortKey(cfg, block, tiebreak));
    EligibleMembers(m.pending, m.cooldowns, block);
    SortSameMembers(eligible, SortKey(cfg, block, tiebreak));
    SortedByTip(cfg, block, tiebreak, eligible);
    assert t in sorted;
    var j :| 0 <= j < |sorted| && sorted[j] == t;
    assert sorted[0] in eligible;
    assert sorted[0] == t;
  }
}
