/**
  The run that starves a task which is not protected, and with it the exact condition for being served.

  Up to the deadline every block is filled by newly submitted rivals; at the deadline one rival for the
  task's own model takes a slot, and the model rests until the task has expired.
 */
module MarketSiege {
  import opened Basics
  import opened StableSort
  import opened FeeMarket
  import opened MarketSelection
  import opened MarketRuns
  import opened MarketStarvation

  /** Whom to starve and with what: fees, names longer than `base`, and the height of the last strike. */
  datatype Plan = Plan(t: Task, p: real, room: nat, fee: real, base: nat, strike: int)

  function Name(n: nat): (s: string)
    ensures |s| == n
  {
    seq(n, _ => 'r')
  }

  /** A rival with a name of `n` letters: submitted at height `h`, gone after it, and worth `p`. */
  function Rival(a: Plan, n: nat, h: int): Task {
    Task(Name(n), Name(n), "", a.fee + a.p, a.fee, a.p, h, h + 1)
  }

  /** The rival for the task's own model. */
  function Spoiler(a: Plan): Task {
    Task(Name(a.base), a.t.modelId, "", a.fee + a.p, a.fee, a.p, a.strike, a.strike + 1)
  }

  /** At equal tips the spoiler comes first, then the other rivals. */
  function Ties(a: Plan): string -> int {
    id => if |id| < a.base then 0 else if |id| == a.base then 2 else 1
  }

  function Quiet(a: Plan, h: int): seq<Event>
    decreases a.t.expiryBlock - h
  {
    if h >= a.t.expiryBlock then [] else [BlockEvent(h, Ties(a), a.room)] + Quiet(a, h + 1)
  }

  function StrikeBlocks(a: Plan): seq<Event> {
    [BlockEvent(a.strike, Ties(a), a.room)] + Quiet(a, a.strike + 1)
  }

  function Strike(a: Plan): seq<Event> {
    [SubmitEvent(Spoiler(a), a.strike)] + StrikeBlocks(a)
  }

  /** From height `h` on, as many new rivals as there is room come before every block; `left` are to come at `h`. */
  function Siege(a: Plan, h: int, left: nat, n: nat): seq<Event>
    decreases a.strike - h, left
  {
    if h >= a.strike then Strike(a)
    else if left > 0 then [SubmitEvent(Rival(a, n, h), h)] + Siege(a, h, left - 1, n + 1)
    else [BlockEvent(h, Ties(a), a.room)] + Siege(a, h + 1, a.room, n)
  }

  function Range(first: int, end: int): seq<int>
    decreases end - first
  {
    if first >= end then [] else [first] + Range(first + 1, end)
  }

  /** The heights of the blocks of a run. */
  function Heights(es: seq<Event>): seq<int> {
    if es == [] then [] else (if es[0].BlockEvent? then [es[0].height] else []) + Heights(es[1..])
  }

  // ----- the siege keeps to the rules of a contest

  /** The fee, the tip and the names a siege needs. */
  ghost predicate WellLaid(cfg: Config, a: Plan) {
    && cfg.urgencyCap >= 1.0 && cfg.urgencyRate >= 0.0 && a.t.tip >= 0.0 && a.room >= 1
    && cfg.minTip <= a.p && cfg.minBaseFee <= a.fee && cfg.maxBaseFee <= a.fee
    && |a.t.taskId| < a.base && |a.t.modelId| < a.base
    && 0 <= a.strike < a.t.expiryBlock && a.strike + CooldownLength(cfg) >= a.t.expiryBlock
    && TipAt(cfg, a.strike)(a.t) <= a.p
  }

  lemma FreshIsWorth(cfg: Config, u: Task, block: int)
    requires cfg.urgencyCap >= 1.0 && block <= u.submittedBlock
    ensures TipAt(cfg, block)(u) == u.tip
  {
    assert Urgency(cfg, u, block) == 1.0;
  }

  lemma RivalCompetes(cfg: Config, a: Plan, u: Task)
    requires cfg.urgencyCap >= 1.0 && |u.taskId| > |a.t.taskId|
    requires u.tip == a.p && u.expiryBlock == u.submittedBlock + 1
    ensures Competes(cfg, a.p, a.t, u)
  {
    forall h | h < a.t.expiryBlock && h < u.expiryBlock ensures TipAt(cfg, h)(u) <= a.p {
      FreshIsWorth(cfg, u, h);
    }
  }

  ghost predicate AllAdmissible(cfg: Config, a: Plan, es: seq<Event>) {
    forall e :: e in es ==> Admissible(cfg, a.p, a.room, a.t, e)
  }

  lemma OneMoreAdmissible(cfg: Config, a: Plan, e: Event, es: seq<Event>)
    requires AllAdmissible(cfg, a, es) && Admissible(cfg, a.p, a.room, a.t, e)
    ensures AllAdmissible(cfg, a, [e] + es)
    ensures Heights([e] + es) == (if e.BlockEvent? then [e.height] else []) + Heights(es)
  {
    assert ([e] + es)[1..] == es;
  }

  lemma {:induction false} QuietIsAdmissible(cfg: Config, a: Plan, h: int)
    ensures AllAdmissible(cfg, a, Quiet(a, h)) && Heights(Quiet(a, h)) == Range(h, a.t.expiryBlock)
    ensures h < a.t.expiryBlock ==> GetsLastBlock(a.t, Quiet(a, h))
    decreases a.t.expiryBlock - h
  {
    if h < a.t.expiryBlock {
      QuietIsAdmissible(cfg, a, h + 1);
      OneMoreAdmissible(cfg, a, BlockEvent(h, Ties(a), a.room), Quiet(a, h + 1));
    }
  }

  lemma StrikeIsAdmissible(cfg: Config, a: Plan)
    requires WellLaid(cfg, a)
    ensures AllAdmissible(cfg, a, Strike(a)) && Heights(Strike(a)) == Range(a.strike, a.t.expiryBlock)
    ensures GetsLastBlock(a.t, Strike(a))
  {
    QuietIsAdmissible(cfg, a, a.strike + 1);
    RivalCompetes(cfg, a, Spoiler(a));
    OneMoreAdmissible(cfg, a, BlockEvent(a.strike, Ties(a), a.room), Quiet(a, a.strike + 1));
    OneMoreAdmissible(cfg, a, SubmitEvent(Spoiler(a), a.strike), StrikeBlocks(a));
    assert StrikeBlocks(a)[1..] == Quiet(a, a.strike + 1) && Strike(a)[1..] == StrikeBlocks(a);
  }

  lemma {:induction false} SiegeIsAdmissible(cfg: Config, a: Plan, h: int, left: nat, n: nat)
    requires WellLaid(cfg, a) && n > a.base && h <= a.strike
    ensures AllAdmissible(cfg, a, Siege(a, h, left, n)) && Heights(Siege(a, h, left, n)) == Range(h, a.t.expiryBlock)
    ensures GetsLastBlock(a.t, Siege(a, h, left, n))
    decreases a.strike - h, left
  {
    if h >= a.strike {
      StrikeIsAdmissible(cfg, a);
    } else if left > 0 {
      SiegeIsAdmissible(cfg, a, h, left - 1, n + 1);
      RivalCompetes(cfg, a, Rival(a, n, h));
      OneMoreAdmissible(cfg, a, SubmitEvent(Rival(a, n, h), h), Siege(a, h, left - 1, n + 1));
    } else {
      SiegeIsAdmissible(cfg, a, h + 1, a.room, n);
      OneMoreAdmissible(cfg, a, BlockEvent(h, Ties(a), a.room), Siege(a, h + 1, a.room, n));
    }
  }

  // ----- the state of the market during the siege

  /** All names in the market are shorter than `n`. */
  ghost predicate NamesBelow(n: nat, m: Market) {
    && (forall u :: u in m.pending ==> |u.taskId| < n && |u.modelId| < n)
    && (forall id :: id in m.cooldowns ==> |id| < n)
  }

  /** Whoever has a long name is a rival with a model of its own, and none has the name of the spoiler. */
  ghost predicate Apart(base: nat, tasks: seq<Task>) {
    forall u :: u in tasks ==> |u.taskId| != base && (|u.taskId| > base ==> |u.modelId| > base)
  }

  /** The market under siege: `t` waits, the strike is still possible, fees are covered, `n` letters make a new name. */
  ghost predicate Besieged(cfg: Config, a: Plan, n: nat, m: Market) {
    && Waiting(cfg, a.p, a.t, m) && UniqueIds(m.pending) && m.baseFee <= a.fee
    && RestOf(m, a.t.modelId) <= a.strike
    && n > a.base && NamesBelow(n, m) && Apart(a.base, m.pending)
  }

  /** The rivals of height `h` from `first` up to `n` wait, and their models are rested. */
  ghost predicate Lined(a: Plan, h: int, first: nat, n: nat, m: Market) {
    forall k :: first <= k < n ==> Rival(a, k, h) in m.pending && Rival(a, k, h).modelId !in m.cooldowns
  }

  lemma SubmitKeepsUnique(tasks: seq<Task>, u: Task)
    requires UniqueIds(tasks) && u.taskId !in TaskIds(tasks)
    ensures UniqueIds(tasks + [u])
  {
    forall i, k | 0 <= i < k < |tasks| + 1 ensures (tasks + [u])[i].taskId != (tasks + [u])[k].taskId {
      assert tasks[i] in tasks;
    }
  }

  lemma RivalJoins(cfg: Config, a: Plan, h: int, first: nat, n: nat, m: Market, later: Market)
    requires WellLaid(cfg, a) && Besieged(cfg, a, n, m) && Lined(a, h, first, n, m)
    requires h >= 0 && later == Submit(cfg, m, Rival(a, n, h), h)
    ensures Besieged(cfg, a, n + 1, later) && Lined(a, h, first, n + 1, later)
  {
    var u := Rival(a, n, h);
    assert u.taskId !in TaskIds(m.pending) && u.modelId !in m.cooldowns;
    SubmitKeepsUnique(m.pending, u);
    RivalCompetes(cfg, a, u);
    assert later == m.(pending := m.pending + [u]);
  }

  // ----- a block full of rivals

  lemma RivalOutranks(cfg: Config, a: Plan, n: nat, h: int, m: Market, v: Task)
    requires cfg.urgencyCap >= 1.0 && 0 <= h && n > a.base > |v.taskId| && TipAt(cfg, h)(v) <= a.p
    requires Rival(a, n, h) in m.pending && Rival(a, n, h).modelId !in m.cooldowns
    ensures Rival(a, n, h) in Outranking(cfg, m, h, Ties(a), v)
  {
    var u, key := Rival(a, n, h), SortKey(cfg, h, Ties(a));
    EligibleMembers(m.pending, m.cooldowns, h);
    FreshIsWorth(cfg, u, h);
    assert Above(key(u), key(v));
  }

  function Rivals(a: Plan, h: int, first: nat, room: nat): (rivals: seq<Task>)
    ensures |rivals| == room && forall i :: 0 <= i < room ==> rivals[i] == Rival(a, first + i, h)
  {
    seq(room, i requires 0 <= i < room => Rival(a, first + i, h))
  }

  lemma RivalsAreManyModels(a: Plan, h: int, first: nat, room: nat)
    ensures |Models(Rivals(a, h, first, room))| == room
  {
    var rivals := Rivals(a, h, first, room);
    forall i, k | 0 <= i < k < room ensures rivals[i].modelId != rivals[k].modelId {
      assert |rivals[i].modelId| != |rivals[k].modelId|;
    }
    DistinctModelsCount(rivals);
  }

  lemma ModelsAmong(tasks: seq<Task>, among: set<Task>)
    requires forall u :: u in tasks ==> u in among
    ensures |Models(tasks)| <= |ModelsOf(among)|
  {
    SubsetCount(Models(tasks), ModelsOf(among));
  }

  /** A block with as many rivals waiting as it has room takes nobody else. */
  lemma FullHouse(cfg: Config, a: Plan, h: int, first: nat, m: Market, v: Task)
    requires cfg.urgencyCap >= 1.0 && 0 <= h && first > a.base > |v.taskId| && TipAt(cfg, h)(v) <= a.p
    requires UniqueIds(m.pending) && Lined(a, h, first, first + a.room, m)
    ensures v !in Selected(cfg, m, h, Ties(a), a.room)
  {
    var rivals, ahead := Rivals(a, h, first, a.room), Outranking(cfg, m, h, Ties(a), v);
    forall u | u in rivals ensures u in ahead {
      var i :| 0 <= i < a.room && rivals[i] == u;
      RivalOutranks(cfg, a, first + i, h, m, v);
    }
    RivalsAreManyModels(a, h, first, a.room);
    ModelsAmong(rivals, ahead);
    SelectedIff(cfg, m, h, Ties(a), a.room, v);
  }

  /** The slots of a block name pending tasks that the block could run. */
  lemma SlotIsSelected(cfg: Config, m: Market, e: Event, slot: Slot) returns (u: Task)
    requires e.BlockEvent? && slot in SlotsIn(cfg, m, e)
    ensures u in Selected(cfg, m, e.height, e.tiebreak, e.room) && slot == SlotOf(u)
    ensures u in m.pending && CanRun(u, m.cooldowns, e.height)
  {
    SelectionIsFeasibleAndFull(cfg, m, e.height, e.tiebreak, e.room);
    var s := Selected(cfg, m, e.height, e.tiebreak, e.room);
    var i :| 0 <= i < |s| && slot == SlotOf(s[i]);
    assert s[i] in s;
    u := s[i];
  }

  /** So the models of its slots have long names. */
  lemma OnlyRivals(cfg: Config, a: Plan, h: int, n: nat, m: Market, e: Event, slots: seq<Slot>)
    requires WellLaid(cfg, a) && Besieged(cfg, a, n, m) && 0 <= h < a.strike && n > a.base + a.room
    requires Lined(a, h, n - a.room, n, m) && e == BlockEvent(h, Ties(a), a.room) && slots == SlotsIn(cfg, m, e)
    ensures forall slot :: slot in slots ==> |slot.taskId| > a.base && a.base < |slot.modelId| < n
  {
    forall slot | slot in slots ensures |slot.taskId| > a.base && a.base < |slot.modelId| < n {
      var u := SlotIsSelected(cfg, m, e, slot);
      if |u.taskId| < a.base {
        TipsGrow(cfg, a.t, h, a.strike);
        FullHouse(cfg, a, h, n - a.room, m, u);
      }
    }
  }

  lemma RivalsOnlyKeepBesieged(cfg: Config, a: Plan, n: nat, m: Market, slots: seq<Slot>, h: int, later: Market)
    requires WellLaid(cfg, a) && Besieged(cfg, a, n, m) && later == Finalize(cfg, m, slots, h)
    requires forall slot :: slot in slots ==> |slot.taskId| > a.base && a.base < |slot.modelId| < n
    ensures Besieged(cfg, a, n, later)
  {
    WithoutMembers(m.pending, SlotTasks(slots));
    assert a.t.modelId !in SlotModels(slots) && a.t.taskId !in SlotTasks(slots);
    assert later.baseFee <= a.fee;
  }

  // ----- the strike

  lemma SpoilerJoins(cfg: Config, a: Plan, n: nat, m: Market, later: Market)
    requires WellLaid(cfg, a) && Besieged(cfg, a, n, m) && later == Submit(cfg, m, Spoiler(a), a.strike)
    ensures later == m.(pending := m.pending + [Spoiler(a)])
  {
    var u := Spoiler(a);
    assert u.taskId !in TaskIds(m.pending);
  }

  /** The strike: the spoiler waits, and nobody else has the length of its name. */
  ghost predicate Struck(cfg: Config, a: Plan, m: Market) {
    && Spoiler(a) in m.pending && UniqueIds(m.pending) && RestOf(m, a.t.modelId) <= a.strike
    && forall u :: u in m.pending && u != Spoiler(a) ==>
         |u.taskId| != a.base && (a.strike < u.expiryBlock ==> TipAt(cfg, a.strike)(u) <= a.p)
  }

  lemma NobodyOutranksTheSpoiler(cfg: Config, a: Plan, m: Market, u: Task)
    requires WellLaid(cfg, a) && Struck(cfg, a, m) && u in m.pending && u != Spoiler(a) && a.strike < u.expiryBlock
    ensures var key := SortKey(cfg, a.strike, Ties(a));
            key(u) != key(Spoiler(a)) && !Above(key(u), key(Spoiler(a)))
  {
    FreshIsWorth(cfg, Spoiler(a), a.strike);
  }

  lemma SpoilerIsSelected(cfg: Config, a: Plan, m: Market)
    requires WellLaid(cfg, a) && Struck(cfg, a, m)
    ensures Spoiler(a) in Selected(cfg, m, a.strike, Ties(a), a.room)
  {
    var s, ahead := Spoiler(a), Outranking(cfg, m, a.strike, Ties(a), Spoiler(a));
    EligibleMembers(m.pending, m.cooldowns, a.strike);
    forall u | u in m.pending && u != s && a.strike < u.expiryBlock ensures u !in ahead {
      NobodyOutranksTheSpoiler(cfg, a, m, u);
    }
    assert ahead == {} && ModelsOf(ahead) == {};
    SelectedIff(cfg, m, a.strike, Ties(a), a.room, s);
  }

  lemma {:induction false} OneOfAModel(tasks: seq<Task>, u: Task, v: Task)
    requires DistinctModels(tasks) && u in tasks && v in tasks && u.modelId == v.modelId
    ensures u == v
  {
  }

  /** The spoiler sends the model to rest beyond the expiry of `t`, and `t` is not in the block. */
  lemma SpoilerShutsOut(cfg: Config, a: Plan, m: Market, e: Event, later: Market)
    requires WellLaid(cfg, a) && Struck(cfg, a, m) && a.t in m.pending && a.t != Spoiler(a)
    requires e == BlockEvent(a.strike, Ties(a), a.room) && later == Step(cfg, m, e)
    ensures CoolingUntil(later, a.t.modelId, a.t.expiryBlock)
    ensures forall slot :: slot in SlotsIn(cfg, m, e) ==> slot != SlotOf(a.t)
  {
    SpoilerIsSelected(cfg, a, m);
    SelectionIsFeasibleAndFull(cfg, m, a.strike, Ties(a), a.room);
    var s := Selected(cfg, m, a.strike, Ties(a), a.room);
    var i :| 0 <= i < |s| && s[i] == Spoiler(a);
    assert SlotsIn(cfg, m, e)[i] == SlotOf(Spoiler(a));
    assert a.t.modelId in SlotModels(SlotsIn(cfg, m, e));
    forall slot | slot in SlotsIn(cfg, m, e) ensures slot != SlotOf(a.t) {
      var u := SlotIsSelected(cfg, m, e, slot);
      if slot.modelId == a.t.modelId {
        OneOfAModel(s, u, Spoiler(a));
        assert |slot.taskId| == a.base;
      }
    }
  }

  // ----- nobody serves the besieged

  ghost predicate NeverServed(cfg: Config, t: Task, m: Market, es: seq<Event>) {
    forall x :: x in Log(cfg, m, es) && x.slot == SlotOf(t) ==> x.height >= t.expiryBlock
  }

  /** One more event in front, which schedules other tasks or none. */
  lemma StillNotServed(cfg: Config, t: Task, m: Market, e: Event, rest: seq<Event>, es: seq<Event>)
    requires forall slot :: slot in SlotsIn(cfg, m, e) ==> slot != SlotOf(t)
    requires es == [e] + rest && NeverServed(cfg, t, Step(cfg, m, e), rest)
    ensures NeverServed(cfg, t, m, es)
  {
    assert es[1..] == rest;
    forall x | x in Entries(cfg, m, e) ensures x.slot != SlotOf(t) {
      var i :| 0 <= i < |Entries(cfg, m, e)| && Entries(cfg, m, e)[i] == x;
      assert SlotsIn(cfg, m, e)[i] in SlotsIn(cfg, m, e);
    }
  }

  lemma RestingIsNotServed(cfg: Config, t: Task, m: Market, es: seq<Event>)
    requires CoolingUntil(m, t.modelId, t.expiryBlock)
    ensures NeverServed(cfg, t, m, es)
  {
    RestingModelsWait(cfg, m, es, t.modelId, t.expiryBlock);
  }

  lemma StrikeStarves(cfg: Config, a: Plan, n: nat, m: Market)
    requires WellLaid(cfg, a) && Besieged(cfg, a, n, m)
    ensures NeverServed(cfg, a.t, m, Strike(a))
  {
    var submit, es := SubmitEvent(Spoiler(a), a.strike), StrikeBlocks(a);
    var joined := Submit(cfg, m, Spoiler(a), a.strike);
    SpoilerJoins(cfg, a, n, m, joined);
    JoinedIsStruck(cfg, a, n, m, joined);
    BlocksStarve(cfg, a, joined);
    assert joined == Step(cfg, m, submit);
    StillNotServed(cfg, a.t, m, submit, es, Strike(a));
  }

  lemma BlocksStarve(cfg: Config, a: Plan, m: Market)
    requires WellLaid(cfg, a) && Struck(cfg, a, m) && a.t in m.pending && a.t != Spoiler(a)
    ensures NeverServed(cfg, a.t, m, StrikeBlocks(a))
  {
    var block, rest := BlockEvent(a.strike, Ties(a), a.room), Quiet(a, a.strike + 1);
    var later := Step(cfg, m, block);
    SpoilerShutsOut(cfg, a, m, block, later);
    RestingIsNotServed(cfg, a.t, later, rest);
    StillNotServed(cfg, a.t, m, block, rest, StrikeBlocks(a));
  }

  lemma JoinedIsStruck(cfg: Config, a: Plan, n: nat, m: Market, later: Market)
    requires WellLaid(cfg, a) && Besieged(cfg, a, n, m) && later == m.(pending := m.pending + [Spoiler(a)])
    ensures Struck(cfg, a, later) && a.t in later.pending && a.t != Spoiler(a)
  {
    assert Spoiler(a).taskId !in TaskIds(m.pending);
    SubmitKeepsUnique(m.pending, Spoiler(a));
  }

  /** The siege in progress at height `h`, with `left` more rivals to come before its block. */
  ghost predicate UnderWay(cfg: Config, a: Plan, h: int, left: nat, n: nat, m: Market) {
    && WellLaid(cfg, a) && Besieged(cfg, a, n, m) && 0 <= h <= a.strike
    && left <= a.room && left + n > a.room + a.base && Lined(a, h, n - (a.room - left), n, m)
  }

  lemma SiegeBySubmission(cfg: Config, a: Plan, h: int, left: nat, n: nat, m: Market, e: Event)
    requires UnderWay(cfg, a, h, left, n, m) && left > 0 && e == SubmitEvent(Rival(a, n, h), h)
    ensures UnderWay(cfg, a, h, left - 1, n + 1, Step(cfg, m, e)) && SlotsIn(cfg, m, e) == []
  {
    RivalJoins(cfg, a, h, n - (a.room - left), n, m, Step(cfg, m, e));
  }

  lemma SiegeByBlock(cfg: Config, a: Plan, h: int, n: nat, m: Market, e: Event)
    requires UnderWay(cfg, a, h, 0, n, m) && h < a.strike && e == BlockEvent(h, Ties(a), a.room)
    ensures UnderWay(cfg, a, h + 1, a.room, n, Step(cfg, m, e))
    ensures forall slot :: slot in SlotsIn(cfg, m, e) ==> slot != SlotOf(a.t)
  {
    OnlyRivals(cfg, a, h, n, m, e, SlotsIn(cfg, m, e));
    RivalsOnlyKeepBesieged(cfg, a, n, m, SlotsIn(cfg, m, e), h, Step(cfg, m, e));
  }

  /** Not one block of the siege schedules `t`. */
  lemma {:induction false} SiegeStarves(cfg: Config, a: Plan, h: int, left: nat, n: nat, m: Market, es: seq<Event>)
    requires UnderWay(cfg, a, h, left, n, m) && es == Siege(a, h, left, n)
    ensures NeverServed(cfg, a.t, m, es)
    decreases a.strike - h, left, 1
  {
    if h >= a.strike {
      StrikeStarves(cfg, a, n, m);
    } else if left > 0 {
      SubmissionStarves(cfg, a, h, left, n, m, es, Siege(a, h, left - 1, n + 1));
    } else {
      BlockStarves(cfg, a, h, n, m, BlockEvent(h, Ties(a), a.room), Siege(a, h + 1, a.room, n));
    }
  }

  lemma {:induction false} SubmissionStarves(cfg: Config, a: Plan, h: int, left: nat, n: nat, m: Market,
                                             es: seq<Event>, rest: seq<Event>)
    requires UnderWay(cfg, a, h, left, n, m) && left > 0 && h < a.strike
    requires rest == Siege(a, h, left - 1, n + 1) && es == [SubmitEvent(Rival(a, n, h), h)] + rest
    ensures NeverServed(cfg, a.t, m, es)
    decreases a.strike - h, left, 0
  {
    var e := es[0];
    SiegeBySubmission(cfg, a, h, left, n, m, e);
    SiegeStarves(cfg, a, h, left - 1, n + 1, Step(cfg, m, e), rest);
    StillNotServed(cfg, a.t, m, e, rest, es);
  }

  lemma {:induction false} BlockStarves(cfg: Config, a: Plan, h: int, n: nat, m: Market, e: Event, rest: seq<Event>)
    requires UnderWay(cfg, a, h, 0, n, m) && h < a.strike
    requires rest == Siege(a, h + 1, a.room, n) && e == BlockEvent(h, Ties(a), a.room)
    ensures NeverServed(cfg, a.t, m, [e] + rest)
    decreases a.strike - h, 0, 0
  {
    SiegeByBlock(cfg, a, h, n, m, e);
    SiegeStarves(cfg, a, h + 1, a.room, n, Step(cfg, m, e), rest);
    StillNotServed(cfg, a.t, m, e, rest, [e] + rest);
  }

  // ----- laying siege to any market

  lemma {:induction false} LongestTaskName(tasks: seq<Task>) returns (n: nat)
    ensures forall u :: u in tasks ==> |u.taskId| < n && |u.modelId| < n
  {
    n := 0;
    if tasks != [] {
      var rest := LongestTaskName(tasks[1..]);
      n := rest + |tasks[0].taskId| + |tasks[0].modelId| + 1;
    }
  }

  lemma {:induction false} LongestName(ids: set<string>) returns (n: nat)
    ensures forall id :: id in ids ==> |id| < n
  {
    n := 0;
    if ids != {} {
      var id :| id in ids;
      var rest := LongestName(ids - {id});
      n := rest + |id| + 1;
    }
  }

  lemma NewNames(m: Market) returns (n: nat)
    ensures NamesBelow(n, m)
  {
    var a := LongestTaskName(m.pending);
    var b := LongestName(m.cooldowns.Keys);
    n := a + b;
  }

  /** A fee that covers the market's base fee now and after any number of blocks. */
  function EnoughFee(cfg: Config, m: Market): real {
    Max(m.baseFee, Max(cfg.minBaseFee, cfg.maxBaseFee))
  }

  /** A task that starves: it is submitted, may still run, and its deadline comes while it is worth no more than `p`. */
  ghost predicate Exposed(cfg: Config, p: real, t: Task, m: Market) {
    RestOf(m, t.modelId) < t.expiryBlock && TipAt(cfg, Deadline(cfg, t, m))(t) <= p
  }

  lemma TheStrike(cfg: Config, p: real, t: Task, m: Market, strike: int)
    requires Exposed(cfg, p, t, m) && cfg.urgencyCap >= 1.0 && 0 <= t.submittedBlock < t.expiryBlock
    requires strike == MaxInt(t.submittedBlock, Deadline(cfg, t, m))
    ensures strike < t.expiryBlock && TipAt(cfg, strike)(t) <= p
  {
    if Deadline(cfg, t, m) < t.submittedBlock {
      FreshIsWorth(cfg, t, Deadline(cfg, t, m));
      FreshIsWorth(cfg, t, t.submittedBlock);
    }
  }

  lemma ExposedIsStarved(cfg: Config, p: real, room: nat, t: Task, m: Market) returns (es: seq<Event>)
    requires Waiting(cfg, p, t, m) && UniqueIds(m.pending) && 0 <= t.submittedBlock < t.expiryBlock && room >= 1
    requires cfg.urgencyCap >= 1.0 && cfg.urgencyRate >= 0.0 && t.tip >= cfg.minTip && t.tip >= 0.0
    requires Exposed(cfg, p, t, m)
    ensures Contest(cfg, p, room, t, m, es) && !Serves(cfg, t, m, es)
    ensures Heights(es) == Range(t.submittedBlock, t.expiryBlock)
  {
    var base := NewNames(m);
    var strike := MaxInt(t.submittedBlock, Deadline(cfg, t, m));
    var a := Plan(t, p, room, EnoughFee(cfg, m), base, strike);
    TheStrike(cfg, p, t, m, strike);
    CappedTip(cfg, t, strike);
    SiegeIsAdmissible(cfg, a, t.submittedBlock, room, base + 1);
    es := Siege(a, t.submittedBlock, room, base + 1);
    SiegeStarves(cfg, a, t.submittedBlock, room, base + 1, m, es);
  }

  /** The starving run, with a block at every height from the submission of `t` to its last. */
  lemma UnprotectedIsStarved(cfg: Config, p: real, room: nat, t: Task, m: Market) returns (es: seq<Event>)
    requires Waiting(cfg, p, t, m) && UniqueIds(m.pending) && 0 <= t.submittedBlock < t.expiryBlock && room >= 1
    requires cfg.urgencyCap >= 1.0 && cfg.urgencyRate >= 0.0 && t.tip >= cfg.minTip && t.tip >= 0.0
    requires !Protected(cfg, p, t, m)
    ensures Contest(cfg, p, room, t, m, es) && !Serves(cfg, t, m, es)
    ensures Heights(es) == Range(t.submittedBlock, t.expiryBlock)
  {
    if RestOf(m, t.modelId) < t.expiryBlock {
      es := ExposedIsStarved(cfg, p, room, t, m);
    } else {
      var a := Plan(t, p, room, 0.0, 0, 0);
      es := Quiet(a, t.submittedBlock);
      QuietIsAdmissible(cfg, a, t.submittedBlock);
      RestingIsNotServed(cfg, t, m, es);
    }
  }

  // ----- the condition

  /**
    A waiting task is scheduled before it expires on every run against competitors worth at most `p`,
    whatever their models and the number of slots, if and only if its model is rested before it expires and
    it is worth more than `p` from the deadline on.
   */
  lemma ServedOnEveryRunIff(cfg: Config, p: real, room: nat, t: Task, m: Market)
    requires Waiting(cfg, p, t, m) && UniqueIds(m.pending) && 0 <= t.submittedBlock < t.expiryBlock && room >= 1
    requires cfg.urgencyCap >= 1.0 && cfg.urgencyRate >= 0.0 && t.tip >= cfg.minTip && t.tip >= 0.0
    ensures (forall es :: Contest(cfg, p, room, t, m, es) ==> Serves(cfg, t, m, es))
            <==> RestOf(m, t.modelId) < t.expiryBlock && TipAt(cfg, Deadline(cfg, t, m))(t) > p
  {
    if Protected(cfg, p, t, m) {
      forall es | Contest(cfg, p, room, t, m, es) ensures Serves(cfg, t, m, es) {
        ProtectedIsServed(cfg, p, room, t, m, es);
      }
    } else {
      var es := UnprotectedIsStarved(cfg, p, room, t, m);
    }
  }

  /** Served from whatever market in which its model is rested in time, and on whatever run. */
  ghost predicate AlwaysServed(cfg: Config, p: real, room: int, t: Task) {
    forall m: Market, es: seq<Event> :: RestOf(m, t.modelId) < t.expiryBlock && Contest(cfg, p, room, t, m, es) ==>
      Serves(cfg, t, m, es)
  }

  lemma EarlyDeadline(cfg: Config, p: real, t: Task, m: Market)
    requires m.cooldowns == map[] && cfg.urgencyCap >= 1.0 && 0 <= t.submittedBlock < t.expiryBlock
    ensures Protected(cfg, p, t, m) <==> TipAt(cfg, t.expiryBlock - CooldownLength(cfg))(t) > p
  {
    if t.expiryBlock - CooldownLength(cfg) < 0 {
      FreshIsWorth(cfg, t, t.expiryBlock - CooldownLength(cfg));
      FreshIsWorth(cfg, t, 0);
    }
  }

  /** For all markets at once the cooldown before the expiry decides; a market where only `t` waits starves it. */
  lemma AlwaysServedIff(cfg: Config, p: real, room: nat, t: Task)
    requires 0 <= t.submittedBlock < t.expiryBlock && room >= 1 && t.tip >= cfg.minTip && t.tip >= 0.0
    requires cfg.urgencyCap >= 1.0 && cfg.urgencyRate >= 0.0
    ensures AlwaysServed(cfg, p, room, t) <==> TipAt(cfg, t.expiryBlock - CooldownLength(cfg))(t) > p
  {
    if TipAt(cfg, t.expiryBlock - CooldownLength(cfg))(t) > p {
      forall m, es | RestOf(m, t.modelId) < t.expiryBlock && Contest(cfg, p, room, t, m, es)
        ensures Serves(cfg, t, m, es)
      {
        TipsGrow(cfg, t, t.expiryBlock - CooldownLength(cfg), Deadline(cfg, t, m));
        ProtectedIsServed(cfg, p, room, t, m, es);
      }
    } else {
      var m := Market(cfg.initialBaseFee, map[], [t], 0, 0);
      EarlyDeadline(cfg, p, t, m);
      var es := UnprotectedIsStarved(cfg, p, room, t, m);
    }
  }

  lemma ExpiryDecides(cfg: Config, p: real, room: nat, t: Task, expiry: int)
    requires 0 <= t.submittedBlock < expiry && room >= 1 && t.tip >= cfg.minTip && t.tip >= 0.0
    requires cfg.urgencyCap >= 1.0 && cfg.urgencyRate >= 0.0
    ensures AlwaysServed(cfg, p, room, t.(expiryBlock := expiry)) <==> TipAt(cfg, expiry - CooldownLength(cfg))(t) > p
  {
    var h := expiry - CooldownLength(cfg);
    AlwaysServedIff(cfg, p, room, t.(expiryBlock := expiry));
    assert TipAt(cfg, h)(t.(expiryBlock := expiry)) == TipAt(cfg, h)(t);
  }

  /** Some expiry is late enough for a task to be served on every run exactly when its capped tip exceeds `p`. */
  lemma PatienceServesIff(cfg: Config, p: real, room: nat, t: Task)
    requires 0 <= t.submittedBlock && room >= 1 && t.tip >= cfg.minTip && t.tip >= 0.0
    requires cfg.urgencyCap >= 1.0 && cfg.urgencyRate > 0.0
    ensures (exists expiry :: expiry > t.submittedBlock && AlwaysServed(cfg, p, room, t.(expiryBlock := expiry)))
            <==> t.tip * cfg.urgencyCap > p
  {
    OvertakesNewcomersIff(cfg, t, p);
    if t.tip * cfg.urgencyCap > p {
      var block: int :| block >= t.submittedBlock && TipAt(cfg, block)(t) > p;
      ExpiryDecides(cfg, p, room, t, block + CooldownLength(cfg));
    } else {
      forall expiry | expiry > t.submittedBlock ensures !AlwaysServed(cfg, p, room, t.(expiryBlock := expiry)) {
        ExpiryDecides(cfg, p, room, t, expiry);
        CappedTip(cfg, t, expiry - CooldownLength(cfg));
      }
    }
  }
}
