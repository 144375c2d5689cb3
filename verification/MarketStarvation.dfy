/**
  When waiting protects a task from starvation: the condition, checked at submission, under which every run
  schedules a task before it expires. That it is the exact one is the matter of `MarketSiege`.

  Competitors may name the task's own model: whichever of them is scheduled sends the model to rest, and
  the task with it.
 */
module MarketStarvation {
  import opened Basics
  import opened FeeMarket
  import opened MarketSelection
  import opened MarketRuns

  /** Another task, of whatever model, whose effective tip never exceeds `p` while both can still run. */
  ghost predicate Competes(cfg: Config, p: real, t: Task, u: Task) {
    && u.taskId != t.taskId
    && forall h :: h < t.expiryBlock && h < u.expiryBlock ==> TipAt(cfg, h)(u) <= p
  }

  /** Everybody may submit competing tasks, cancel and expire; the blocks all have the same room. */
  ghost predicate Admissible(cfg: Config, p: real, room: int, t: Task, e: Event) {
    match e
    case SubmitEvent(u, _) => u.taskId == t.taskId || Competes(cfg, p, t, u)
    case BlockEvent(_, _, r) => r == room
    case _ => true
  }

  predicate Withdraws(t: Task, e: Event) {
    match e
    case CancelEvent(taskId, owner) => taskId == t.taskId && owner == t.owner
    case ExpireEvent(height) => height >= t.expiryBlock
    case _ => false
  }

  predicate IsLastBlock(t: Task, e: Event) {
    e.BlockEvent? && e.height == t.expiryBlock - 1
  }

  predicate ComesTooLate(t: Task, e: Event) {
    e.BlockEvent? && e.height >= t.expiryBlock
  }

  /** The block at the last height of `t` comes; before it `t` is not withdrawn, and no block is of a later height. */
  predicate GetsLastBlock(t: Task, es: seq<Event>) {
    && es != []
    && (IsLastBlock(t, es[0]) || (!Withdraws(t, es[0]) && !ComesTooLate(t, es[0]) && GetsLastBlock(t, es[1..])))
  }

  ghost predicate Waiting(cfg: Config, p: real, t: Task, m: Market) {
    t in m.pending && forall u :: u in m.pending && u != t ==> Competes(cfg, p, t, u)
  }

  /** A run on which `t` waits to its last height against competitors worth at most `p`. */
  ghost predicate Contest(cfg: Config, p: real, room: int, t: Task, m: Market, es: seq<Event>) {
    && Waiting(cfg, p, t, m) && GetsLastBlock(t, es)
    && forall e :: e in es ==> Admissible(cfg, p, room, t, e)
  }

  ghost predicate Serves(cfg: Config, t: Task, m: Market, es: seq<Event>) {
    exists x :: x in Log(cfg, m, es) && x.slot == SlotOf(t) && x.height < t.expiryBlock
  }

  /** Until when a model rests. */
  function RestOf(m: Market, modelId: string): int {
    if modelId in m.cooldowns then m.cooldowns[modelId] else 0
  }

  /** The first height at which a slot for the model of `t` would keep `t` out for good. */
  function Deadline(cfg: Config, t: Task, m: Market): int {
    MaxInt(t.expiryBlock - CooldownLength(cfg), RestOf(m, t.modelId))
  }

  /** The model of `t` rests before `t` expires, and from the deadline on `t` is worth more than `p`. */
  ghost predicate Protected(cfg: Config, p: real, t: Task, m: Market) {
    RestOf(m, t.modelId) < t.expiryBlock && TipAt(cfg, Deadline(cfg, t, m))(t) > p
  }

  /** Waiting longer never lowers an effective tip. */
  lemma TipsGrow(cfg: Config, t: Task, a: int, b: int)
    requires cfg.urgencyRate >= 0.0 && t.tip >= 0.0 && a <= b
    ensures TipAt(cfg, a)(t) <= TipAt(cfg, b)(t)
  {
    var x, y := MaxInt(0, a - t.submittedBlock), MaxInt(0, b - t.submittedBlock);
    AtLeastAsMuch(y as real, x as real, cfg.urgencyRate);
    CappedGrows(1.0 + x as real * cfg.urgencyRate, 1.0 + y as real * cfg.urgencyRate, cfg.urgencyCap);
    ScaledUp(t.tip, Urgency(cfg, t, a), Urgency(cfg, t, b));
  }

  lemma CappedGrows(a: real, b: real, cap: real)
    requires a <= b
    ensures Min(a, cap) <= Min(b, cap)
  {
  }

  lemma ScaledUp(tip: real, a: real, b: real)
    requires tip >= 0.0 && a <= b
    ensures tip * a <= tip * b
  {
    assert tip * (b - a) >= 0.0;
  }

  // ----- a protected task is served

  lemma SelectedIsServed(cfg: Config, t: Task, m: Market, es: seq<Event>)
    requires es != [] && es[0].BlockEvent?
    requires t in Selected(cfg, m, es[0].height, es[0].tiebreak, es[0].room)
    ensures Serves(cfg, t, m, es)
  {
    var e := es[0];
    var s := Selected(cfg, m, e.height, e.tiebreak, e.room);
    SelectionIsFeasibleAndFull(cfg, m, e.height, e.tiebreak, e.room);
    var i :| 0 <= i < |s| && s[i] == t;
    assert Entries(cfg, m, e)[i] == Scheduled(e.height, SlotOf(t));
    assert Log(cfg, m, es)[i] == Entries(cfg, m, e)[i];
  }

  lemma LaterIsServed(cfg: Config, t: Task, m: Market, es: seq<Event>)
    requires es != [] && Serves(cfg, t, Step(cfg, m, es[0]), es[1..])
    ensures Serves(cfg, t, m, es)
  {
    var x :| x in Log(cfg, Step(cfg, m, es[0]), es[1..]) && x.slot == SlotOf(t) && x.height < t.expiryBlock;
    assert x in Log(cfg, m, es);
  }

  /** From the deadline on, a protected task heads every block at which its model is rested. */
  lemma ProtectedIsSelected(cfg: Config, p: real, t: Task, m: Market, e: Event)
    requires Waiting(cfg, p, t, m) && Protected(cfg, p, t, m) && e.BlockEvent? && e.room >= 1
    requires Deadline(cfg, t, m) <= e.height < t.expiryBlock && cfg.urgencyRate >= 0.0 && t.tip >= 0.0
    ensures t in Selected(cfg, m, e.height, e.tiebreak, e.room)
  {
    TipsGrow(cfg, t, Deadline(cfg, t, m), e.height);
    EligibleMembers(m.pending, m.cooldowns, e.height);
    HighestTipIsSelected(cfg, m, e.height, e.tiebreak, e.room, t);
  }

  /** A block that passes a protected task over does not take its id, and its model only well before the deadline. */
  lemma PassedOver(cfg: Config, p: real, t: Task, m: Market, e: Event)
    requires Waiting(cfg, p, t, m) && Protected(cfg, p, t, m) && e.BlockEvent? && e.room >= 1
    requires e.height < t.expiryBlock && cfg.urgencyRate >= 0.0 && t.tip >= 0.0
    requires t !in Selected(cfg, m, e.height, e.tiebreak, e.room)
    ensures t.taskId !in SlotTasks(SlotsIn(cfg, m, e))
    ensures t.modelId in SlotModels(SlotsIn(cfg, m, e)) ==>
              RestOf(m, t.modelId) <= e.height < t.expiryBlock - CooldownLength(cfg)
  {
    SelectionIsFeasibleAndFull(cfg, m, e.height, e.tiebreak, e.room);
    var s := Selected(cfg, m, e.height, e.tiebreak, e.room);
    forall slot | slot in SlotsIn(cfg, m, e)
      ensures slot.taskId != t.taskId
      ensures slot.modelId == t.modelId ==> RestOf(m, t.modelId) <= e.height < t.expiryBlock - CooldownLength(cfg)
    {
      var i :| 0 <= i < |s| && slot == SlotOf(s[i]);
      assert s[i] in s && Competes(cfg, p, t, s[i]);
      if slot.modelId == t.modelId && e.height >= t.expiryBlock - CooldownLength(cfg) {
        ProtectedIsSelected(cfg, p, t, m, e);
      }
    }
  }

  lemma RestStaysProtected(cfg: Config, p: real, t: Task, m: Market, later: Market)
    requires Protected(cfg, p, t, m) && cfg.urgencyRate >= 0.0 && t.tip >= 0.0
    requires RestOf(m, t.modelId) <= RestOf(later, t.modelId) < t.expiryBlock
    ensures Protected(cfg, p, t, later)
  {
    TipsGrow(cfg, t, Deadline(cfg, t, m), Deadline(cfg, t, later));
  }

  lemma BlockWaits(cfg: Config, p: real, t: Task, m: Market, e: Event, later: Market)
    requires Waiting(cfg, p, t, m) && Protected(cfg, p, t, m) && e.BlockEvent? && e.room >= 1
    requires e.height < t.expiryBlock && cfg.urgencyRate >= 0.0 && t.tip >= 0.0
    requires t !in Selected(cfg, m, e.height, e.tiebreak, e.room) && later == Step(cfg, m, e)
    ensures Waiting(cfg, p, t, later) && Protected(cfg, p, t, later)
  {
    PassedOver(cfg, p, t, m, e);
    WithoutMembers(m.pending, SlotTasks(SlotsIn(cfg, m, e)));
    RestStaysProtected(cfg, p, t, m, later);
  }

  lemma OtherStepWaits(cfg: Config, p: real, room: int, t: Task, m: Market, e: Event, later: Market)
    requires Waiting(cfg, p, t, m) && Admissible(cfg, p, room, t, e) && !Withdraws(t, e) && !e.BlockEvent?
    requires later == Step(cfg, m, e)
    ensures Waiting(cfg, p, t, later) && later.cooldowns == m.cooldowns
  {
    match e
    case SubmitEvent(u, height) => assert t.taskId in TaskIds(m.pending);
    case CancelEvent(id, owner) => WithoutMembers(m.pending, {id});
    case ExpireEvent(height) => FreshIsPending(m.pending, height);
  }

  lemma {:induction false} ProtectedIsServed(cfg: Config, p: real, room: int, t: Task, m: Market, es: seq<Event>)
    requires Contest(cfg, p, room, t, m, es) && Protected(cfg, p, t, m) && room >= 1
    requires cfg.urgencyRate >= 0.0 && t.tip >= 0.0
    ensures Serves(cfg, t, m, es)
    decreases es
  {
    var e := es[0];
    var later := Step(cfg, m, e);
    assert Admissible(cfg, p, room, t, e);
    if e.BlockEvent? && t in Selected(cfg, m, e.height, e.tiebreak, e.room) {
      SelectedIsServed(cfg, t, m, es);
    } else {
      if e.BlockEvent? {
        if IsLastBlock(t, e) {
          ProtectedIsSelected(cfg, p, t, m, e);
        }
        BlockWaits(cfg, p, t, m, e, later);
      } else {
        OtherStepWaits(cfg, p, room, t, m, e, later);
      }
      ProtectedIsServed(cfg, p, room, t, later, es[1..]);
      LaterIsServed(cfg, t, m, es);
    }
  }
}
