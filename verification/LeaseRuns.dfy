/**
  The lease state machine against a stateless reading of a lease: what a tick computes, what runs keep, and
  when a file is reported for deletion.
 */
module LeaseRuns {
  import opened StorageLease

  // ----- the stateless classifier

  /** What a live lease's status should be at a block, from its dates alone. */
  function Classify(l: Lease, block: int): Status {
    if block >= l.paidThrough then (if block >= l.paidThrough + l.grace then DeletionEligible else Expired)
    else if block >= l.paidThrough - l.warning then Warning
    else Active
  }

  function Rank(s: Status): nat {
    match s
    case Active => 0
    case Warning => 1
    case Expired => 2
    case DeletionEligible => 3
    case Deleted => 4
    case Cancelled => 4
  }

  function Later(a: Status, b: Status): Status { if Rank(b) > Rank(a) then b else a }

  lemma ClassifyRises(l: Lease, a: int, b: int)
    requires a <= b && l.grace >= 0
    ensures Rank(Classify(l, a)) <= Rank(Classify(l, b))
  {
  }

  /** A tick moves a live lease to the later of its status and its classification. */
  lemma TickIsLater(l: Lease, block: int)
    requires Live(l) && l.grace >= 0
    ensures Ticked(l, block) == l.(status := Later(l.status, Classify(l, block)))
  {
  }

  /** So the tick computes the classification exactly when the status has not run ahead of the dates. */
  lemma TickClassifiesIff(l: Lease, block: int)
    requires Live(l) && l.grace >= 0
    ensures Ticked(l, block).status == Classify(l, block) <==> Rank(l.status) <= Rank(Classify(l, block))
  {
    TickIsLater(l, block);
  }

  /** A file is reported exactly when its lease is past grace and was not already eligible for deletion. */
  lemma ReportsDeletableIff(l: Lease, block: int)
    requires l.grace >= 0 && (Live(l) ==> Rank(l.status) <= Rank(Classify(l, block)))
    ensures ReportsDeletable(l, block)
            <==> Live(l) && l.status != DeletionEligible && block >= l.paidThrough + l.grace
  {
  }

  // ----- runs

  datatype Op = Create(fileId: string, owner: string, sizeMb: real, blocks: int, payment: real, now: int)
              | Renew(fileId: string, payer: string, blocks: int, payment: real, now: int)
              | Cancel(fileId: string, owner: string, now: int)
              | Check(block: int)
              | Delete(fileId: string, now: int)

  function After(cfg: Config, s: State, op: Op): State {
    match op
    case Create(f, owner, size, blocks, payment, now) => CreateLease(cfg, s, f, owner, size, blocks, payment, now).1
    case Renew(f, payer, blocks, payment, now) => RenewLease(cfg, s, f, payer, blocks, payment, now).1
    case Cancel(f, owner, now) => CancelLease(s, f, owner, now).1
    case Check(block) => Checked(s, block)
    case Delete(f, now) => MarkedDeleted(s, f, now)
  }

  function AfterAll(cfg: Config, s: State, ops: seq<Op>): State {
    if ops == [] then s else After(cfg, AfterAll(cfg, s, ops[..|ops| - 1]), ops[|ops| - 1])
  }

  /** The height of the last check, `start` if there was none. */
  function LastCheck(ops: seq<Op>, start: int): int {
    if ops == [] then start
    else if ops[|ops| - 1].Check? then ops[|ops| - 1].block
    else LastCheck(ops[..|ops| - 1], start)
  }

  /** Heights are checked in order. */
  ghost predicate InOrder(ops: seq<Op>, start: int) {
    ops == [] || (InOrder(ops[..|ops| - 1], start)
                  && (ops[|ops| - 1].Check? ==> LastCheck(ops[..|ops| - 1], start) <= ops[|ops| - 1].block))
  }

  predicate LeaseOnTime(l: Lease, height: int) {
    l.grace >= 0 && (Live(l) ==> Rank(l.status) <= Rank(Classify(l, height)))
  }

  /** No live lease is ahead of its dates. */
  ghost predicate OnTime(leases: seq<Lease>, height: int) {
    forall k :: 0 <= k < |leases| ==> LeaseOnTime(leases[k], height)
  }

  lemma TickStaysOnTime(l: Lease, height: int, block: int)
    requires LeaseOnTime(l, height) && height <= block
    ensures LeaseOnTime(Ticked(l, block), block)
    ensures Live(l) ==> Ticked(l, block).status == Classify(l, block)
  {
    ClassifyRises(l, height, block);
    if Live(l) {
      TickIsLater(l, block);
    }
  }

  lemma StepStaysOnTime(cfg: Config, s: State, op: Op, height: int)
    requires OnTime(s.leases, height) && cfg.grace >= 0 && (op.Check? ==> height <= op.block)
    ensures OnTime(After(cfg, s, op).leases, if op.Check? then op.block else height)
  {
    if op.Check? {
      forall k | 0 <= k < |s.leases| ensures LeaseOnTime(Ticked(s.leases[k], op.block), op.block) {
        TickStaysOnTime(s.leases[k], height, op.block);
      }
    }
  }

  lemma {:induction false} RunsStayOnTime(cfg: Config, ops: seq<Op>, start: int)
    requires cfg.grace >= 0 && InOrder(ops, start)
    ensures OnTime(AfterAll(cfg, State([], []), ops).leases, LastCheck(ops, start))
  {
    if ops != [] {
      var before := ops[..|ops| - 1];
      RunsStayOnTime(cfg, before, start);
      StepStaysOnTime(cfg, AfterAll(cfg, State([], []), before), ops[|ops| - 1], LastCheck(before, start));
    }
  }

  /**
    After any run with heights checked in order, and whatever renewals it held, a check at the next height
    leaves every live lease in the status its dates alone give, and every other lease alone.
   */
  lemma CheckRefinesClassifier(cfg: Config, ops: seq<Op>, start: int, block: int)
    requires cfg.grace >= 0 && InOrder(ops, start) && LastCheck(ops, start) <= block
    ensures var before := AfterAll(cfg, State([], []), ops).leases;
            var after := AfterAll(cfg, State([], []), ops + [Check(block)]).leases;
            |after| == |before| && forall k :: 0 <= k < |before| ==>
              after[k] == if Live(before[k]) then before[k].(status := Classify(before[k], block)) else before[k]
  {
    RunsStayOnTime(cfg, ops, start);
    AfterOneMore(cfg, State([], []), ops, Check(block));
    CheckedLeases(AfterAll(cfg, State([], []), ops), LastCheck(ops, start), block);
  }

  lemma AfterOneMore(cfg: Config, s: State, ops: seq<Op>, op: Op)
    ensures AfterAll(cfg, s, ops + [op]) == After(cfg, AfterAll(cfg, s, ops), op)
  {
    assert (ops + [op])[..|ops|] == ops;
  }

  lemma CheckedLeases(s: State, height: int, block: int)
    requires OnTime(s.leases, height) && height <= block
    ensures var before, after := s.leases, Checked(s, block).leases;
            |after| == |before| && forall k :: 0 <= k < |before| ==>
              after[k] == if Live(before[k]) then before[k].(status := Classify(before[k], block)) else before[k]
  {
    forall k | 0 <= k < |s.leases|
      ensures Ticked(s.leases[k], block)
              == if Live(s.leases[k]) then s.leases[k].(status := Classify(s.leases[k], block)) else s.leases[k]
    {
      CheckedLease(s.leases[k], height, block);
    }
  }

  lemma CheckedLease(l: Lease, height: int, block: int)
    requires LeaseOnTime(l, height) && height <= block
    ensures Ticked(l, block) == if Live(l) then l.(status := Classify(l, block)) else l
  {
    ClassifyRises(l, height, block);
    if Live(l) {
      TickIsLater(l, block);
    }
  }

  // ----- checking again, and skipping heights

  lemma TickTwice(l: Lease, block: int)
    ensures Ticked(Ticked(l, block), block) == Ticked(l, block)
    ensures TickEvents(Ticked(l, block), block) == []
    ensures !ReportsExpired(Ticked(l, block), block) && !ReportsDeletable(Ticked(l, block), block)
  {
  }

  lemma {:induction false} NothingNew(leases: seq<Lease>, block: int, n: nat)
    requires n <= |leases|
    requires forall k :: 0 <= k < |leases| ==> TickEvents(leases[k], block) == []
                                               && !ReportsExpired(leases[k], block)
                                               && !ReportsDeletable(leases[k], block)
    ensures EventsAll(leases, block, n) == [] && ExpiredAll(leases, block, n) == []
            && DeletableAll(leases, block, n) == []
  {
    if n > 0 {
      NothingNew(leases, block, n - 1);
    }
  }

  /** A second check at the same height changes nothing, records nothing and returns nothing. */
  lemma CheckTwice(s: State, block: int)
    ensures var once := Checked(s, block);
            Checked(once, block) == once
            && ExpiredAll(once.leases, block, |once.leases|) == []
            && DeletableAll(once.leases, block, |once.leases|) == []
  {
    var once := Checked(s, block);
    forall k | 0 <= k < |once.leases|
      ensures Ticked(once.leases[k], block) == once.leases[k] && TickEvents(once.leases[k], block) == []
      ensures !ReportsExpired(once.leases[k], block) && !ReportsDeletable(once.leases[k], block)
    {
      TickTwice(s.leases[k], block);
    }
    NothingNew(once.leases, block, |once.leases|);
    assert TickedAll(once.leases, block, |once.leases|) == once.leases;
  }

  lemma TickSkips(l: Lease, a: int, b: int)
    requires a <= b && l.grace >= 0
    ensures Ticked(Ticked(l, a), b) == Ticked(l, b)
    ensures ReportsDeletable(l, b) <==> ReportsDeletable(l, a) || ReportsDeletable(Ticked(l, a), b)
  {
  }

  /** Checking a height in between changes no final status. */
  lemma SkippedHeightsDoNotMatter(s: State, a: int, b: int)
    requires a <= b && forall k :: 0 <= k < |s.leases| ==> s.leases[k].grace >= 0
    ensures Checked(Checked(s, a), b).leases == Checked(s, b).leases
  {
    forall k | 0 <= k < |s.leases| ensures Ticked(Ticked(s.leases[k], a), b) == Ticked(s.leases[k], b) {
      TickSkips(s.leases[k], a, b);
    }
  }

  lemma {:induction false} ReportedIff(leases: seq<Lease>, block: int, n: nat, fileId: string)
    requires n <= |leases|
    ensures fileId in DeletableAll(leases, block, n)
            <==> exists k :: 0 <= k < n && leases[k].fileId == fileId && ReportsDeletable(leases[k], block)
  {
    if n > 0 {
      ReportedIff(leases, block, n - 1, fileId);
    }
  }

  /** It also loses no report: a file comes up at one of the two checks exactly when one check reports it. */
  lemma SkippedHeightsKeepReports(s: State, a: int, b: int, fileId: string)
    requires a <= b && forall k :: 0 <= k < |s.leases| ==> s.leases[k].grace >= 0
    ensures var n := |s.leases|;
            fileId in DeletableAll(s.leases, b, n)
            <==> fileId in DeletableAll(s.leases, a, n) || fileId in DeletableAll(Checked(s, a).leases, b, n)
  {
    var n := |s.leases|;
    ReportedIff(s.leases, a, n, fileId);
    ReportedIff(s.leases, b, n, fileId);
    ReportedIff(Checked(s, a).leases, b, n, fileId);
    forall k | 0 <= k < n
      ensures ReportsDeletable(s.leases[k], b)
              <==> ReportsDeletable(s.leases[k], a) || ReportsDeletable(Checked(s, a).leases[k], b)
    {
      TickSkips(s.leases[k], a, b);
    }
  }

  // ----- a file is reported for deletion once

  predicate DoneWith(l: Lease) { l.status.DeletionEligible? || !Live(l) }

  ghost predicate FileDone(leases: seq<Lease>, fileId: string) {
    forall k :: 0 <= k < |leases| && leases[k].fileId == fileId ==> DoneWith(leases[k])
  }

  /** The operation is an accepted renewal or creation of the file's lease. */
  predicate Reopens(cfg: Config, s: State, op: Op, fileId: string) {
    match op
    case Create(f, owner, size, blocks, payment, now) =>
      f == fileId && CreateLease(cfg, s, f, owner, size, blocks, payment, now).0.Done?
    case Renew(f, payer, blocks, payment, now) =>
      f == fileId && RenewLease(cfg, s, f, payer, blocks, payment, now).0.Done?
    case _ => false
  }

  /** None of the operations, run in turn from `s`, reopens the file's lease. */
  ghost predicate StaysClosed(cfg: Config, s: State, ops: seq<Op>, fileId: string) {
    forall k :: 0 <= k < |ops| ==> !Reopens(cfg, AfterAll(cfg, s, ops[..k]), ops[k], fileId)
  }

  lemma ReportFinishes(s: State, block: int, fileId: string)
    requires UniqueFiles(s.leases) && fileId in DeletableAll(s.leases, block, |s.leases|)
    ensures FileDone(Checked(s, block).leases, fileId)
  {
    ReportedIff(s.leases, block, |s.leases|, fileId);
    var k :| 0 <= k < |s.leases| && s.leases[k].fileId == fileId && ReportsDeletable(s.leases[k], block);
    assert DoneWith(Ticked(s.leases[k], block));
  }

  ghost predicate UniqueFiles(leases: seq<Lease>) {
    forall j, k :: 0 <= j < k < |leases| ==> leases[j].fileId != leases[k].fileId
  }

  lemma StepKeepsDone(cfg: Config, s: State, op: Op, fileId: string)
    requires FileDone(s.leases, fileId) && !Reopens(cfg, s, op, fileId)
    ensures FileDone(After(cfg, s, op).leases, fileId)
  {
  }

  lemma {:induction false} RunKeepsDone(cfg: Config, s: State, ops: seq<Op>, fileId: string)
    requires FileDone(s.leases, fileId) && StaysClosed(cfg, s, ops, fileId)
    ensures FileDone(AfterAll(cfg, s, ops).leases, fileId)
  {
    if ops != [] {
      var front := ops[..|ops| - 1];
      forall k | 0 <= k < |front| ensures !Reopens(cfg, AfterAll(cfg, s, front[..k]), front[k], fileId) {
        assert front[..k] == ops[..k];
      }
      RunKeepsDone(cfg, s, front, fileId);
      StepKeepsDone(cfg, AfterAll(cfg, s, front), ops[|ops| - 1], fileId);
    }
  }

  /** Once reported, a file is not reported again until its lease is renewed or created anew, at whatever heights. */
  lemma ReportedOnce(cfg: Config, s: State, block: int, ops: seq<Op>, next: int, fileId: string)
    requires UniqueFiles(s.leases) && fileId in DeletableAll(s.leases, block, |s.leases|)
    requires StaysClosed(cfg, Checked(s, block), ops, fileId)
    ensures var later := AfterAll(cfg, Checked(s, block), ops).leases;
            fileId !in DeletableAll(later, next, |later|)
  {
    ReportFinishes(s, block, fileId);
    RunKeepsDone(cfg, Checked(s, block), ops, fileId);
    var later := AfterAll(cfg, Checked(s, block), ops).leases;
    ReportedIff(later, next, |later|, fileId);
  }

  /** A file is reported only once its paid time and its grace are over. */
  lemma ReportedInTime(s: State, block: int, fileId: string)
    requires fileId in DeletableAll(s.leases, block, |s.leases|)
    ensures exists k :: 0 <= k < |s.leases| && s.leases[k].fileId == fileId && Live(s.leases[k])
                        && block >= s.leases[k].paidThrough + s.leases[k].grace
  {
    ReportedIff(s.leases, block, |s.leases|, fileId);
  }

  lemma StepKeepsUnique(cfg: Config, s: State, op: Op)
    requires UniqueFiles(s.leases)
    ensures UniqueFiles(After(cfg, s, op).leases)
  {
  }

  lemma {:induction false} RunsKeepUnique(cfg: Config, ops: seq<Op>)
    ensures UniqueFiles(AfterAll(cfg, State([], []), ops).leases)
  {
    if ops != [] {
      RunsKeepUnique(cfg, ops[..|ops| - 1]);
      StepKeepsUnique(cfg, AfterAll(cfg, State([], []), ops[..|ops| - 1]), ops[|ops| - 1]);
    }
  }

  lemma {:induction false} AfterAllConcat(cfg: Config, s: State, a: seq<Op>, b: seq<Op>)
    ensures AfterAll(cfg, s, a + b) == AfterAll(cfg, AfterAll(cfg, s, a), b)
  {
    if b == [] {
      assert a + b == a;
    } else {
      assert (a + b)[..|a + b| - 1] == a + b[..|b| - 1];
      AfterAllConcat(cfg, s, a, b[..|b| - 1]);
    }
  }

  /** What a check at `block` reports after the operations, from the empty manager on. */
  function Reports(cfg: Config, ops: seq<Op>, block: int): seq<string> {
    var leases := AfterAll(cfg, State([], []), ops).leases;
    DeletableAll(leases, block, |leases|)
  }

  /** On every run, between two reports of a file its lease was renewed or created anew, whatever the heights. */
  lemma ReportsAreSeparated(cfg: Config, before: seq<Op>, block: int, between: seq<Op>, next: int, fileId: string)
    requires fileId in Reports(cfg, before, block)
    requires fileId in Reports(cfg, before + [Check(block)] + between, next)
    ensures !StaysClosed(cfg, AfterAll(cfg, State([], []), before + [Check(block)]), between, fileId)
  {
    var s := AfterAll(cfg, State([], []), before);
    RunsKeepUnique(cfg, before);
    AfterOneMore(cfg, State([], []), before, Check(block));
    AfterAllConcat(cfg, State([], []), before + [Check(block)], between);
    if StaysClosed(cfg, Checked(s, block), between, fileId) {
      ReportedOnce(cfg, s, block, between, next, fileId);
    }
  }
}
