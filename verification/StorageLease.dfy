/**
  Storage leases: paid commitments to keep a file, and the per-block tick that moves them through warning,
  expiry and eligibility for deletion.
 */
module StorageLease {

  datatype Status = Active | Warning | Expired | DeletionEligible | Deleted | Cancelled

  datatype Lease = Lease(fileId: string, owner: string, sizeMb: real, paidThrough: int, grace: int, warning: int,
                         status: Status, totalPaid: real, renewals: nat)

  datatype Kind = Created | Renewed | WarningIssued | HasExpired | NowDeletable | HasBeenDeleted | HasBeenCancelled

  datatype Event = Event(fileId: string, block: int, kind: Kind, payer: string, amount: real, newPaidThrough: int)

  datatype Config = Config(grace: int, warning: int, minRenewal: int, maxRenewal: int)

  /** Leases in order of first creation, one for each file, and the audit events. */
  datatype State = State(leases: seq<Lease>, events: seq<Event>)

  datatype Outcome = Done | AlreadyActive | TooShort | TooLong | NotFound | Closed | NotOwner

  // ----- one lease

  function DeletionEligibleAt(l: Lease): int { l.paidThrough + l.grace }
  function WarningAt(l: Lease): int { l.paidThrough - l.warning }
  predicate IsDeletable(l: Lease, block: int) { block >= DeletionEligibleAt(l) }
  predicate IsExpired(l: Lease, block: int) { block >= l.paidThrough }
  predicate IsInWarning(l: Lease, block: int) { WarningAt(l) <= block < l.paidThrough }

  predicate Live(l: Lease) { !l.status.Deleted? && !l.status.Cancelled? }

  /** The three steps a live lease takes at a block. */
  function Warned(l: Lease, block: int): Lease {
    if l.status.Active? && IsInWarning(l, block) then l.(status := Warning) else l
  }

  predicate Expires(l: Lease, block: int) { (l.status.Active? || l.status.Warning?) && IsExpired(l, block) }

  function Lapsed(l: Lease, block: int): Lease {
    if Expires(l, block) then l.(status := Expired) else l
  }

  predicate TurnsDeletable(l: Lease, block: int) { l.status.Expired? && IsDeletable(l, block) }

  function Released(l: Lease, block: int): Lease {
    if TurnsDeletable(l, block) then l.(status := DeletionEligible) else l
  }

  function Ticked(l: Lease, block: int): Lease {
    if Live(l) then Released(Lapsed(Warned(l, block), block), block) else l
  }

  predicate ReportsExpired(l: Lease, block: int) { Live(l) && Expires(Warned(l, block), block) }

  predicate ReportsDeletable(l: Lease, block: int) {
    Live(l) && TurnsDeletable(Lapsed(Warned(l, block), block), block)
  }

  function Note(l: Lease, block: int, kind: Kind): Event { Event(l.fileId, block, kind, "", 0.0, 0) }

  function TickEvents(l: Lease, block: int): seq<Event> {
    (if Live(l) && l.status.Active? && IsInWarning(l, block) then [Note(l, block, WarningIssued)] else [])
    + (if ReportsExpired(l, block) then [Note(l, block, HasExpired)] else [])
    + (if ReportsDeletable(l, block) then [Note(l, block, NowDeletable)] else [])
  }

  // ----- all leases, the first `n` of them

  function TickedAll(leases: seq<Lease>, block: int, n: nat): (ticked: seq<Lease>)
    requires n <= |leases|
    ensures |ticked| == n && forall k :: 0 <= k < n ==> ticked[k] == Ticked(leases[k], block)
  {
    if n == 0 then [] else TickedAll(leases, block, n - 1) + [Ticked(leases[n - 1], block)]
  }

  function EventsAll(leases: seq<Lease>, block: int, n: nat): seq<Event>
    requires n <= |leases|
  {
    if n == 0 then [] else EventsAll(leases, block, n - 1) + TickEvents(leases[n - 1], block)
  }

  function ExpiredAll(leases: seq<Lease>, block: int, n: nat): seq<string>
    requires n <= |leases|
  {
    if n == 0 then []
    else
      ExpiredAll(leases, block, n - 1)
      + (if ReportsExpired(leases[n - 1], block) then [leases[n - 1].fileId] else [])
  }

  function DeletableAll(leases: seq<Lease>, block: int, n: nat): seq<string>
    requires n <= |leases|
  {
    if n == 0 then []
    else
      DeletableAll(leases, block, n - 1)
      + (if ReportsDeletable(leases[n - 1], block) then [leases[n - 1].fileId] else [])
  }

  function Checked(s: State, block: int): State {
    State(TickedAll(s.leases, block, |s.leases|), s.events + EventsAll(s.leases, block, |s.leases|))
  }

  // ----- what the other operations do

  function Find(leases: seq<Lease>, fileId: string, n: nat): (k: nat)
    requires n <= |leases|
    ensures n <= k <= |leases| && (k < |leases| ==> leases[k].fileId == fileId)
    ensures forall j :: n <= j < k ==> leases[j].fileId != fileId
    decreases |leases| - n
  {
    if n == |leases| then n
    else if leases[n].fileId == fileId then n
    else Find(leases, fileId, n + 1)
  }

  function NewLease(cfg: Config, fileId: string, owner: string, sizeMb: real, blocks: int, payment: real, now: int):
    Lease
  {
    Lease(fileId, owner, sizeMb, now + blocks, cfg.grace, cfg.warning, Active, payment, 0)
  }

  function Placed(leases: seq<Lease>, l: Lease): seq<Lease> {
    var k := Find(leases, l.fileId, 0);
    if k < |leases| then leases[k := l] else leases + [l]
  }

  function CreateLease(cfg: Config, s: State, fileId: string, owner: string, sizeMb: real, blocks: int, payment: real,
                       now: int):
    (Outcome, State)
  {
    var k := Find(s.leases, fileId, 0);
    if k < |s.leases| && Live(s.leases[k]) then (AlreadyActive, s)
    else if blocks < cfg.minRenewal then (TooShort, s)
    else
      var l := NewLease(cfg, fileId, owner, sizeMb, blocks, payment, now);
      (Done, State(Placed(s.leases, l), s.events + [Event(fileId, now, Created, owner, payment, l.paidThrough)]))
  }

  function Extended(l: Lease, blocks: int, payment: real): Lease {
    l.(paidThrough := l.paidThrough + blocks, totalPaid := l.totalPaid + payment,
       renewals := l.renewals + 1, status := Active)
  }

  function RenewLease(cfg: Config, s: State, fileId: string, payer: string, blocks: int, payment: real, now: int):
    (Outcome, State)
  {
    var k := Find(s.leases, fileId, 0);
    if k == |s.leases| then (NotFound, s)
    else if !Live(s.leases[k]) then (Closed, s)
    else if blocks < cfg.minRenewal then (TooShort, s)
    else if blocks > cfg.maxRenewal then (TooLong, s)
    else
      var l := Extended(s.leases[k], blocks, payment);
      (Done, State(s.leases[k := l], s.events + [Event(fileId, now, Renewed, payer, payment, l.paidThrough)]))
  }

  function CancelLease(s: State, fileId: string, owner: string, now: int): (Outcome, State) {
    var k := Find(s.leases, fileId, 0);
    if k == |s.leases| then (NotFound, s)
    else if s.leases[k].owner != owner then (NotOwner, s)
    else if !Live(s.leases[k]) then (Closed, s)
    else (Done, State(s.leases[k := s.leases[k].(status := Cancelled)],
                      s.events + [Event(fileId, now, HasBeenCancelled, owner, 0.0, 0)]))
  }

  function MarkedDeleted(s: State, fileId: string, now: int): State {
    var k := Find(s.leases, fileId, 0);
    if k == |s.leases| then s
    else State(s.leases[k := s.leases[k].(status := Deleted)],
               s.events + [Event(fileId, now, HasBeenDeleted, "", 0.0, 0)])
  }

  class StorageLeaseManager {
    const cfg: Config
    var leases: seq<Lease>
    var events: seq<Event>

    function View(): State
      reads this
    {
      State(leases, events)
    }

    constructor (cfg: Config)
      ensures this.cfg == cfg && View() == State([], [])
    {
      this.cfg, leases, events := cfg, [], [];
    }

    method Create(fileId: string, owner: string, sizeMb: real, blocks: int, payment: real, now: int)
      returns (outcome: Outcome)
      modifies this
      ensures (outcome, View()) == CreateLease(cfg, old(View()), fileId, owner, sizeMb, blocks, payment, now)
    {
      var k := Find(leases, fileId, 0);
      if k < |leases| && Live(leases[k]) {
        return AlreadyActive;
      }
      if blocks < cfg.minRenewal {
        return TooShort;
      }
      var lease := NewLease(cfg, fileId, owner, sizeMb, blocks, payment, now);
      leases := if k < |leases| then leases[k := lease] else leases + [lease];
      Emit(Event(fileId, now, Created, owner, payment, lease.paidThrough));
      outcome := Done;
    }

    method Renew(fileId: string, payer: string, blocks: int, payment: real, now: int) returns (outcome: Outcome)
      modifies this
      ensures (outcome, View()) == RenewLease(cfg, old(View()), fileId, payer, blocks, payment, now)
    {
      var k := Find(leases, fileId, 0);
      if k == |leases| {
        return NotFound;
      }
      if !Live(leases[k]) {
        return Closed;
      }
      if blocks < cfg.minRenewal {
        return TooShort;
      }
      if blocks > cfg.maxRenewal {
        return TooLong;
      }
      var lease := leases[k].(paidThrough := leases[k].paidThrough + blocks, totalPaid := leases[k].totalPaid + payment,
                              renewals := leases[k].renewals + 1);
      if lease.status.Warning? || lease.status.Expired? || lease.status.DeletionEligible? {
        lease := lease.(status := Active);
      }
      leases := leases[k := lease];
      Emit(Event(fileId, now, Renewed, payer, payment, lease.paidThrough));
      outcome := Done;
    }

    method Cancel(fileId: string, owner: string, now: int) returns (outcome: Outcome)
      modifies this
      ensures (outcome, View()) == CancelLease(old(View()), fileId, owner, now)
    {
      var k := Find(leases, fileId, 0);
      if k == |leases| {
        return NotFound;
      }
      if leases[k].owner != owner {
        return NotOwner;
      }
      if !Live(leases[k]) {
        return Closed;
      }
      leases := leases[k := leases[k].(status := Cancelled)];
      Emit(Event(fileId, now, HasBeenCancelled, owner, 0.0, 0));
      outcome := Done;
    }

    method MarkDeleted(fileId: string, now: int)
      modifies this
      ensures View() == MarkedDeleted(old(View()), fileId, now)
    {
      var k := Find(leases, fileId, 0);
      if k < |leases| {
        leases := leases[k := leases[k].(status := Deleted)];
        Emit(Event(fileId, now, HasBeenDeleted, "", 0.0, 0));
      }
    }

    /** Advances every lease to a block; returns the files that just expired and those that just became deletable. */
    method CheckBlock(block: int) returns (expired: seq<string>, deletable: seq<string>)
      modifies this
      ensures View() == Checked(old(View()), block)
      ensures expired == ExpiredAll(old(leases), block, |old(leases)|)
      ensures deletable == DeletableAll(old(leases), block, |old(leases)|)
    {
      expired, deletable := [], [];
      ghost var start := leases;
      for n := 0 to |leases|
        invariant |leases| == |start|
        invariant forall k :: 0 <= k < n ==> leases[k] == Ticked(start[k], block)
        invariant forall k :: n <= k < |start| ==> leases[k] == start[k]
        invariant events == old(events) + EventsAll(start, block, n)
        invariant expired == ExpiredAll(start, block, n) && deletable == DeletableAll(start, block, n)
      {
        var becameExpired, becameDeletable := TickOne(n, block);
        if becameExpired {
          expired := expired + [leases[n].fileId];
        }
        if becameDeletable {
          deletable := deletable + [leases[n].fileId];
        }
      }
      assert leases == TickedAll(start, block, |start|);
    }

    method TickOne(n: nat, block: int) returns (becameExpired: bool, becameDeletable: bool)
      requires n < |leases|
      modifies this
      ensures leases == old(leases)[n := Ticked(old(leases)[n], block)]
      ensures events == old(events) + TickEvents(old(leases)[n], block)
      ensures becameExpired == ReportsExpired(old(leases)[n], block)
      ensures becameDeletable == ReportsDeletable(old(leases)[n], block)
    {
      becameExpired, becameDeletable := false, false;
      var lease := leases[n];
      if lease.status.Deleted? || lease.status.Cancelled? {
        return;
      }
      if lease.status.Active? && IsInWarning(lease, block) {
        lease := lease.(status := Warning);
        Emit(Note(lease, block, WarningIssued));
      }
      if (lease.status.Active? || lease.status.Warning?) && IsExpired(lease, block) {
        lease := lease.(status := Expired);
        becameExpired := true;
        Emit(Note(lease, block, HasExpired));
      }
      if lease.status.Expired? && IsDeletable(lease, block) {
        lease := lease.(status := DeletionEligible);
        becameDeletable := true;
        Emit(Note(lease, block, NowDeletable));
      }
      leases := leases[n := lease];
    }

    method Emit(event: Event)
      modifies `events
      ensures events == old(events) + [event]
    {
      events := events + [event];
    }
  }
}
