/**
  The terms of a lease in dates and payments: which requests are accepted, and that over every run a lease is paid
  through its creation height plus all blocks paid for.
 */
module LeaseTerms {
  import opened StorageLease
  import opened LeaseRuns

  /** The file has a lease that is neither deleted nor cancelled. */
  ghost predicate HasLive(s: State, fileId: string) {
    exists k :: 0 <= k < |s.leases| && s.leases[k].fileId == fileId
                && s.leases[k].status != Deleted && s.leases[k].status != StorageLease.Cancelled
  }

  ghost predicate HasLease(s: State, fileId: string) {
    exists k :: 0 <= k < |s.leases| && s.leases[k].fileId == fileId
  }

  lemma FoundIs(s: State, fileId: string, k: nat)
    requires UniqueFiles(s.leases) && k < |s.leases| && s.leases[k].fileId == fileId
    ensures Find(s.leases, fileId, 0) == k
  {
  }

  /** What replacing or adding one lease leaves alone. */
  ghost predicate OtherLeasesKept(s: State, t: State, fileId: string) {
    && (forall l :: l in s.leases && l.fileId != fileId ==> l in t.leases)
    && (forall l :: l in t.leases && l.fileId != fileId ==> l in s.leases)
  }

  lemma PlacedKeeps(s: State, k: nat, l: Lease, t: seq<Lease>)
    requires UniqueFiles(s.leases) && k <= |s.leases| && (k < |s.leases| ==> s.leases[k].fileId == l.fileId)
    requires t == if k < |s.leases| then s.leases[k := l] else s.leases + [l]
    ensures l in t && OtherLeasesKept(s, State(t, s.events), l.fileId)
  {
    assert t[k] == l;
    forall m | m in s.leases && m.fileId != l.fileId ensures m in t {
      var j :| 0 <= j < |s.leases| && s.leases[j] == m;
      assert t[j] == m;
    }
  }

  /** A lease is created exactly when the file has no live one and the term is long enough. */
  lemma CreateIff(cfg: Config, s: State, fileId: string, owner: string, sizeMb: real, blocks: int, payment: real,
                  now: int)
    requires UniqueFiles(s.leases)
    ensures var (r, t) := CreateLease(cfg, s, fileId, owner, sizeMb, blocks, payment, now);
            && (r == AlreadyActive <==> HasLive(s, fileId))
            && (r == TooShort <==> !HasLive(s, fileId) && blocks < cfg.minRenewal)
            && (r == Done <==> !HasLive(s, fileId) && blocks >= cfg.minRenewal)
            && (r != Done ==> t == s)
            && (r == Done ==>
                  && Lease(fileId, owner, sizeMb, now + blocks, cfg.grace, cfg.warning, Active, payment, 0) in t.leases
                  && OtherLeasesKept(s, t, fileId)
                  && t.events == s.events + [Event(fileId, now, Created, owner, payment, now + blocks)])
  {
    var k := Find(s.leases, fileId, 0);
    if HasLive(s, fileId) {
      var j :| 0 <= j < |s.leases| && s.leases[j].fileId == fileId && Live(s.leases[j]);
      FoundIs(s, fileId, j);
    }
    PlacedKeeps(s, k, NewLease(cfg, fileId, owner, sizeMb, blocks, payment, now),
                Placed(s.leases, NewLease(cfg, fileId, owner, sizeMb, blocks, payment, now)));
  }

  /** A renewal is accepted exactly for a live lease and a term within the limits; it adds term and payment. */
  lemma RenewIff(cfg: Config, s: State, fileId: string, payer: string, blocks: int, payment: real, now: int, l: Lease)
    requires UniqueFiles(s.leases) && (HasLease(s, fileId) ==> l in s.leases && l.fileId == fileId)
    ensures var (r, t) := RenewLease(cfg, s, fileId, payer, blocks, payment, now);
            && (r == NotFound <==> !HasLease(s, fileId))
            && (r == Closed <==> HasLease(s, fileId) && !HasLive(s, fileId))
            && (r == TooShort <==> HasLive(s, fileId) && blocks < cfg.minRenewal)
            && (r == TooLong <==> HasLive(s, fileId) && cfg.minRenewal <= blocks && cfg.maxRenewal < blocks)
            && (r == Done <==> HasLive(s, fileId) && cfg.minRenewal <= blocks <= cfg.maxRenewal)
            && (r != Done ==> t == s)
            && (r == Done ==>
                  && Lease(fileId, l.owner, l.sizeMb, l.paidThrough + blocks, l.grace, l.warning, Active,
                           l.totalPaid + payment, l.renewals + 1) in t.leases
                  && OtherLeasesKept(s, t, fileId)
                  && t.events == s.events + [Event(fileId, now, Renewed, payer, payment, l.paidThrough + blocks)])
  {
    var k := Find(s.leases, fileId, 0);
    if HasLease(s, fileId) {
      var j :| 0 <= j < |s.leases| && s.leases[j] == l;
      FoundIs(s, fileId, j);
      assert HasLive(s, fileId) <==> Live(l);
      PlacedKeeps(s, k, Extended(l, blocks, payment), s.leases[k := Extended(l, blocks, payment)]);
    }
  }

  /** Only the owner cancels, and only a live lease; nothing but its status changes. */
  lemma CancelIff(s: State, fileId: string, owner: string, now: int, l: Lease)
    requires UniqueFiles(s.leases) && (HasLease(s, fileId) ==> l in s.leases && l.fileId == fileId)
    ensures var (r, t) := CancelLease(s, fileId, owner, now);
            && (r == NotFound <==> !HasLease(s, fileId))
            && (r == NotOwner <==> HasLease(s, fileId) && l.owner != owner)
            && (r == Done <==> HasLive(s, fileId) && l.owner == owner)
            && (r != Done ==> t == s)
            && (r == Done ==>
                  && l.(status := StorageLease.Cancelled) in t.leases && OtherLeasesKept(s, t, fileId)
                  && t.events == s.events + [Event(fileId, now, HasBeenCancelled, owner, 0.0, 0)])
  {
    var k := Find(s.leases, fileId, 0);
    if HasLease(s, fileId) {
      var j :| 0 <= j < |s.leases| && s.leases[j] == l;
      FoundIs(s, fileId, j);
      assert HasLive(s, fileId) <==> Live(l);
      PlacedKeeps(s, k, l.(status := StorageLease.Cancelled), s.leases[k := l.(status := StorageLease.Cancelled)]);
    }
  }

  /** Deleting marks the lease of the file, if there is one, and nothing else. */
  lemma DeleteIs(s: State, fileId: string, now: int, l: Lease)
    requires UniqueFiles(s.leases) && (HasLease(s, fileId) ==> l in s.leases && l.fileId == fileId)
    ensures var t := MarkedDeleted(s, fileId, now);
            && (!HasLease(s, fileId) ==> t == s)
            && (HasLease(s, fileId) ==>
                  && l.(status := Deleted) in t.leases && OtherLeasesKept(s, t, fileId)
                  && t.events == s.events + [Event(fileId, now, HasBeenDeleted, "", 0.0, 0)])
  {
    var k := Find(s.leases, fileId, 0);
    if HasLease(s, fileId) {
      var j :| 0 <= j < |s.leases| && s.leases[j] == l;
      FoundIs(s, fileId, j);
      PlacedKeeps(s, k, l.(status := Deleted), s.leases[k := l.(status := Deleted)]);
    }
  }

  ghost predicate Running(l: Lease) { l.status == Active || l.status == Warning }

  ghost predicate RunsOut(l: Lease, block: int) { Running(l) && l.paidThrough <= block }

  ghost predicate GraceEnds(l: Lease, block: int) {
    l.paidThrough + l.grace <= block && (l.status == Expired || RunsOut(l, block))
  }

  /** What a check notes of a lease: each status it reaches at this block, with no payer and no payment. */
  lemma NotedIff(l: Lease, block: int, e: Event)
    ensures e in TickEvents(l, block)
            <==> && e == Event(l.fileId, block, e.kind, "", 0.0, 0)
                 && match e.kind
                    case WarningIssued => l.status == Active && l.paidThrough - l.warning <= block < l.paidThrough
                    case HasExpired => RunsOut(l, block)
                    case NowDeletable => GraceEnds(l, block)
                    case _ => false
  {
  }

  lemma ReportsIff(l: Lease, block: int)
    ensures ReportsExpired(l, block) <==> RunsOut(l, block)
    ensures ReportsDeletable(l, block) <==> GraceEnds(l, block)
  {
  }

  /** A check lists the files whose leases run out, and no others. */
  lemma {:induction false} ListedExpiredIff(leases: seq<Lease>, block: int, n: nat, fileId: string)
    requires n <= |leases|
    ensures fileId in ExpiredAll(leases, block, n)
            <==> exists k :: 0 <= k < n && leases[k].fileId == fileId && RunsOut(leases[k], block)
  {
    if n > 0 {
      ListedExpiredIff(leases, block, n - 1, fileId);
      ReportsIff(leases[n - 1], block);
    }
  }

  /** And those whose grace ends. */
  lemma {:induction false} ListedDeletableIff(leases: seq<Lease>, block: int, n: nat, fileId: string)
    requires n <= |leases|
    ensures fileId in DeletableAll(leases, block, n)
            <==> exists k :: 0 <= k < n && leases[k].fileId == fileId && GraceEnds(leases[k], block)
  {
    if n > 0 {
      ListedDeletableIff(leases, block, n - 1, fileId);
      ReportsIff(leases[n - 1], block);
    }
  }

  /** Reports and notes come in the order of the leases, and an expiry is noted before the deletability it brings. */
  lemma {:induction false} InLeaseOrder(leases: seq<Lease>, block: int, i: nat, n: nat)
    requires i < n <= |leases|
    ensures EventsAll(leases, block, i) + TickEvents(leases[i], block) <= EventsAll(leases, block, n)
    ensures ExpiredAll(leases, block, i) <= ExpiredAll(leases, block, n)
    ensures DeletableAll(leases, block, i) <= DeletableAll(leases, block, n)
    ensures RunsOut(leases[i], block) && GraceEnds(leases[i], block) ==>
              TickEvents(leases[i], block) == [Event(leases[i].fileId, block, HasExpired, "", 0.0, 0),
                                               Event(leases[i].fileId, block, NowDeletable, "", 0.0, 0)]
  {
    if i < n - 1 {
      InLeaseOrder(leases, block, i, n - 1);
    }
  }

  /** On every run the log of events only grows. */
  lemma {:induction false} LogOnlyGrows(cfg: Config, s: State, ops: seq<Op>)
    ensures s.events <= AfterAll(cfg, s, ops).events
  {
    if ops != [] {
      LogOnlyGrows(cfg, s, ops[..|ops| - 1]);
      StepKeepsLog(cfg, AfterAll(cfg, s, ops[..|ops| - 1]), ops[|ops| - 1]);
    }
  }

  lemma StepKeepsLog(cfg: Config, s: State, op: Op)
    ensures s.events <= After(cfg, s, op).events
  {
  }

  // ----- what has been paid for

  /** The operation is an accepted renewal of the file's lease. */
  predicate Renews(cfg: Config, s: State, op: Op, fileId: string) {
    op.Renew? && op.fileId == fileId && RenewLease(cfg, s, fileId, op.payer, op.blocks, op.payment, op.now).0.Done?
  }

  predicate Creates(cfg: Config, s: State, op: Op, fileId: string) {
    && op.Create? && op.fileId == fileId
    && CreateLease(cfg, s, fileId, op.owner, op.sizeMb, op.blocks, op.payment, op.now).0.Done?
  }

  /** The states the operations of a run from the empty manager find. */
  ghost function Found(cfg: Config, ops: seq<Op>): (found: seq<State>)
    ensures |found| == |ops| && forall k :: 0 <= k < |ops| ==> found[k] == AfterAll(cfg, State([], []), ops[..k])
  {
    seq(|ops|, k requires 0 <= k < |ops| => AfterAll(cfg, State([], []), ops[..k]))
  }

  /** The blocks, the money and the number of the accepted renewals among the operations from `c` on. */
  ghost function RenewedBlocks(cfg: Config, found: seq<State>, ops: seq<Op>, c: nat, fileId: string): int
    requires |found| == |ops|
  {
    if |ops| <= c then 0
    else
      var last := |ops| - 1;
      RenewedBlocks(cfg, found[..last], ops[..last], c, fileId)
      + if Renews(cfg, found[last], ops[last], fileId) then ops[last].blocks else 0
  }

  ghost function RenewedMoney(cfg: Config, found: seq<State>, ops: seq<Op>, c: nat, fileId: string): real
    requires |found| == |ops|
  {
    if |ops| <= c then 0.0
    else
      var last := |ops| - 1;
      RenewedMoney(cfg, found[..last], ops[..last], c, fileId)
      + if Renews(cfg, found[last], ops[last], fileId) then ops[last].payment else 0.0
  }

  ghost function RenewedTimes(cfg: Config, found: seq<State>, ops: seq<Op>, c: nat, fileId: string): nat
    requires |found| == |ops|
  {
    if |ops| <= c then 0
    else
      var last := |ops| - 1;
      RenewedTimes(cfg, found[..last], ops[..last], c, fileId)
      + if Renews(cfg, found[last], ops[last], fileId) then 1 else 0
  }

  /** The lease carries the terms of creation `c`, the last one of its file, and of everything paid since. */
  ghost predicate TermsOf(cfg: Config, found: seq<State>, ops: seq<Op>, c: nat, l: Lease)
    requires |found| == |ops|
  {
    && c < |ops| && Creates(cfg, found[c], ops[c], l.fileId)
    && (forall j :: c < j < |ops| ==> !Creates(cfg, found[j], ops[j], l.fileId))
    && l.owner == ops[c].owner && l.sizeMb == ops[c].sizeMb && l.grace == cfg.grace && l.warning == cfg.warning
    && l.paidThrough == ops[c].now + ops[c].blocks + RenewedBlocks(cfg, found, ops, c + 1, l.fileId)
    && l.totalPaid == ops[c].payment + RenewedMoney(cfg, found, ops, c + 1, l.fileId)
    && l.renewals == RenewedTimes(cfg, found, ops, c + 1, l.fileId)
  }

  lemma TermsBegin(cfg: Config, found: seq<State>, ops: seq<Op>, l: Lease)
    requires |found| == |ops| > 0 && Creates(cfg, found[|ops| - 1], ops[|ops| - 1], l.fileId)
    requires IsNew(cfg, ops[|ops| - 1], l)
    ensures TermsOf(cfg, found, ops, |ops| - 1, l)
  {
  }

  lemma TermsGoOn(cfg: Config, found: seq<State>, ops: seq<Op>, c: nat, m: Lease, l: Lease)
    requires |found| == |ops| > 0 && TermsOf(cfg, found[..|ops| - 1], ops[..|ops| - 1], c, m)
    requires !Creates(cfg, found[|ops| - 1], ops[|ops| - 1], l.fileId)
    requires Continues(cfg, found[|ops| - 1], ops[|ops| - 1], m, l)
    ensures TermsOf(cfg, found, ops, c, l)
  {
    var last := |ops| - 1;
    forall j | c < j < |ops| ensures !Creates(cfg, found[j], ops[j], l.fileId) {
      assert j < last ==> found[j] == found[..last][j] && ops[j] == ops[..last][j];
    }
  }

  /** `l` is `m` after the operation, apart from its status. */
  ghost predicate Continues(cfg: Config, s: State, op: Op, m: Lease, l: Lease) {
    && m.fileId == l.fileId && m.owner == l.owner && m.sizeMb == l.sizeMb
    && m.grace == l.grace && m.warning == l.warning
    && l.paidThrough == m.paidThrough + (if Renews(cfg, s, op, l.fileId) then op.blocks else 0)
    && l.totalPaid == m.totalPaid + (if Renews(cfg, s, op, l.fileId) then op.payment else 0.0)
    && l.renewals == m.renewals + (if Renews(cfg, s, op, l.fileId) then 1 else 0)
  }

  ghost predicate IsNew(cfg: Config, op: Op, l: Lease) {
    && op.Create?
    && l == Lease(l.fileId, op.owner, op.sizeMb, op.now + op.blocks, cfg.grace, cfg.warning, Active, op.payment, 0)
  }

  lemma CreateOnLease(cfg: Config, s: State, op: Op, t: State, j: nat)
    requires UniqueFiles(s.leases) && op.Create? && t == After(cfg, s, op) && j < |t.leases|
    ensures Creates(cfg, s, op, t.leases[j].fileId) ==> IsNew(cfg, op, t.leases[j])
    ensures !Creates(cfg, s, op, t.leases[j].fileId) ==> j < |s.leases| && t.leases[j] == s.leases[j]
  {
    if j < |s.leases| && s.leases[j].fileId == op.fileId {
      FoundIs(s, op.fileId, j);
    }
  }

  lemma RenewOnLease(cfg: Config, s: State, op: Op, t: State, j: nat)
    requires UniqueFiles(s.leases) && op.Renew? && t == After(cfg, s, op) && j < |t.leases|
    ensures j < |s.leases| && Continues(cfg, s, op, s.leases[j], t.leases[j])
  {
    if s.leases[j].fileId == op.fileId {
      FoundIs(s, op.fileId, j);
    }
  }

  lemma OtherOnLease(cfg: Config, s: State, op: Op, t: State, j: nat)
    requires !op.Create? && !op.Renew? && t == After(cfg, s, op) && j < |t.leases|
    ensures j < |s.leases| && Continues(cfg, s, op, s.leases[j], t.leases[j])
  {
  }

  /** What one operation can make of the lease of a file: new terms, more of the old ones, or another status. */
  lemma StepOnLease(cfg: Config, s: State, op: Op, l: Lease, t: State) returns (m: Lease)
    requires UniqueFiles(s.leases) && t == After(cfg, s, op) && l in t.leases
    ensures Creates(cfg, s, op, l.fileId) ==> IsNew(cfg, op, l)
    ensures !Creates(cfg, s, op, l.fileId) ==> m in s.leases && Continues(cfg, s, op, m, l)
  {
    var j :| 0 <= j < |t.leases| && t.leases[j] == l;
    if op.Create? {
      CreateOnLease(cfg, s, op, t, j);
    } else if op.Renew? {
      RenewOnLease(cfg, s, op, t, j);
    } else {
      OtherOnLease(cfg, s, op, t, j);
    }
    m := if j < |s.leases| then s.leases[j] else l;
  }

  lemma FoundBefore(cfg: Config, ops: seq<Op>, n: nat)
    requires n <= |ops|
    ensures Found(cfg, ops)[..n] == Found(cfg, ops[..n])
  {
    forall k | 0 <= k < n ensures Found(cfg, ops)[k] == Found(cfg, ops[..n])[k] {
      assert ops[..n][..k] == ops[..k];
    }
  }

  /** On every run from the empty manager a lease is paid through its creation height plus all blocks paid for since. */
  lemma {:induction false} PaidThroughIsAccounted(cfg: Config, ops: seq<Op>, l: Lease) returns (c: nat)
    requires l in AfterAll(cfg, State([], []), ops).leases
    ensures TermsOf(cfg, Found(cfg, ops), ops, c, l)
  {
    var last := |ops| - 1;
    var found := Found(cfg, ops);
    RunsKeepUnique(cfg, ops[..last]);
    FoundBefore(cfg, ops, last);
    var m := StepOnLease(cfg, found[last], ops[last], l, AfterAll(cfg, State([], []), ops));
    if Creates(cfg, found[last], ops[last], l.fileId) {
      c := last;
      TermsBegin(cfg, found, ops, l);
    } else {
      c := PaidThroughIsAccounted(cfg, ops[..last], m);
      TermsGoOn(cfg, found, ops, c, m, l);
    }
  }
}
