/** Conservation and solvency of the ledger over whole runs, and the unbonding delay. */
module LedgerRuns {
  import opened Basics
  import opened MapSums
  import opened Ledger

  ghost function QueueTotals(u: map<string, seq<Exit>>): map<string, real> {
    map a | a in u :: Principal(u[a])
  }

  /** Everything anyone owns, except ranking-only virtual stake. */
  ghost function Holdings(l: Ledger): real {
    Total(l.liquid) + Total(l.staked) + Total(QueueTotals(l.unbonding)) + Total(l.escrow)
  }

  ghost predicate Positive(q: seq<Exit>) {
    q != [] && forall e :: e in q ==> e.amount > 0.0
  }

  ghost predicate PositiveExits(u: map<string, seq<Exit>>) {
    forall a :: a in u ==> Positive(u[a])
  }

  /** Nothing is negative, except that stake may be short by up to `slack`. */
  ghost predicate Solvent(l: Ledger, slack: real) {
    && slack >= 0.0
    && AtLeast(l.liquid, 0.0) && AtLeast(l.escrow, 0.0) && AtLeast(l.staked, -slack)
    && PositiveExits(l.unbonding)
  }

  /** What the callers of the ledger never do: move a negative amount. */
  predicate Proper(op: Op) {
    match op
    case TransferOp(_, _, amount, _) => amount >= 0.0
    case StakeOp(_, amount, _) => amount >= 0.0
    case _ => true
  }

  /** A queued unstake that asks for no more than is staked. */
  predicate Exact(l: Ledger, op: Op) {
    op.UnstakeOp? ==> op.amount <= Get(l.staked, op.address)
  }

  /** How much an operation adds to or takes from the total, from its arguments and the balances it finds. */
  function Injected(l: Ledger, op: Op): real {
    match op
    case TransferOp(payer, _, amount, _) => if payer == SYSTEM then amount else 0.0
    case SlashOp(address) => -Get(l.staked, address)
    case PenaltyOp(miner, amount) =>
      var stake := Get(l.staked, miner);
      if stake > 0.0 then -Min(amount, stake + Get(l.liquid, miner))
      else -Max(0.0, Min(amount, stake + Get(l.liquid, miner)))
    case MaterializeOp(address, grant) =>
      // a stake that is short by dust is forgiven when nothing covers it
      Max(0.0, -(Get(l.staked, address) + MaterializeDraw(l, address, grant)))
    case PaymentOp(payer, _, modelId, amount, _, _) =>
      if payer == SYSTEM then Max(0.0, amount - EscrowPart(l, modelId, amount)) else 0.0
    case _ => 0.0
  }

  // ----- the queue

  lemma {:induction false} QueueSplits(q: seq<Exit>, height: int)
    ensures Principal(q) == Matured(q, height) + Principal(Pending(q, height))
  {
    if q != [] {
      var last := |q| - 1;
      QueueSplits(q[..last], height);
      if height < q[last].unlock {
        PrincipalOfAppend(Pending(q[..last], height), q[last]);
      } else {
        assert Pending(q, height) == Pending(q[..last], height);
      }
    }
  }

  lemma PrincipalOfAppend(q: seq<Exit>, e: Exit)
    ensures Principal(q + [e]) == Principal(q) + e.amount
  {
    assert (q + [e])[..|q|] == q;
  }

  lemma {:induction false} PendingIsFilter(q: seq<Exit>, height: int)
    ensures forall e :: e in Pending(q, height) <==> e in q && height < e.unlock
  {
    if q != [] {
      var last := |q| - 1;
      PendingIsFilter(q[..last], height);
      assert q == q[..last] + [q[last]];
    }
  }

  lemma {:induction false} MaturedNonNegative(q: seq<Exit>, height: int)
    requires forall e :: e in q ==> e.amount > 0.0
    ensures Matured(q, height) >= 0.0
  {
    if q != [] {
      var last := |q| - 1;
      assert q == q[..last] + [q[last]];
      MaturedNonNegative(q[..last], height);
    }
  }

  lemma QueueTotalsSet(u: map<string, seq<Exit>>, a: string, q: seq<Exit>)
    ensures Total(QueueTotals(u[a := q])) == Total(QueueTotals(u)) - Get(QueueTotals(u), a) + Principal(q)
    ensures Total(QueueTotals(u - {a})) == Total(QueueTotals(u)) - Get(QueueTotals(u), a)
  {
    TotalSet(QueueTotals(u), a, Principal(q));
    TotalWithout(QueueTotals(u), a);
    assert QueueTotals(u[a := q]) == QueueTotals(u)[a := Principal(q)];
    assert QueueTotals(u - {a}) == QueueTotals(u) - {a};
  }

  // ----- one operation

  /** Crediting matured exits moves them from the queue to the liquid balance and touches nothing else. */
  lemma FinalizeEffect(l: Ledger, address: string, height: int, slack: real)
    requires Solvent(l, slack)
    ensures var f := Finalize(l, address, height);
            && f.staked == l.staked && f.escrow == l.escrow && f.virtual == l.virtual && f.emitted == l.emitted
            && Get(f.liquid, address) == PreviewLiquid(l, address, height)
            && Queue(f, address) == Pending(Queue(l, address), height)
            && (forall a :: a != address ==> Get(f.liquid, a) == Get(l.liquid, a) && Queue(f, a) == Queue(l, a))
  {
    var q := Queue(l, address);
    if q != [] {
      MaturedNonNegative(q, height);
    }
  }

  lemma FinalizeSolvent(l: Ledger, address: string, height: int, slack: real)
    requires Solvent(l, slack)
    ensures Solvent(Finalize(l, address, height), slack)
  {
    PendingIsFilter(Queue(l, address), height);
  }

  lemma FinalizeConserves(l: Ledger, address: string, height: int, slack: real)
    requires Solvent(l, slack)
    ensures Holdings(Finalize(l, address, height)) == Holdings(l)
  {
    var q := Queue(l, address);
    if q != [] {
      MaturedNonNegative(q, height);
      QueueSplits(q, height);
      QueueTotalsSet(l.unbonding, address, Pending(q, height));
      TotalCredit(l.liquid, address, Matured(q, height));
    }
  }

  /** The three facts every debit starts from. */
  lemma FinalizeFacts(l: Ledger, address: string, height: int, slack: real)
    requires Solvent(l, slack)
    ensures Solvent(Finalize(l, address, height), slack)
    ensures Holdings(Finalize(l, address, height)) == Holdings(l)
    ensures Finalize(l, address, height).staked == l.staked && Finalize(l, address, height).escrow == l.escrow
  {
    FinalizeEffect(l, address, height, slack);
    FinalizeSolvent(l, address, height, slack);
    FinalizeConserves(l, address, height, slack);
  }

  lemma TransferStep(l: Ledger, payer: string, payee: string, amount: real, height: int, slack: real)
    requires Solvent(l, slack)
    ensures var t := Transfer(l, payer, payee, amount, height).0;
            && Holdings(t) == Holdings(l) + (if payer == SYSTEM then amount else 0.0)
            && (amount >= 0.0 ==> Solvent(t, slack))
  {
    if payer == SYSTEM {
      TotalCredit(l.liquid, payee, amount);
    } else {
      FinalizeFacts(l, payer, height, slack);
      var f := Finalize(l, payer, height);
      TotalCredit(f.liquid, payer, -amount);
      TotalCredit(Credit(f.liquid, payer, -amount), payee, amount);
    }
  }

  lemma MintStep(l: Ledger, miner: string, amount: real, toStake: bool, slack: real)
    requires Solvent(l, slack)
    ensures var t := Mint(l, miner, amount, toStake).0; Holdings(t) == Holdings(l) && Solvent(t, slack)
  {
    var pay := Affordable(l, amount);
    if amount > 0.0 && pay > 0.0 {
      var debited := Credit(l.liquid, GENESIS, -pay);
      TotalCredit(l.liquid, GENESIS, -pay);
      CreditAtLeast(l.liquid, GENESIS, -pay, 0.0);
      if toStake {
        TotalCredit(l.staked, miner, pay);
        StakeGrows(l.staked, miner, pay, slack);
      } else {
        TotalCredit(debited, miner, pay);
        StakeGrows(debited, miner, pay, 0.0);
      }
    }
  }

  /** A non-negative credit keeps every entry above a non-positive floor. */
  lemma StakeGrows(m: map<string, real>, k: string, v: real, slack: real)
    requires AtLeast(m, -slack) && v >= 0.0 && (k in m || v >= -slack)
    ensures AtLeast(Credit(m, k, v), -slack)
  {
    CreditAtLeast(m, k, v, -slack);
  }

  lemma UnstakeNowStep(l: Ledger, address: string, amount: real, slack: real)
    requires Solvent(l, slack) && amount >= 0.0
    ensures var t := UnstakeNow(l, address, amount).0; Holdings(t) == Holdings(l) && Solvent(t, slack)
  {
    if amount <= Get(l.staked, address) {
      TotalCredit(l.staked, address, -amount);
      TotalCredit(l.liquid, address, amount);
      CreditAtLeast(l.staked, address, -amount, -slack);
      CreditAtLeast(l.liquid, address, amount, 0.0);
    }
  }

  lemma QueueExitConserves(l: Ledger, address: string, e: Exit)
    ensures Holdings(QueueExit(l, address, e)) == Holdings(l)
  {
    var q := Queue(l, address);
    TotalCredit(l.staked, address, -e.amount);
    QueueTotalsSet(l.unbonding, address, q + [e]);
    PrincipalOfAppend(q, e);
  }

  lemma QueueExitSolvent(l: Ledger, address: string, e: Exit, slack: real)
    requires Solvent(l, slack) && e.amount > 0.0 && e.amount <= Get(l.staked, address) + slack
    ensures Solvent(QueueExit(l, address, e), slack)
  {
    assert Positive(Queue(l, address) + [e]);
    CreditAtLeast(l.staked, address, -e.amount, -slack);
  }

  lemma UnstakeStep(l: Ledger, address: string, amount: real, height: int, cooldown: int, slack: real)
    requires Solvent(l, slack)
    ensures var t := RequestUnstake(l, address, amount, height, cooldown).0;
            && Holdings(t) == Holdings(l)
            && (slack >= DUST || amount <= Get(l.staked, address) ==> Solvent(t, slack))
  {
    if amount > 0.0 && cooldown == 0 {
      UnstakeNowStep(l, address, amount, slack);
    } else if amount > 0.0 && cooldown > 0 {
      QueueExitConserves(l, address, Exit(amount, height + cooldown));
      if amount <= Get(l.staked, address) + slack {
        QueueExitSolvent(l, address, Exit(amount, height + cooldown), slack);
      }
    }
  }

  lemma SlashStep(l: Ledger, address: string, slack: real)
    requires Solvent(l, slack)
    ensures Holdings(SlashBootstrap(l, address)) == Holdings(l) - Get(l.staked, address)
    ensures Solvent(SlashBootstrap(l, address), slack)
  {
    TotalWithout(l.staked, address);
  }

  lemma MaterializeStep(l: Ledger, address: string, grant: real, slack: real)
    requires Solvent(l, slack)
    ensures var t := Materialize(l, address, grant);
            && Holdings(t) == Holdings(l) + Injected(l, MaterializeOp(address, grant))
            && Solvent(t, slack)
  {
    var minted, carried := MaterializeDraw(l, address, grant), Get(l.staked, address);
    SlashStep(l, address, slack);
    DrawStep(SlashBootstrap(l, address), minted, slack);
    if carried + minted > 0.0 {
      RestakeStep(DrawGenesis(SlashBootstrap(l, address), minted), address, carried + minted, slack);
    }
  }

  lemma RestakeStep(l: Ledger, address: string, amount: real, slack: real)
    requires Solvent(l, slack) && amount >= 0.0 && address !in l.staked && slack >= 0.0
    ensures var t := l.(staked := Credit(l.staked, address, amount));
            Holdings(t) == Holdings(l) + amount && Solvent(t, slack)
  {
    TotalCredit(l.staked, address, amount);
    StakeGrows(l.staked, address, amount, slack);
  }

  lemma DrawStep(l: Ledger, minted: real, slack: real)
    requires Solvent(l, slack) && minted <= Get(l.liquid, GENESIS)
    ensures Solvent(DrawGenesis(l, minted), slack)
    ensures Holdings(DrawGenesis(l, minted)) == Holdings(l) - Max(0.0, minted)
  {
    if minted > 0.0 {
      TotalCredit(l.liquid, GENESIS, -minted);
      CreditAtLeast(l.liquid, GENESIS, -minted, 0.0);
    }
  }

  lemma DepositStep(l: Ledger, payer: string, modelId: string, amount: real, height: int, slack: real)
    requires Solvent(l, slack)
    ensures var t := DepositEscrow(l, payer, modelId, amount, height).0; Holdings(t) == Holdings(l) && Solvent(t, slack)
  {
    if amount > 0.0 {
      FinalizeFacts(l, payer, height, slack);
      var f := Finalize(l, payer, height);
      TotalCredit(f.liquid, payer, -amount);
      TotalCredit(f.escrow, modelId, amount);
    }
  }

  lemma StakeStep(l: Ledger, address: string, amount: real, height: int, slack: real)
    requires Solvent(l, slack)
    ensures var t := Stake(l, address, amount, height).0;
            && Holdings(t) == Holdings(l) && (amount >= 0.0 ==> Solvent(t, slack))
  {
    FinalizeFacts(l, address, height, slack);
    var f := Finalize(l, address, height);
    TotalCredit(f.liquid, address, -amount);
    TotalCredit(f.staked, address, amount);
  }

  lemma PenaltyStep(l: Ledger, miner: string, amount: real, slack: real)
    requires Solvent(l, slack)
    ensures Holdings(Penalize(l, miner, amount)) == Holdings(l) + Injected(l, PenaltyOp(miner, amount))
    ensures Solvent(Penalize(l, miner, amount), slack)
  {
    TotalCredit(l.staked, miner, -PenaltyFromStake(l, miner, amount));
    TotalCredit(l.liquid, miner, -PenaltyFromLiquid(l, miner, amount));
  }

  lemma ReadiedStep(l: Ledger, owner: string, remainder: real, height: int, debitStake: bool, slack: real)
    requires Solvent(l, slack)
    ensures var r := Readied(l, owner, remainder, height, debitStake);
            Holdings(r) == Holdings(l) && Solvent(r, slack) && r.escrow == l.escrow
  {
    FinalizeFacts(l, owner, height, slack);
    var f := Finalize(l, owner, height);
    var take := Min(Max(0.0, remainder - Get(f.liquid, owner)), Get(f.staked, owner));
    TotalCredit(f.staked, owner, -take);
    TotalCredit(f.liquid, owner, take);
  }

  lemma PayFromEscrowStep(l: Ledger, modelId: string, miner: string, amount: real, slack: real)
    requires Solvent(l, slack) && amount <= Get(l.escrow, modelId)
    ensures var p := PayFromEscrow(l, modelId, miner, amount); Holdings(p) == Holdings(l) && Solvent(p, slack)
  {
    TotalCredit(l.escrow, modelId, -amount);
    TotalCredit(l.liquid, miner, amount);
  }

  lemma SettleStep(ready: Ledger, owner: string, miner: string, modelId: string, fromEscrow: real, remainder: real,
                   height: int, slack: real)
    requires Solvent(ready, slack) && fromEscrow <= Get(ready.escrow, modelId)
    ensures var t := Settle(ready, owner, miner, modelId, fromEscrow, remainder, height).0;
            && Holdings(t) == Holdings(ready) + (if owner == SYSTEM then Max(0.0, remainder) else 0.0)
            && Solvent(t, slack)
  {
    PayFromEscrowStep(ready, modelId, miner, fromEscrow, slack);
    if remainder > 0.0 {
      TransferStep(PayFromEscrow(ready, modelId, miner, fromEscrow), owner, miner, remainder, height, slack);
    }
  }

  lemma PaymentStep(l: Ledger, owner: string, miner: string, modelId: string, cost: real, height: int,
                    debitStake: bool, slack: real)
    requires Solvent(l, slack)
    ensures var t := PayForTraining(l, owner, miner, modelId, cost, height, debitStake).0;
            && Holdings(t) == Holdings(l) + Injected(l, PaymentOp(owner, miner, modelId, cost, height, debitStake))
            && Solvent(t, slack)
  {
    var fromEscrow := EscrowPart(l, modelId, cost);
    if cost > fromEscrow && owner != SYSTEM {
      ReadiedStep(l, owner, cost - fromEscrow, height, debitStake, slack);
      SettleStep(Readied(l, owner, cost - fromEscrow, height, debitStake), owner, miner, modelId, fromEscrow,
                 cost - fromEscrow, height, slack);
    } else {
      SettleStep(l, owner, miner, modelId, fromEscrow, cost - fromEscrow, height, slack);
    }
  }

  // ----- whole runs

  predicate MovesMoney(op: Op) {
    op.TransferOp? || op.DepositOp? || op.StakeOp? || op.PenaltyOp?
  }

  lemma MoveConserves(l: Ledger, op: Op, slack: real)
    requires Solvent(l, slack) && MovesMoney(op)
    ensures Holdings(Step(l, op)) == Holdings(l) + Injected(l, op)
    ensures Proper(op) ==> Solvent(Step(l, op), slack)
  {
    match op
    case TransferOp(payer, payee, amount, height) => TransferStep(l, payer, payee, amount, height, slack);
    case DepositOp(payer, modelId, amount, height) => DepositStep(l, payer, modelId, amount, height, slack);
    case StakeOp(address, amount, height) => StakeStep(l, address, amount, height, slack);
    case PenaltyOp(miner, amount) => PenaltyStep(l, miner, amount, slack);
  }

  lemma OtherConserves(l: Ledger, op: Op, slack: real)
    requires Solvent(l, slack) && !MovesMoney(op) && !op.PaymentOp?
    ensures Holdings(Step(l, op)) == Holdings(l) + Injected(l, op)
    ensures Proper(op) && (slack >= DUST || Exact(l, op)) ==> Solvent(Step(l, op), slack)
  {
    match op
    case MintOp(miner, amount, toStake) => MintStep(l, miner, amount, toStake, slack);
    case GrantVirtualOp(_, _) =>
    case FinalizeOp(address, height) => FinalizeFacts(l, address, height, slack);
    case UnstakeOp(address, amount, height, cooldown) => UnstakeStep(l, address, amount, height, cooldown, slack);
    case SlashOp(address) => SlashStep(l, address, slack);
    case MaterializeOp(address, grant) => MaterializeStep(l, address, grant, slack);
  }

  /** Each operation adds exactly what `Injected` says, and keeps every balance in range. */
  lemma StepConserves(l: Ledger, op: Op, slack: real)
    requires Solvent(l, slack)
    ensures Holdings(Step(l, op)) == Holdings(l) + Injected(l, op)
    ensures Proper(op) && (slack >= DUST || Exact(l, op)) ==> Solvent(Step(l, op), slack)
  {
    if op.PaymentOp? {
      PaymentStep(l, op.payer, op.miner, op.modelId, op.amount, op.height, op.debitStake, slack);
    } else if MovesMoney(op) {
      MoveConserves(l, op, slack);
    } else {
      OtherConserves(l, op, slack);
    }
  }

  /** What a whole run injects, operation by operation, each measured where it happens. */
  ghost function RunInjected(l: Ledger, ops: seq<Op>): real {
    if ops == [] then 0.0
    else RunInjected(l, ops[..|ops| - 1]) + Injected(Run(l, ops[..|ops| - 1]), ops[|ops| - 1])
  }

  ghost predicate ExactRun(l: Ledger, ops: seq<Op>) {
    ops != [] ==> ExactRun(l, ops[..|ops| - 1]) && Exact(Run(l, ops[..|ops| - 1]), ops[|ops| - 1])
  }

  /**
    Conservation over every run of proper operations: the total changes only by what is injected, and
    no balance goes negative, except stake by at most the unstake tolerance.
   */
  lemma {:induction false} RunsConserve(l: Ledger, ops: seq<Op>)
    requires Solvent(l, DUST) && forall op :: op in ops ==> Proper(op)
    ensures Holdings(Run(l, ops)) == Holdings(l) + RunInjected(l, ops)
    ensures Solvent(Run(l, ops), DUST)
  {
    if ops != [] {
      var last := |ops| - 1;
      assert ops[last] in ops && forall op :: op in ops[..last] ==> op in ops;
      RunsConserve(l, ops[..last]);
      StepConserves(Run(l, ops[..last]), ops[last], DUST);
    }
  }

  /** When no unstake asks for more than is staked, no balance ever goes negative at all. */
  lemma {:induction false} ExactRunsStaySolvent(l: Ledger, ops: seq<Op>)
    requires Solvent(l, 0.0) && (forall op :: op in ops ==> Proper(op)) && ExactRun(l, ops)
    ensures Solvent(Run(l, ops), 0.0)
  {
    if ops != [] {
      var last := |ops| - 1;
      assert ops[last] in ops && forall op :: op in ops[..last] ==> op in ops;
      ExactRunsStaySolvent(l, ops[..last]);
      StepConserves(Run(l, ops[..last]), ops[last], 0.0);
    }
  }

  /** The tolerance is the only way into the red: a queued unstake keeps stake non-negative iff it was exact. */
  lemma UnstakeKeepsStakeIffExact(l: Ledger, address: string, amount: real, height: int, cooldown: int)
    requires Solvent(l, 0.0)
    requires RequestUnstake(l, address, amount, height, cooldown).1.Accepted?
    ensures Solvent(RequestUnstake(l, address, amount, height, cooldown).0, 0.0) <==> amount <= Get(l.staked, address)
  {
    UnstakeStep(l, address, amount, height, cooldown, 0.0);
    var t := RequestUnstake(l, address, amount, height, cooldown).0;
    assert address in t.staked && t.staked[address] == Get(l.staked, address) - amount;
  }

  lemma RunSnoc(l: Ledger, ops: seq<Op>, op: Op)
    ensures Run(l, ops + [op]) == Step(Run(l, ops), op)
  {
    assert (ops + [op])[..|ops|] == ops;
  }

  // ----- the unbonding delay

  /** The highest height at which an operation credits matured exits, if it does. */
  predicate ActsBy(op: Op, height: int) {
    match op
    case TransferOp(_, _, _, h) => h <= height
    case FinalizeOp(_, h) => h <= height
    case DepositOp(_, _, _, h) => h <= height
    case StakeOp(_, _, h) => h <= height
    case PaymentOp(_, _, _, _, h, _) => h <= height
    case _ => true
  }

  lemma {:induction false} PendingTwice(q: seq<Exit>, h: int, height: int)
    requires h <= height
    ensures Pending(Pending(q, h), height) == Pending(q, height)
  {
    if q != [] {
      var last := |q| - 1;
      PendingTwice(q[..last], h, height);
      if h < q[last].unlock {
        var p := Pending(q[..last], h);
        assert (p + [q[last]])[..|p|] == p;
      } else {
        assert Pending(q, h) == Pending(q[..last], h);
      }
    }
  }

  lemma FinalizeKeepsLocked(l: Ledger, address: string, h: int, height: int, a: string)
    requires h <= height
    ensures Pending(Queue(Finalize(l, address, h), a), height) == Pending(Queue(l, a), height)
  {
    PendingTwice(Queue(l, address), h, height);
    assert Queue(Finalize(l, address, h), a) == if a == address then Pending(Queue(l, address), h) else Queue(l, a);
  }

  /** Whatever is still locked at `height` stays queued through every operation up to that height. */
  lemma StepKeepsLocked(l: Ledger, op: Op, height: int, a: string)
    requires ActsBy(op, height)
    ensures Pending(Queue(l, a), height) <= Pending(Queue(Step(l, op), a), height)
  {
    match op
    case TransferOp(payer, payee, amount, h) => TransferKeepsLocked(l, payer, payee, amount, h, height, a);
    case MintOp(_, _, _) =>
    case GrantVirtualOp(_, _) =>
    case FinalizeOp(address, h) => FinalizeKeepsLocked(l, address, h, height, a);
    case UnstakeOp(address, amount, h, cooldown) =>
      var q := Queue(l, address);
      assert (q + [Exit(amount, h + cooldown)])[..|q|] == q;
    case SlashOp(_) =>
    case MaterializeOp(_, _) =>
    case DepositOp(payer, _, _, h) => FinalizeKeepsLocked(l, payer, h, height, a);
    case StakeOp(address, _, h) => FinalizeKeepsLocked(l, address, h, height, a);
    case PenaltyOp(_, _) =>
    case PaymentOp(payer, miner, modelId, amount, h, debitStake) =>
      PaymentKeepsLocked(l, payer, miner, modelId, amount, h, debitStake, height, a);
  }

  lemma PaymentKeepsLocked(l: Ledger, owner: string, miner: string, modelId: string, cost: real, h: int,
                           debitStake: bool, height: int, a: string)
    requires h <= height
    ensures Pending(Queue(PayForTraining(l, owner, miner, modelId, cost, h, debitStake).0, a), height)
            == Pending(Queue(l, a), height)
  {
    var fromEscrow := EscrowPart(l, modelId, cost);
    ReadiedKeepsLocked(l, owner, cost - fromEscrow, h, debitStake, height, a);
    SettleKeepsLocked(ReadyFor(l, owner, modelId, cost, h, debitStake), owner, miner, modelId, fromEscrow,
                      cost - fromEscrow, h, height, a);
  }

  lemma SettleKeepsLocked(ready: Ledger, owner: string, miner: string, modelId: string, fromEscrow: real,
                          remainder: real, h: int, height: int, a: string)
    requires h <= height
    ensures Pending(Queue(Settle(ready, owner, miner, modelId, fromEscrow, remainder, h).0, a), height)
            == Pending(Queue(ready, a), height)
  {
    TransferKeepsLocked(PayFromEscrow(ready, modelId, miner, fromEscrow), owner, miner, remainder, h, height, a);
  }

  lemma ReadiedKeepsLocked(l: Ledger, owner: string, remainder: real, h: int, debitStake: bool, height: int, a: string)
    requires h <= height
    ensures Pending(Queue(Readied(l, owner, remainder, h, debitStake), a), height) == Pending(Queue(l, a), height)
  {
    FinalizeKeepsLocked(l, owner, h, height, a);
    assert Readied(l, owner, remainder, h, debitStake).unbonding == Finalize(l, owner, h).unbonding;
  }

  lemma TransferKeepsLocked(l: Ledger, payer: string, payee: string, amount: real, h: int, height: int, a: string)
    requires h <= height
    ensures Pending(Queue(Transfer(l, payer, payee, amount, h).0, a), height) == Pending(Queue(l, a), height)
  {
    FinalizeKeepsLocked(l, payer, h, height, a);
  }

  lemma {:induction false} RunKeepsLocked(l: Ledger, ops: seq<Op>, height: int, a: string)
    requires forall op :: op in ops ==> ActsBy(op, height)
    ensures Pending(Queue(l, a), height) <= Pending(Queue(Run(l, ops), a), height)
  {
    if ops != [] {
      var last := |ops| - 1;
      assert ops[last] in ops && forall op :: op in ops[..last] ==> op in ops;
      RunKeepsLocked(l, ops[..last], height, a);
      StepKeepsLocked(Run(l, ops[..last]), ops[last], height, a);
    }
  }

  /** A locked entry is pending as often as it is queued. */
  lemma {:induction false} PendingCount(q: seq<Exit>, height: int, e: Exit)
    requires height < e.unlock
    ensures multiset(Pending(q, height))[e] == multiset(q)[e]
  {
    if q != [] {
      var last := |q| - 1;
      PendingCount(q[..last], height, e);
      LastCounts(q, e);
      if height < q[last].unlock {
        assert Pending(q, height) == Pending(q[..last], height) + [q[last]];
        OneMoreCounts(Pending(q[..last], height), q[last], e);
      } else {
        assert Pending(q, height) == Pending(q[..last], height);
      }
    }
  }

  lemma OneMoreCounts<T>(s: seq<T>, x: T, e: T)
    ensures multiset(s + [x])[e] == multiset(s)[e] + (if x == e then 1 else 0)
  {
  }

  lemma LastCounts<T>(s: seq<T>, e: T)
    requires s != []
    ensures multiset(s)[e] == multiset(s[..|s| - 1])[e] + (if s[|s| - 1] == e then 1 else 0)
  {
    assert s == s[..|s| - 1] + [s[|s| - 1]];
    OneMoreCounts(s[..|s| - 1], s[|s| - 1], e);
  }

  lemma PrefixCount<T>(p: seq<T>, q: seq<T>, x: T)
    requires p <= q
    ensures multiset(p)[x] <= multiset(q)[x]
  {
    assert q == p + q[|p|..];
  }

  /** Entries locked at `height` are queued at least as often after any run that acts no later. */
  lemma RunKeepsCount(l: Ledger, ops: seq<Op>, height: int, a: string, e: Exit)
    requires height < e.unlock && forall op :: op in ops ==> ActsBy(op, height)
    ensures multiset(Queue(Run(l, ops), a))[e] >= multiset(Queue(l, a))[e]
  {
    RunKeepsLocked(l, ops, height, a);
    PendingCount(Queue(l, a), height, e);
    PendingCount(Queue(Run(l, ops), a), height, e);
    PrefixCount(Pending(Queue(l, a), height), Pending(Queue(Run(l, ops), a), height), e);
  }

  /**
    The unbonding delay: after an accepted request at height h with cooldown c, every run that acts at
    heights below h + c leaves the requested principal in the queue, on top of what was queued before.
   */
  lemma PrincipalWaitsOutTheCooldown(l: Ledger, address: string, amount: real, height: int, cooldown: int, ops: seq<Op>)
    requires cooldown > 0 && RequestUnstake(l, address, amount, height, cooldown).1.Accepted?
    requires forall op :: op in ops ==> ActsBy(op, height + cooldown - 1)
    ensures var e := Exit(amount, height + cooldown);
            var later := Run(RequestUnstake(l, address, amount, height, cooldown).0, ops);
            multiset(Queue(later, address))[e] >= multiset(Queue(l, address))[e] + 1
  {
    var r, e := RequestUnstake(l, address, amount, height, cooldown).0, Exit(amount, height + cooldown);
    assert Queue(r, address) == Queue(l, address) + [e];
    RunKeepsCount(r, ops, height + cooldown - 1, address, e);
  }

  // ----- crediting in one go or in two

  lemma {:induction false} MaturedTwice(q: seq<Exit>, h1: int, h2: int)
    requires h1 <= h2
    ensures Matured(q, h1) + Matured(Pending(q, h1), h2) == Matured(q, h2)
  {
    if q != [] {
      var last := |q| - 1;
      MaturedTwice(q[..last], h1, h2);
      var p := Pending(q[..last], h1);
      assert (p + [q[last]])[..|p|] == p && p + [] == p;
    }
  }

  /** Crediting at one height and again at a later one is the same as crediting at the later one alone. */
  lemma FinalizeTwice(l: Ledger, address: string, h1: int, h2: int, slack: real)
    requires Solvent(l, slack) && h1 <= h2
    ensures Finalize(Finalize(l, address, h1), address, h2) == Finalize(l, address, h2)
  {
    var q := Queue(l, address);
    if q != [] {
      var c1, p1 := Matured(q, h1), Pending(q, h1);
      PendingTwice(q, h1, h2);
      MaturedTwice(q, h1, h2);
      PendingIsFilter(q, h1);
      MaturedNonNegative(q, h1);
      MaturedNonNegative(p1, h2);
      SetQueueTwice(l.unbonding, address, p1, Pending(q, h2));
      CreditedTwice(l.liquid, address, c1, Matured(p1, h2));
      assert Queue(Finalize(l, address, h1), address) == p1;
    }
  }

  lemma CreditedTwice(m: map<string, real>, a: string, v: real, w: real)
    requires v >= 0.0 && w >= 0.0
    ensures Credited(Credited(m, a, v), a, w) == Credited(m, a, v + w)
  {
    CreditTwice(m, a, v, w);
  }

  lemma SetQueueTwice(u: map<string, seq<Exit>>, a: string, p: seq<Exit>, q: seq<Exit>)
    ensures SetQueue(SetQueue(u, a, p), a, q) == SetQueue(u, a, q)
  {
  }
}
