/**
  The token ledger as a value: liquid, staked, unbonding and escrowed balances, and what each
  operation of the economic system does to them. Amounts are reals.

  The event log, the per-model payment statistics and the printed messages are not part of the model.
 */
module Ledger {
  import opened Basics
  import opened MapSums

  const SYSTEM := "system"
  const GENESIS := "genesis_0000000000000000000000000000000000000000"

  /** The tolerance of a queued unstake, and the smallest shortfall a payment will unstake for. */
  const DUST: real := 0.000000000001

  /** Principal on its way out of stake, and the height from which it may be credited. */
  datatype Exit = Exit(amount: real, unlock: int)

  datatype Ledger = Ledger(
    liquid: map<string, real>,
    staked: map<string, real>,
    unbonding: map<string, seq<Exit>>,
    escrow: map<string, real>,
    virtual: map<string, real>,
    emitted: real)

  /** How a call ends. Debiting an address that has no balance entry is an error in the source. */
  datatype Outcome = Accepted | Rejected | MissingAccount

  // ----- the unbonding queue

  function Queue(l: Ledger, address: string): seq<Exit> {
    if address in l.unbonding then l.unbonding[address] else []
  }

  function Principal(q: seq<Exit>): real {
    if q == [] then 0.0 else Principal(q[..|q| - 1]) + q[|q| - 1].amount
  }

  function Matured(q: seq<Exit>, height: int): real {
    if q == [] then 0.0
    else Matured(q[..|q| - 1], height) + if height >= q[|q| - 1].unlock then q[|q| - 1].amount else 0.0
  }

  /** The entries that stay locked at `height`, in order. */
  function Pending(q: seq<Exit>, height: int): seq<Exit> {
    if q == [] then []
    else Pending(q[..|q| - 1], height) + if height >= q[|q| - 1].unlock then [] else [q[|q| - 1]]
  }

  function SetQueue(u: map<string, seq<Exit>>, address: string, q: seq<Exit>): map<string, seq<Exit>> {
    if q == [] then u - {address} else u[address := q]
  }

  function Credited(m: map<string, real>, address: string, v: real): map<string, real> {
    if v > 0.0 then Credit(m, address, v) else m
  }

  /** Credits what has matured at `height` and keeps the rest queued. */
  function Finalize(l: Ledger, address: string, height: int): Ledger {
    var q := Queue(l, address);
    if q == [] then l
    else
      var credited := Matured(q, height);
      l.(liquid := Credited(l.liquid, address, credited),
         unbonding := SetQueue(l.unbonding, address, Pending(q, height)))
  }

  function PreviewLiquid(l: Ledger, address: string, height: int): real {
    Get(l.liquid, address) + Matured(Queue(l, address), height)
  }

  // ----- operations

  function Transfer(l: Ledger, payer: string, payee: string, amount: real, height: int): (Ledger, Outcome) {
    if payer == SYSTEM then (l.(liquid := Credit(l.liquid, payee, amount)), Accepted)
    else
      var f := Finalize(l, payer, height);
      if Get(f.liquid, payer) < amount then (f, Rejected)
      else if payer !in f.liquid then (f, MissingAccount)
      else (f.(liquid := Credit(Credit(f.liquid, payer, -amount), payee, amount)), Accepted)
  }

  /** What the genesis account can still pay of `amount`. */
  function Affordable(l: Ledger, amount: real): real { Min(amount, Get(l.liquid, GENESIS)) }

  function Mint(l: Ledger, miner: string, amount: real, toStake: bool): (Ledger, Outcome) {
    if amount <= 0.0 then (l, Accepted)
    else
      var pay := Affordable(l, amount);
      if pay <= 0.0 then (l, Rejected)
      else
        var debited := l.(liquid := Credit(l.liquid, GENESIS, -pay), emitted := l.emitted + pay);
        ((if toStake then debited.(staked := Credit(debited.staked, miner, pay))
          else debited.(liquid := Credit(debited.liquid, miner, pay))), Accepted)
  }

  function GrantVirtual(l: Ledger, address: string, amount: real): Ledger {
    l.(virtual := Credit(l.virtual, address, amount))
  }

  function UnstakeNow(l: Ledger, address: string, amount: real): (Ledger, Outcome) {
    if Get(l.staked, address) < amount then (l, Rejected)
    else (l.(staked := Credit(l.staked, address, -amount), liquid := Credit(l.liquid, address, amount)), Accepted)
  }

  function QueueExit(l: Ledger, address: string, e: Exit): Ledger {
    l.(staked := Credit(l.staked, address, -e.amount), unbonding := l.unbonding[address := Queue(l, address) + [e]])
  }

  function RequestUnstake(l: Ledger, address: string, amount: real, height: int, cooldown: int): (Ledger, Outcome) {
    if amount <= 0.0 || cooldown < 0 then (l, Rejected)
    else if cooldown == 0 then UnstakeNow(l, address, amount)
    else if Get(l.staked, address) + DUST < amount then (l, Rejected)
    else (QueueExit(l, address, Exit(amount, height + cooldown)), Accepted)
  }

  function SlashBootstrap(l: Ledger, address: string): Ledger {
    l.(virtual := l.virtual - {address}, staked := l.staked - {address})
  }

  /** What materialising `address` draws from genesis. */
  function MaterializeDraw(l: Ledger, address: string, grant: real): real {
    var need := Get(l.virtual, address) + grant;
    if need > 0.0 then Min(need, Get(l.liquid, GENESIS)) else 0.0
  }

  function Materialize(l: Ledger, address: string, grant: real): Ledger {
    var minted := MaterializeDraw(l, address, grant);
    var carried := Get(l.staked, address);
    var paid := DrawGenesis(SlashBootstrap(l, address), minted);
    if carried + minted <= 0.0 then paid
    else paid.(staked := Credit(paid.staked, address, carried + minted))
  }

  function DrawGenesis(l: Ledger, minted: real): Ledger {
    if minted > 0.0 then l.(liquid := Credit(l.liquid, GENESIS, -minted), emitted := l.emitted + minted) else l
  }

  function DepositEscrow(l: Ledger, payer: string, modelId: string, amount: real, height: int): (Ledger, Outcome) {
    if amount < 0.0 then (l, Rejected)
    else if amount == 0.0 then (l, Accepted)
    else
      var f := Finalize(l, payer, height);
      if Get(f.liquid, payer) < amount then (f, Rejected)
      else (f.(liquid := Credit(f.liquid, payer, -amount), escrow := Credit(f.escrow, modelId, amount)), Accepted)
  }

  function Stake(l: Ledger, address: string, amount: real, height: int): (Ledger, Outcome) {
    var f := Finalize(l, address, height);
    if Get(f.liquid, address) < amount then (f, Rejected)
    else if address !in f.liquid then (f, MissingAccount)
    else (f.(liquid := Credit(f.liquid, address, -amount), staked := Credit(f.staked, address, amount)), Accepted)
  }

  /** The stake part and the liquid part of a slashing penalty. */
  function PenaltyFromStake(l: Ledger, miner: string, penalty: real): real {
    var capped := Min(penalty, Get(l.staked, miner) + Get(l.liquid, miner));
    if Get(l.staked, miner) > 0.0 then Min(capped, Get(l.staked, miner)) else 0.0
  }

  function PenaltyFromLiquid(l: Ledger, miner: string, penalty: real): real {
    var capped := Min(penalty, Get(l.staked, miner) + Get(l.liquid, miner));
    Max(0.0, capped - PenaltyFromStake(l, miner, penalty))
  }

  function Penalize(l: Ledger, miner: string, penalty: real): Ledger {
    var fromStake, fromLiquid := PenaltyFromStake(l, miner, penalty), PenaltyFromLiquid(l, miner, penalty);
    l.(staked := if Get(l.staked, miner) > 0.0 then Credit(l.staked, miner, -fromStake) else l.staked,
       liquid := if fromLiquid > 0.0 then Credit(l.liquid, miner, -fromLiquid) else l.liquid)
  }

  // ----- paying for training

  function EscrowPart(l: Ledger, modelId: string, cost: real): real { Min(Get(l.escrow, modelId), cost) }

  /** Takes the owner's shortfall out of stake, if that is allowed and more than dust. */
  function Unwrapped(l: Ledger, owner: string, remainder: real, debitStake: bool): Ledger {
    var take := Min(Max(0.0, remainder - Get(l.liquid, owner)), Get(l.staked, owner));
    if Get(l.liquid, owner) < remainder && debitStake && take > DUST then UnstakeNow(l, owner, take).0 else l
  }

  /** The ledger once the owner's side has been readied: matured exits credited, stake unwrapped. */
  function Readied(l: Ledger, owner: string, remainder: real, height: int, debitStake: bool): Ledger {
    Unwrapped(Finalize(l, owner, height), owner, remainder, debitStake)
  }

  function PayFromEscrow(l: Ledger, modelId: string, miner: string, amount: real): Ledger {
    if amount > 0.0 then l.(escrow := Credit(l.escrow, modelId, -amount), liquid := Credit(l.liquid, miner, amount))
    else l
  }

  /** The ledger a payment settles from. */
  function ReadyFor(l: Ledger, owner: string, modelId: string, cost: real, height: int, debitStake: bool): Ledger {
    var remainder := cost - EscrowPart(l, modelId, cost);
    if remainder > 0.0 && owner != SYSTEM then Readied(l, owner, remainder, height, debitStake) else l
  }

  /** Pays both parts, unless the owner cannot cover the remainder. */
  function Settle(ready: Ledger, owner: string, miner: string, modelId: string, fromEscrow: real, remainder: real,
                  height: int)
    : (Ledger, Outcome)
  {
    if remainder > 0.0 && owner != SYSTEM && Get(ready.liquid, owner) < remainder then (ready, Rejected)
    else
      var paid := PayFromEscrow(ready, modelId, miner, fromEscrow);
      if remainder > 0.0 then Transfer(paid, owner, miner, remainder, height) else (paid, Accepted)
  }

  function PayForTraining(l: Ledger, owner: string, miner: string, modelId: string, cost: real, height: int,
                          debitStake: bool)
    : (Ledger, Outcome)
  {
    var fromEscrow := EscrowPart(l, modelId, cost);
    Settle(ReadyFor(l, owner, modelId, cost, height, debitStake), owner, miner, modelId, fromEscrow, cost - fromEscrow,
           height)
  }

  // ----- operations as data

  datatype Op =
    | TransferOp(payer: string, payee: string, amount: real, height: int)
    | MintOp(miner: string, amount: real, toStake: bool)
    | GrantVirtualOp(address: string, amount: real)
    | FinalizeOp(address: string, height: int)
    | UnstakeOp(address: string, amount: real, height: int, cooldown: int)
    | SlashOp(address: string)
    | MaterializeOp(address: string, grant: real)
    | DepositOp(payer: string, modelId: string, amount: real, height: int)
    | StakeOp(address: string, amount: real, height: int)
    | PenaltyOp(miner: string, amount: real)
    | PaymentOp(payer: string, miner: string, modelId: string, amount: real, height: int, debitStake: bool)

  function Step(l: Ledger, op: Op): Ledger {
    match op
    case TransferOp(payer, payee, amount, height) => Transfer(l, payer, payee, amount, height).0
    case MintOp(miner, amount, toStake) => Mint(l, miner, amount, toStake).0
    case GrantVirtualOp(address, amount) => GrantVirtual(l, address, amount)
    case FinalizeOp(address, height) => Finalize(l, address, height)
    case UnstakeOp(address, amount, height, cooldown) => RequestUnstake(l, address, amount, height, cooldown).0
    case SlashOp(address) => SlashBootstrap(l, address)
    case MaterializeOp(address, grant) => Materialize(l, address, grant)
    case DepositOp(payer, modelId, amount, height) => DepositEscrow(l, payer, modelId, amount, height).0
    case StakeOp(address, amount, height) => Stake(l, address, amount, height).0
    case PenaltyOp(miner, amount) => Penalize(l, miner, amount)
    case PaymentOp(payer, miner, modelId, amount, height, debitStake) =>
      PayForTraining(l, payer, miner, modelId, amount, height, debitStake).0
  }

  function Run(l: Ledger, ops: seq<Op>): Ledger {
    if ops == [] then l else Step(Run(l, ops[..|ops| - 1]), ops[|ops| - 1])
  }
}
