# Verified model of DeSSIN's deterministic cores

DeSSIN simulates a blockchain whose blocks train language models. This project models, in Dafny, the parts
of it that are plain state and arithmetic, and proves what they promise:

- **Fee market** (`FeeMarket`, `MarketSelection`, `MarketRuns`, `MarketStarvation`, `MarketSiege`,
  `MarketPolicy`): which training tasks a block takes, what holds over whole runs of submissions, blocks and
  expiries, and when waiting is enough.
- **Spot checks** (`SpotCheck`, `SpotCheckSoundness`, `TraceTrainer`, `ParamCodec`): a miner publishes a hash
  chain of gradients, a verifier replays challenged steps. One training step is an uninterpreted function,
  SHA-256 an uninterpreted function from texts to texts.
- **Ledger** (`Ledger`, `LedgerRuns`, `LedgerEffects`, `EconomicSystem`, `AttestationRewards`,
  `TrainingPayment`, `Bootstrap`, `BootstrapOrder`, `BlockEconomics`, `BlockOutcome`): liquid, staked, unbonding
  and escrowed balances, payments and the check that predicts them, ranking-based slashing, and the sequence of
  all of these in one block.
- **Merkle tree** (`MerkleTree`, `MerkleFromAbove`), **low-rank adapters** (`LowRank`, `LoraTrainer`,
  `ModuleTree`, `ModuleObjects`) and **adaptive block time** (`BlockTime`, `BlockTimeConvergence`,
  `BlockTimeRules`).
- **Rotation scheduler** (`Scheduler`, `SchedulerService`, `SchedulerRuns`, `SchedulerFairness`,
  `SchedulerRounds`, `RotationPlaces`, `RotationWheel`, `SchedulerTraining`, `SchedulerPriorities`,
  `SchedulerLifecycle`, `SchedulerLedger`), **storage leases** (`StorageLease`, `LeaseRuns`, `LeaseTerms`) and
  **gossip** (`Gossip`, `GossipRuns`).

Objects that change in place are classes whose methods, with the loops of the source, are proved against
functions on values; what the source promises is proved about those functions,
and laws in plain numbers say what the functions compute. `Basics`, `StableSort`, `MapSums`
and `ListCounting` are the shared mathematics. `dafny verify dfyconfig.toml` checks the whole project.

Conventions. Amounts, tips, fees, weights and times are reals. Dictionaries whose iteration order matters are
sequences with unique names in insertion order. Heights, seeds and wall-clock times are parameters. A Python
exception is an outcome of its own. Collision freedom is required only of the texts that are actually hashed.
The float tolerance of the ledger is the constant `DUST`, the slack of the block-time ceiling `CEILING_SLACK`.

Where the code and its documentation disagree, the code is modelled:

- `docs/chapter_03_training_market.md:63` says that no task starves. Competitors can out-tip a task, and a rival
  for its own model sends that model to rest when it is scheduled. Against competitors of effective tip at most
  p a task is served on every run if and only if its model is rested before it expires and its own effective tip
  exceeds p already one cooldown before the expiry, or when that rest ends if this is later
  (`ServedOnEveryRunIff`); all of it can be computed at submission. Otherwise `UnprotectedIsStarved` gives the run
  on which it expires unscheduled. No expiry helps a task whose tip at the urgency cap does not exceed that of
  its competitors (`PatienceServesIff`).
- The header of `dessin/consensus/training_market.py` lowers the base fee at the target utilisation; the code
  leaves it alone there (`AdjustmentStep`).
- `docs/MODEL_TRAINING_ROTATION.md:13` says that no model is starved of training time. Some places of the normal
  and low tiers never get into the queue (`FundedModelIsOfferedIff`). Besides, the tenth iteration of a model
  starts the queue over, so a model behind the tenth place of another is never trained (`StarvedIsNeverTrained`):
  with one high-priority model and seven normal ones the fourth and the sixth have a place and starve
  (`BehindTheHighTierStarves`). From fresh counters these are all that starve (`FreshlyTrainedIff`), and among
  models of one priority nobody who is queued does (`OnePriorityIsTrainedAgain`).
- `docs/MODEL_LIFECYCLE.md:29` says that a deprecated model cannot be reactivated; resuming it does
  (`StaysRetiredIff`).
- The pre-flight check promises to predict the payment. Exceptions are a shortfall of at most `DUST` during
  bootstrap (`DustBreaksThePrediction`) and genesis as the owner, whose balance the rewards come out of
  (`GenesisOwnerBreaksThePrediction`); `AffordableMeansPayable` and `CheckedBlockIsPaid` have the exact condition.
- The header of `dessin/economics/storage_lease.py` opens the warning window one block later than the code.

## Model

| member | source | states |
|---|---|---|
| `FeeMarket.TrainingMarket.SubmitTask` | dessin/consensus/training_market.py:183-215 | A submission is checked for base fee, tip, deposit, duplicate id and cooldown in that order; the first failure is the verdict, and only an accepted task joins the pending ones |
| `FeeMarket.TrainingMarket.CancelTask` | dessin/consensus/training_market.py:217-225 | Not found exactly when no pending task has the id; cancelled exactly when one has the id and the owner; nothing but that task leaves |
| `FeeMarket.TrainingMarket.SelectTasksForBlock` | dessin/consensus/training_market.py:231-293 | The loop returns the slots of the greedy packing of the sorted eligible tasks, whose properties are the lemmas below; what a wait is worth in it is `OvertakesAtIff` and `WaitDecidesTheBlock` |
| `FeeMarket.TrainingMarket.FinalizeBlock` | dessin/consensus/training_market.py:299-320 | Removes the scheduled tasks, starts their cooldowns and adjusts the base fee, and changes nothing else |
| `FeeMarket.TrainingMarket.ExpireStaleTasks` | dessin/consensus/training_market.py:322-335 | Removes exactly the expired tasks and returns them |
| `StableSort.SortIsStable` | dessin/consensus/training_market.py:262-271 | The reference sort puts larger keys first and keeps the input order of equal keys |
| `StableSort.SortIsCanonical` | dessin/consensus/training_market.py:262-271 | When keys identify elements, sorting forgets the input order |
| `MarketSelection.SelectionIsFeasibleAndFull` | dessin/consensus/training_market.py:250-293 | The selection holds eligible tasks only, one per model, and exactly as many as the slots or the distinct eligible models allow |
| `MarketSelection.GreedyDominates` | dessin/consensus/training_market.py:250-293 | For every feasible block and every rank, the selected effective tip at that rank is at least the rival one |
| `MarketSelection.GreedyMaximisesTips` | dessin/consensus/training_market.py:250-293 | With non-negative tips no feasible block collects a larger total of effective tips |
| `MarketSelection.SelectionIsCanonical` | dessin/consensus/training_market.py:253-287 | With distinct tie-breaks the ordered selection depends on the set of pending tasks only, not on their insertion order |
| `MarketSelection.SelectedIff` | dessin/consensus/training_market.py:250-293 | A task is selected if and only if it is eligible, no task ranked above it has its model, and those above it belong to fewer models than there are slots |
| `MarketSelection.OutTippedIsSkipped` | dessin/consensus/training_market.py:262-287 | As many eligible tasks of distinct models with a higher effective tip as there are slots keep a task out of the block |
| `MarketSelection.CappedUrgencyCanStarve` | dessin/consensus/training_market.py:341-347 | For any number of slots: a task below enough rivals even at the urgency cap is passed over at every height at which they wait |
| `MarketSiege.ServedOnEveryRunIff` | dessin/consensus/training_market.py:183-347 | From every market in which a task waits: every run with competitors of effective tip at most p, whatever their models, and with a block at its last height, schedules it before it expires if and only if its model is rested by then and, from a cooldown before the expiry or from the end of that rest, its own effective tip exceeds p |
| `MarketSiege.UnprotectedIsStarved` | dessin/consensus/training_market.py:183-347 | The starving run, for any number of slots: submissions the market accepts and a block at every height from submission to expiry, the last of them shut by a rival for the same model |
| `MarketStarvation.ProtectedIsServed` | dessin/consensus/training_market.py:231-347 | The other half, by an invariant of the run: whatever is scheduled for the same model comes early enough for the model to rest before the last height |
| `MarketSiege.AlwaysServedIff` | dessin/consensus/training_market.py:231-347 | Over all markets at once the effective tip one cooldown before the expiry decides |
| `MarketSiege.PatienceServesIff` | docs/chapter_03_training_market.md:46-63 | Against the documented absence of starvation: some expiry is late enough to be served on every run if and only if the tip at the urgency cap exceeds that of the competitors, same-model rivals included |
| `MarketSelection.HighestTipIsSelected` | dessin/consensus/training_market.py:259-287 | A task that out-tips every other eligible one is selected whenever there is a slot |
| `MarketRuns.CooldownSafety` | dessin/consensus/training_market.py:310-316 | On every run from every state, two slots for one model are at least one cooldown apart |
| `MarketRuns.ScheduledOnce` | dessin/consensus/training_market.py:310-316 | A scheduled task is never scheduled again unless its id is submitted again |
| `MarketRuns.AdjustmentStep` | dessin/consensus/training_market.py:398-419 | One adjustment stays inside the fee limits and the rate, never falls above target, never rises below it, and is idle at target |
| `MarketRuns.BaseFeeEnvelope` | dessin/consensus/training_market.py:398-419 | After any run the fee lies inside its limits and between the falling and the rising compound curve over the number of blocks |
| `MarketRuns.CompoundedIsPower` | dessin/consensus/training_market.py:398-419 | The curves are the start times a power of one minus and one plus the rate |
| `MarketPolicy.OvertakesAtIff` | dessin/consensus/training_market.py:341-347 | A task out-tips a higher p within its cap at a height if and only if it has waited longer than p over its tip, less one, over the urgency rate |
| `MarketPolicy.WaitDecidesTheBlock` | dessin/consensus/training_market.py:231-293 | With one slot the waiting task is taken if and only if it has waited that long, and otherwise the newcomer of higher tip and another model, in tips, rate and heights alone |
| `MarketPolicy.EffectiveTipIs` | dessin/consensus/training_market.py:341-347 | The effective tip is the tip plus its share per block waited, between the tip and the tip at the cap |
| `MarketPolicy.AdjustmentIs` | dessin/consensus/training_market.py:398-419 | Off its limits the fee moves by the rate times the relative excess over the target, by the whole rate at most, in used slots and target |
| `MarketPolicy.NoTargetNoMove` | dessin/consensus/training_market.py:398-419 | Without a target or without slots the fee stays |
| `MarketPolicy.FreeAgainIff` | dessin/consensus/training_market.py:310-316 | After a slot the model takes submissions again exactly from its cooldown on, which is the shorter of both limits and at least a block |
| `MarketPolicy.AcceptedIff` | dessin/consensus/training_market.py:183-215 | A task is taken if and only if it covers the fee, the least tip and its own promise, is new, and its model is rested |
| `MarketPolicy.SlotPays` | dessin/consensus/training_market.py:287-293 | A slot carries the tip of its task, not the effective one |
| `SpotCheck.ComputeGradHashChain` | dessin/consensus/spot_check_verification.py:199-208 | The loop builds the chain function whose recurrence and binding are proved below |
| `SpotCheck.VerifyStructural` | dessin/consensus/spot_check_verification.py:250-297 | Accepts exactly when no structural rule is violated, and reports exactly the violated rules |
| `SpotCheck.VerifySpotReplay` | dessin/consensus/spot_check_verification.py:379-463 | Accepts exactly when the replay of every challenged step passes, returns the complaints in challenge order, and ends with an index error exactly when a challenged step is missing from the published lists; its norm rule in numbers is `AcceptedNorms` |
| `SpotCheck.IntStream` | dessin/consensus/spot_check_verification.py:211-225 | Word i of the stream is the big-endian value of its place in the concatenated hash blocks |
| `SpotCheck.WordIs` | dessin/consensus/spot_check_verification.py:211-225 | A word is made of eight bytes of its block, written out with their weights, the first the most significant |
| `SpotCheck.DeriveChallengeStepIndices` | dessin/consensus/spot_check_verification.py:228-247 | Fails exactly on a step or challenge count below one; otherwise draws that many steps, all in range and given by the stream |
| `SpotCheckSoundness.ChainIsItsRecurrence` | dessin/consensus/spot_check_verification.py:199-208 | A list is the chain of a gradient list if and only if it satisfies the recurrence entry by entry |
| `SpotCheckSoundness.GradChainIff` | dessin/consensus/spot_check_verification.py:68-208 | The chain starts from 32 zero bytes, and every digest hashes the domain, its predecessor and the gradient hash, in this order |
| `SpotCheckSoundness.StructureIff` | dessin/consensus/spot_check_verification.py:250-297 | Structure is accepted if and only if all counts, both anchors and the lengths of all digests are right |
| `SpotCheckSoundness.StepPassesIff` | dessin/consensus/spot_check_verification.py:398-463 | A challenged step passes if and only if anchor, gradient, chain entry, norm interval and the state it ends in are right |
| `SpotCheckSoundness.RunsOffIff` | dessin/consensus/spot_check_verification.py:398-463 | The index error comes exactly from a challenged step whose anchor and gradient are right and which the chain or, the chain being right, the norms do not reach |
| `SpotCheckSoundness.ChainBindsGradients` | dessin/consensus/spot_check_verification.py:199-208 | Without a collision among the hashed inputs the last digest alone fixes the whole gradient list |
| `SpotCheckSoundness.FullReplayAcceptsExactlyHonestRuns` | dessin/consensus/spot_check_verification.py:398-463 | When the challenges cover every step, the replay accepts a trace if and only if witness, norms, chain and end hash are those of the true run, a norm being one when its two-sided interval holds the true one |
| `SpotCheckSoundness.AcceptedNorms` | dessin/consensus/spot_check_verification.py:440-446 | After an accepted covering replay every true norm is in an explicit interval around the published one, on both sides, and equals it when the tolerance is zero |
| `SpotCheckSoundness.NormsDecide` | dessin/consensus/spot_check_verification.py:440-446 | With everything else honest and published norms of at least one, a covering replay accepts if and only if every true norm lies between the published one less and plus its tolerated share |
| `SpotCheckSoundness.PassedMeansHonest` | dessin/consensus/spot_check_verification.py:398-463 | Soundness of full coverage, without any requirement on the order or repetition of challenges |
| `SpotCheckSoundness.HonestRunsPass` | dessin/consensus/spot_check_verification.py:398-463 | An honest trace passes every list of real steps, with no assumption on the hashes |
| `SpotCheckSoundness.PublishedChainBindsTrueGradients` | dessin/consensus/spot_check_verification.py:404-463 | After a covering replay the published chain is the chain of the true gradients and of no other list of that length |
| `SpotCheckSoundness.EscapeRate` | docs/SPOT_CHECK_VERIFICATION.md:60-68 | Of the N^k challenge lists exactly m^k accept a trace with m sound steps, which is the documented (m/N)^k |
| `SpotCheckSoundness.ForgedEndEscapes` | docs/SPOT_CHECK_VERIFICATION.md:60-68 | An honest trace with a forged end hash fails at the last step only, so exactly (N-1)^k of the N^k challenge lists accept it |
| `TraceTrainer.TrainWithTrace` | dessin/llm/decoder_lm_training_trace.py:164-254 | The training loop records the state, gradient, norm and loss of every step, and the curve has one entry more than there are steps |
| `TraceTrainer.ReplayFollowsTraining` | dessin/llm/decoder_lm_training_trace.py:280-304 | Replaying from the flattened start visits the flattened states of training step for step, when loading restores the models of this run |
| `TraceTrainer.TracedTrainingIsHonest` | dessin/llm/decoder_lm_training_trace.py:257-304 | What the trainer emits is an honest run for the replayer |
| `TraceTrainer.TracedTrainingIsAccepted` | dessin/llm/decoder_lm_training_trace.py:173-254 | Emitted artefacts pass every structural rule and every list of real challenges |
| `TraceTrainer.CheckpointedTrainingIsAccepted` | dessin/llm/decoder_lm_training_trace.py:164-304 | The same end to end, structural rules included, with the parameter codec as flatten and load, for any training step that keeps the parameter shapes |
| `TraceTrainer.SeedsAre` | dessin/llm/decoder_lm_training_trace.py:164-304 | Step i is trained and replayed on the seed 10007 times i after the data seed |
| `TraceTrainer.CurveIs` | dessin/llm/decoder_lm_training_trace.py:164-254 | The curve starts with the loss before training, ends with the one after it, and has those of all steps but the first in between |
| `ParamCodec.FlattenParams` | dessin/llm/decoder_only_gpt.py:128-137 | The loop concatenates the widened parameters in order |
| `ParamCodec.LoadParams` | dessin/llm/decoder_only_gpt.py:140-155 | Accepts exactly the vectors of the right total length, and states what is in every parameter afterwards, also after a rejection |
| `ParamCodec.FlatAt` | dessin/llm/decoder_only_gpt.py:128-137 | Every entry stands after all parameters before its own |
| `ParamCodec.LoadedAt` | dessin/llm/decoder_only_gpt.py:140-155 | Every parameter the vector reaches in full is loaded from that same place |
| `ParamCodec.LoadUndoesFlatten` | dessin/llm/decoder_only_gpt.py:128-155 | Loading a flattened model into any model of the same shapes restores every parameter |
| `ParamCodec.RejectedLoadStillOverwrites` | dessin/llm/decoder_only_gpt.py:140-155 | A rejected vector that covers the first parameter has already overwritten it |
| `EconomicSystem.EconomicSystem.PreviewTransferableLiquid` | dessin/economics/economic_system.py:309-317 | The loop returns the liquid balance plus what has matured |
| `EconomicSystem.EconomicSystem.FinalizeMaturedUnstakes` | dessin/economics/economic_system.py:319-338 | Credits what has matured, keeps the rest queued in order, and returns the credited sum |
| `EconomicSystem.EconomicSystem.TransferFunds` | dessin/economics/economic_system.py:154-182 | The new state and the outcome are those of the ledger transition, whose effect is TransferMoves |
| `EconomicSystem.EconomicSystem.MintFromGenesis` | dessin/economics/economic_system.py:235-269 | The new state and outcome are those of the mint transition; who pays and gets what is `MintIs` |
| `EconomicSystem.EconomicSystem.RequestUnstakeOf` | dessin/economics/economic_system.py:340-366 | The new state and outcome are those of the unstake transition, tolerance included; `UnstakeIff` has it in balances |
| `EconomicSystem.EconomicSystem.UnstakeImmediateToLiquid` | dessin/economics/economic_system.py:368-375 | The new state and outcome are those of the immediate unstake |
| `EconomicSystem.EconomicSystem.SlashBootstrapParticipant` | dessin/economics/economic_system.py:377-382 | Stake and virtual stake of the address are removed |
| `EconomicSystem.EconomicSystem.MaterializeBootstrapSurvivor` | dessin/economics/economic_system.py:384-430 | The new state is that of the materialisation transition; `MaterializeIs` has it in balances |
| `EconomicSystem.EconomicSystem.DepositModelTrainingEscrow` | dessin/economics/economic_system.py:432-464 | The new state and outcome are those of the deposit transition; whose escrow grows and who pays is `DepositIff` |
| `EconomicSystem.EconomicSystem.StakeTokens` | dessin/economics/economic_system.py:840-850 | The new state and outcome are those of the stake transition; `StakeIff` has it in balances |
| `EconomicSystem.EconomicSystem.ProcessSlashingPenalty` | dessin/economics/economic_system.py:611-645 | The new state is that of the penalty transition: stake first, then balance, never more than there is; `PenaltyIs` has it in balances |
| `EconomicSystem.EconomicSystem.ProcessTrainingPayment` | dessin/economics/economic_system.py:484-570 | The new state and outcome are those of the payment transition, whose effect is stated by the payment lemmas below |
| `EconomicSystem.EconomicSystem.DistributeAttestationRewards` | dessin/economics/economic_system.py:572-609 | The loop applies one reward operation per verifier in order and reports as paid exactly those whose operation went through |
| `EconomicSystem.AttestationRewardsInject` | dessin/economics/economic_system.py:572-609 | Liquid rewards add one reward per verifier to the total, staked ones add nothing |
| `AttestationRewards.LiquidRewardsReach` | dessin/economics/economic_system.py:572-609 | Every verifier is paid once for each time it is listed, nobody else is, and all count as paid |
| `AttestationRewards.StakedRewardsReach` | dessin/economics/economic_system.py:572-609 | Staked rewards leave genesis in the order of the verifiers: each gets the full reward, the rest of genesis, or nothing |
| `AttestationRewards.StakedRewardsRunOut` | dessin/economics/economic_system.py:572-609 | Reported as paid are exactly the verifiers up to the one on which genesis runs out |
| `LedgerRuns.StepConserves` | dessin/economics/economic_system.py:154-464 | Every operation changes the total of all balances by exactly its injection and keeps balances in range |
| `LedgerRuns.RunsConserve` | dessin/economics/economic_system.py:154-464 | Over every run the total changes by the injections alone, and only stake can be short, by the unstake tolerance at most |
| `LedgerRuns.ExactRunsStaySolvent` | dessin/economics/economic_system.py:340-366 | When no unstake asks for more than is staked, no balance ever goes negative |
| `LedgerRuns.UnstakeKeepsStakeIffExact` | dessin/economics/economic_system.py:348-366 | A queued unstake keeps stake non-negative if and only if it was within the stake, so the tolerance is the only leak |
| `LedgerRuns.FinalizeEffect` | dessin/economics/economic_system.py:319-338 | Maturing moves exactly the matured principal from the queue to the liquid balance of that address |
| `LedgerRuns.FinalizeTwice` | dessin/economics/economic_system.py:319-338 | Maturing at one height and later at another equals maturing at the later one alone |
| `LedgerRuns.PrincipalWaitsOutTheCooldown` | dessin/economics/economic_system.py:340-366 | On every run that acts below request height plus cooldown the requested principal is queued at least as often as right after the request |
| `LedgerEffects.DepositIff` | dessin/economics/economic_system.py:432-464 | A deposit is accepted if and only if it is nothing, or positive and covered by liquid and matured funds; then exactly that escrow grows by it, the payer owns that much less, and all else is unchanged |
| `LedgerEffects.EscrowIsAccounted` | dessin/economics/economic_system.py:432-570 | Over every run the escrow of a model is what it was, plus the accepted deposits for it, less what accepted payments for it took out |
| `LedgerEffects.StakeIff` | dessin/economics/economic_system.py:840-850 | Staking is accepted if and only if liquid and matured funds cover it, and moves that much within one account |
| `LedgerEffects.UnstakeIff` | dessin/economics/economic_system.py:340-366 | Unstaking is accepted exactly for a positive amount within the stake or its tolerance; it is liquid at once or queued until height plus cooldown |
| `LedgerEffects.PenaltyIs` | dessin/economics/economic_system.py:611-645 | A penalty empties the stake before it touches the balance and takes no more than both |
| `LedgerEffects.MintIs` | dessin/economics/economic_system.py:235-269 | A reward is paid as far as genesis reaches, to stake or balance of the miner, and no other account changes |
| `LedgerEffects.MaterializeIs` | dessin/economics/economic_system.py:384-430 | Virtual stake and grant become stake as far as genesis reaches, on top of what was staked, and the virtual stake is gone |
| `LedgerEffects.TransferIs` | dessin/economics/economic_system.py:154-182 | A transfer is accepted if and only if liquid and matured funds cover it, and changes the two accounts by exactly the amount |
| `LedgerEffects.SystemTransferIs` | dessin/economics/economic_system.py:154-182 | The system account pays with new money |
| `LedgerEffects.MaturedIs` | dessin/economics/economic_system.py:309-338 | An exit counts in full from its unlock height on and not before |
| `TrainingPayment.TransferMoves` | dessin/economics/economic_system.py:154-182 | A transfer succeeds if and only if liquid plus matured funds cover it, and then moves exactly the amount |
| `TrainingPayment.PaymentAcceptedIff` | dessin/economics/economic_system.py:484-570 | The exact condition, in balances before the call, under which a training payment goes through |
| `TrainingPayment.AcceptedPaymentIsExact` | dessin/economics/economic_system.py:484-570 | An accepted payment takes the cost from escrow first and the owner for the rest, credits it to the miner, and touches no one else |
| `TrainingPayment.RejectedPaymentTakesNothing` | dessin/economics/economic_system.py:484-570 | A rejected payment leaves escrow, miner and everyone else as they were, and the owner as rich as before |
| `TrainingPayment.EstimateTrainingCost` | dessin/consensus/enhanced_pogo_consensus.py:668-695 | The loop finds the newest recorded size, else the catalogue size, and prices the steps with it |
| `TrainingPayment.AffordableMeansPayable` | dessin/consensus/enhanced_pogo_consensus.py:697-770 | If the check says yes, the payment after any rewards and materialisation is accepted if and only if the shortfall is not mere dust during bootstrap; for genesis as owner, if and only if what the emission leaves covers the rest |
| `TrainingPayment.AffordableIff` | dessin/consensus/enhanced_pogo_consensus.py:697-770 | On one ledger and height the check says yes if and only if the payment would be accepted, or only dust is missing during bootstrap and there is stake to fill it |
| `TrainingPayment.NoMeansRejected` | dessin/consensus/enhanced_pogo_consensus.py:697-770 | So a no means that the payment would be rejected |
| `TrainingPayment.AffordableMeans` | dessin/consensus/enhanced_pogo_consensus.py:727-744 | The funds behind a yes: the escrow of the model, liquid and matured funds of the owner, and its stake during bootstrap |
| `TrainingPayment.EstimatedSizeIs` | dessin/consensus/enhanced_pogo_consensus.py:668-695 | The estimate takes the size of the newest block of the model that records one, then that of the catalogue, then none |
| `TrainingPayment.CheckFlushesIff` | dessin/consensus/enhanced_pogo_consensus.py:697-770 | The check matures the owner exits exactly when the escrow does not cover the cost, and changes nothing else |
| `TrainingPayment.TrainingCostIs` | dessin/consensus/enhanced_pogo_consensus.py:668-695 | A step costs its price, and every ten gigabytes of the model as much again |
| `TrainingPayment.EmissionIsWantedOrAll` | dessin/economics/economic_system.py:235-269 | Rewards and materialisation together draw from genesis what they want, or all it has |
| `TrainingPayment.DustBreaksThePrediction` | dessin/economics/economic_system.py:505-520 | A concrete shortfall of half the tolerance: the check says yes and the payment says no |
| `TrainingPayment.GenesisOwnerBreaksThePrediction` | dessin/economics/economic_system.py:235-269 | A concrete case of the genesis condition: an intervening reward spoils a positive check |
| `Bootstrap.BootstrapRegistry.Register` | dessin/consensus/enhanced_pogo_consensus.py:255-275 | Grants virtual stake and records the height once; refuses slashed newcomers and closed periods |
| `Bootstrap.BootstrapRegistry.BootstrapRankingSlash` | dessin/consensus/enhanced_pogo_consensus.py:609-626 | The new ledger and slashed set are those of the ranking; who survives it is `SurvivesIff` |
| `Bootstrap.BootstrapRegistry.IsActiveBootstrapMiner` | dessin/consensus/enhanced_pogo_consensus.py:507-523 | Answers whether the address is in the active part of the ranking, which `IsActiveIff` states in balances |
| `Bootstrap.SurvivorsAreTheTopRanked` | dessin/consensus/enhanced_pogo_consensus.py:609-626 | A participant survives if and only if fewer than the cap outrank it in the ranking, which `SurvivesIff` puts in balances, heights and places |
| `BootstrapOrder.SurvivesIff` | dessin/consensus/enhanced_pogo_consensus.py:609-626 | A registered, unslashed address survives if and only if fewer than the cap have more virtual plus staked funds, or as much and a lower height, or the same of both and an earlier place |
| `BootstrapOrder.IsActiveIff` | dessin/consensus/enhanced_pogo_consensus.py:507-523 | An address may mine if and only if there is no bootstrap period, or it is registered, unslashed and beaten by fewer than the cap in this order |
| `BootstrapOrder.JoinedIff` | dessin/consensus/enhanced_pogo_consensus.py:255-275 | Registering succeeds exactly within the period for an address neither registered nor slashed; it grants the virtual stake and adds the height |
| `Bootstrap.SurvivorsAreActive` | dessin/consensus/enhanced_pogo_consensus.py:507-523 | Everyone left after a slash counts as active |
| `Bootstrap.SurvivorsFit` | dessin/consensus/enhanced_pogo_consensus.py:609-626 | No more than the cap are left |
| `Bootstrap.SecondSlashIsIdle` | dessin/consensus/enhanced_pogo_consensus.py:609-626 | A second ranking slash removes nobody and changes nothing |
| `Bootstrap.SlashAllEffect` | dessin/economics/economic_system.py:377-382 | Slashing a list removes the stake of those addresses and no other funds |
| `BlockEconomics.EnhancedConsensus.CanOwnerAffordTraining` | dessin/consensus/enhanced_pogo_consensus.py:697-770 | Cost, answer and the flushed ledger of the pre-flight check; nothing to pay for a model of the system account; a no means that the payment would be rejected, whoever the miner |
| `BlockEconomics.EnhancedConsensus.ProcessBlockEconomics` | dessin/consensus/enhanced_pogo_consensus.py:1283-1328 | The new state is materialisation when due, reward, payment and ranking in that order |
| `BlockEconomics.CheckedBlockIsPaid` | dessin/consensus/enhanced_pogo_consensus.py:1283-1328 | End to end: if the check accepts the estimate and the block has the steps and size of the estimate, its payment goes through if and only if a condition on the state before the block holds; then the miner gets exactly the cost, and otherwise no one loses anything |
| `BlockEconomics.PaidIffForeseen` | dessin/consensus/enhanced_pogo_consensus.py:1283-1328 | The condition: after bootstrap always, during bootstrap without a shortfall of mere dust, and for genesis as owner when its balance and stake cover the cost after the rewards |
| `BlockOutcome.RewardIs` | dessin/consensus/enhanced_pogo_consensus.py:1283-1328 | A year of blocks emits the share of the supply of its period, or each the plain reward without one, and every step adds a hundredth |
| `BlockOutcome.MaterializedIff` | dessin/consensus/enhanced_pogo_consensus.py:1283-1328 | Materialised are exactly the registered and unslashed, at the block that ends the period, once |
| `BlockOutcome.SurvivorsComeFirst` | dessin/consensus/enhanced_pogo_consensus.py:1283-1328 | The reward of the ending block gets what materialisation leaves of genesis |
| `BlockOutcome.UnownedBlockIs` | dessin/consensus/enhanced_pogo_consensus.py:1283-1328 | A later block for a model without an owner pays its miner out of genesis as far as that reaches, and changes nothing else |
| `BlockOutcome.OwnedBlockIs` | dessin/consensus/enhanced_pogo_consensus.py:1283-1328 | A later block for an owned model is paid for by its owner after the reward, at the cost of its steps and size, out of liquid funds only |
| `BlockEconomics.BlockConserves` | dessin/consensus/enhanced_pogo_consensus.py:1283-1328 | A whole block keeps all balances non-negative and removes from the total exactly the stake of those it slashes |
| `BlockEconomics.ChainsConserve` | dessin/consensus/enhanced_pogo_consensus.py:1283-1328 | Over any run of blocks with registrations, rewards, transfers, stakes and unstakes in between, balances stay non-negative, the total grows by system transfers at most, and slashed addresses and registrations stay |
| `MerkleTree.CreateMerkleTree` | dessin/models/model_manager.py:196-226 | The nested loops hash every chunk and return the root of the recursive tree; no chunks give the empty root |
| `MerkleTree.VerifyMerkleProof` | dessin/models/model_manager.py:228-247 | Accepts if and only if climbing the path from the leaf yields the root |
| `MerkleTree.VerifyProofObject` | dessin/consensus/consensus.py:45-57 | Checking a proof object is checking its hashed leaf the same way |
| `MerkleTree.PathsVerify` | dessin/models/model_manager.py:210-247 | For every leaf of every tree the sibling path verifies against the root |
| `MerkleTree.VerifiedIffTrueLeaf` | dessin/models/model_manager.py:228-247 | For a path of the tree height and a leaf hash of digest length, verification succeeds if and only if leaf and siblings are the true ones, unless two hashed texts collide |
| `MerkleTree.RootBindsLeaves` | dessin/models/model_manager.py:210-226 | Equal roots of equally long leaf lists mean equal leaves, unless two hashed texts collide |
| `MerkleTree.LeafLengthIsNeeded` | dessin/models/model_manager.py:228-247 | Without the length of the leaf hash the statement fails: the empty text passes as a leaf |
| `MerkleTree.HeightIsNeeded` | dessin/models/model_manager.py:228-247 | Without the height it fails: an inner node passes as a leaf |
| `MerkleTree.LeafCountIsNeeded` | dessin/models/model_manager.py:214-219 | Without the number of leaves the root does not fix them: repeating the last of an odd number keeps it |
| `MerkleFromAbove.RootOfSubtrees` | dessin/models/model_manager.py:210-226 | The same root from above, for any number of leaves: split after a power of two, it is the hash of the left root followed by the right one, the latter paired with itself up to the height of the left |
| `LoraTrainer.MergePreservesForward` | dessin/llm/lora_trainer.py:144-161 | For matrices of any size and every input, the merged layer gives the output of the adapted one with dropout inactive |
| `LoraTrainer.MergeIsExactIff` | dessin/llm/lora_trainer.py:144-161 | With dropout the two agree if and only if the adapter maps what dropout changed in the input to zero |
| `LoraTrainer.MergedWeightAt` | dessin/llm/lora_trainer.py:151-165 | Every merged entry is the base entry plus the scaled entry of the matrix product |
| `LoraTrainer.FreshAdapterIsIdle` | dessin/llm/lora_trainer.py:137-149 | An adapter with zero B adds nothing to any output, with dropout or without |
| `LoraTrainer.FreshAdapterMergesAway` | dessin/llm/lora_trainer.py:137-161 | Merging a fresh adapter gives back the very same weights |
| `LoraTrainer.TrainedAdapterAdds` | dessin/llm/lora_trainer.py:120-149 | An installed adapter, once trained, adds its two products scaled by alpha over the rank |
| `LowRank.ProductThenDot` | dessin/llm/lora_trainer.py:144-161 | Associativity at any dimensions: a row of the product against a vector is that row against the product of the rest |
| `ModuleTree.StripPreservesMeaning` | dessin/llm/lora_trainer.py:209-227 | Stripping a whole module tree changes no output of any container, whatever the other operations compute |
| `ModuleTree.ApplyPreservesMeaning` | dessin/llm/lora_trainer.py:172-206 | Installing fresh adapters changes no output, whatever A and dropout are |
| `ModuleTree.StripLeavesNoAdapter` | dessin/llm/lora_trainer.py:209-227 | No adapter is left anywhere below the root |
| `ModuleTree.StripTwice` | dessin/llm/lora_trainer.py:209-227 | Stripping a stripped tree changes nothing |
| `ModuleTree.StripUndoesApply` | dessin/llm/lora_trainer.py:172-227 | Installing adapters and stripping them untrained gives back the very same tree |
| `ModuleTree.InstalledAreTheAdapters` | dessin/llm/lora_trainer.py:172-206 | On a tree without adapters the returned dictionary holds, by path, exactly the adapters of the resulting tree |
| `ModuleTree.JoinIsDotted` | dessin/llm/lora_trainer.py:172-206 | The path under which an adapter is returned is made of the names from the root down to it, with dots in between |
| `ModuleObjects.Node.StripLora` | dessin/llm/lora_trainer.py:209-227 | The in-place replacement over mutable containers turns the tree into its stripped form |
| `ModuleObjects.Node.ApplyLora` | dessin/llm/lora_trainer.py:172-206 | The in-place installation turns the tree into its adapted form and returns the installed adapters by path |
| `BlockTime.DynamicBlockTimeManager.AdjustBlockTimeAdaptive` | dessin/consensus/dynamic_block_time.py:163-244 | The new interval, returned and stored, is one step of the controller from the given or the stored interval, with its reason and whether the bounds moved it |
| `BlockTime.CauseTells` | dessin/consensus/dynamic_block_time.py:187-219 | What each reported reason says about the interval aimed at: longer, equal, at the floor, or shorter and above it |
| `BlockTime.ClampIsWholeAndBounded` | dessin/consensus/dynamic_block_time.py:139-153 | Every clamped interval is a whole number of seconds inside the consensus bounds |
| `BlockTime.ClampTwice` | dessin/consensus/dynamic_block_time.py:139-161 | Clamping an already clamped interval changes nothing |
| `BlockTimeRules.StepIs` | dessin/consensus/dynamic_block_time.py:139-244 | The new interval in numbers: lengthened above four fifths of the interval, shortened below two fifths but not under the floor, rounded up to whole seconds within the bounds |
| `BlockTimeRules.CauseIff` | dessin/consensus/dynamic_block_time.py:187-219 | Each reason holds exactly for its range of validation times, and the floor exactly when the shortened interval would be under one of the two minima |
| `BlockTimeRules.ClampedIff` | dessin/consensus/dynamic_block_time.py:221-244 | The bounds are reported exactly when the interval aimed at misses them by more than a thousandth |
| `BlockTimeConvergence.NextIntervalIsStep` | dessin/consensus/dynamic_block_time.py:187-244 | The whole-second step of the convergence results is the step of the controller |
| `BlockTimeConvergence.StressStep` | dessin/consensus/dynamic_block_time.py:190-195 | Under stress a step lengthens until the maximum and does not reach the slack side |
| `BlockTimeConvergence.SlackStep` | dessin/consensus/dynamic_block_time.py:197-212 | In slack a step shortens until the floor and does not reach the stress side |
| `BlockTimeConvergence.SettledIff` | dessin/consensus/dynamic_block_time.py:187-244 | The interval stays put if and only if stress meets the maximum, slack meets the floor, or neither holds |
| `BlockTimeConvergence.EveryRunSettles` | dessin/consensus/dynamic_block_time.py:187-244 | At constant validation time every run settles within as many steps as the range is wide, in bounds and with nothing left to do |
| `BlockTimeConvergence.StressRunsRise` | dessin/consensus/dynamic_block_time.py:187-244 | From a start that is not slack the interval never falls and never becomes slack |
| `BlockTimeConvergence.SlackRunsFall` | dessin/consensus/dynamic_block_time.py:187-244 | From a start that is not stressed the interval never rises and never becomes stressed |
| `BlockTimeConvergence.ShortensIff` | dessin/consensus/dynamic_block_time.py:197-212 | Above the floor a slack step shortens if and only if it makes up a whole second |
| `BlockTimeConvergence.LengthensIff` | dessin/consensus/dynamic_block_time.py:190-195 | Below the maximum a stress step lengthens if and only if it exceeds the slack of the ceiling |
| `Scheduler.ModelTrainingScheduler.UpdateRotationQueue` | dessin/models/model_training_scheduler.py:114-160 | The loops refresh the paid-up flags, group the tiers and rebuild the queue as specified |
| `Scheduler.ModelTrainingScheduler.GetNextModelForTraining` | dessin/models/model_training_scheduler.py:162-187 | Choice and rotated queue: the first ready model, or none after a full turn |
| `Scheduler.ModelTrainingScheduler.RecordTrainingIteration` | dessin/models/model_training_scheduler.py:189-220 | Payment, counters, round and rebuild after an iteration, or the rebuild after a failed payment |
| `Scheduler.ModelTrainingScheduler.AddModelPayment` | dessin/models/model_training_scheduler.py:222-240 | A payment that revives a model rebuilds the queue, any other only raises the balance |
| `Scheduler.ModelTrainingScheduler.WithdrawBalance` | dessin/models/model_training_scheduler.py:331-358 | Only the owner of a paused or deprecated model withdraws, and then everything |
| `Scheduler.ModelTrainingScheduler.RegisterModel` | dessin/models/model_training_scheduler.py:81-112 | Succeeds exactly for a new id; then appends the slot and rebuilds the queue |
| `Scheduler.ModelTrainingScheduler.PauseModel` | dessin/models/model_training_scheduler.py:242-252 | A registered model becomes inactive and the queue is rebuilt |
| `Scheduler.ModelTrainingScheduler.ResumeModel` | dessin/models/model_training_scheduler.py:254-264 | A registered model becomes active, deprecated or not, and the queue is rebuilt |
| `Scheduler.ModelTrainingScheduler.DeprecateModel` | dessin/models/model_training_scheduler.py:307-329 | A registered model becomes deprecated and inactive and the queue is rebuilt |
| `Scheduler.ModelTrainingScheduler.RemoveModel` | dessin/models/model_training_scheduler.py:360-377 | A registered model leaves and the queue is rebuilt |
| `SchedulerService.FullCycle` | dessin/models/model_training_scheduler.py:162-187 | When every queued model is ready, as many calls as the queue is long serve exactly the queue in order and restore it |
| `SchedulerService.HighTierService` | dessin/models/model_training_scheduler.py:143-157 | A fresh queue holds every high-priority model at least three times, and no two counts differ by more than one |
| `SchedulerService.NormalTierService` | dessin/models/model_training_scheduler.py:143-157 | A normal-priority model is in a fresh queue if and only if its tier has odd size or its place is even |
| `SchedulerService.LowTierService` | dessin/models/model_training_scheduler.py:143-157 | A low-priority model is in it if and only if the first multiple of three that picks it comes before the end of the build |
| `RotationPlaces.FairQueueIs` | dessin/models/model_training_scheduler.py:132-160 | The fair queue place by place: just enough steps for every tier, and at each step the next high model, at every second the next normal one, at every third the next low one, in this order |
| `RotationPlaces.FairChoiceIs` | dessin/models/model_training_scheduler.py:162-187 | Fair rotation takes the first ready model and moves everything up to it to the back |
| `RotationPlaces.PlainChoiceIs` | dessin/models/model_training_scheduler.py:162-187 | Without fair rotation the head is taken if it is funded, nothing otherwise, and the queue never moves |
| `RotationPlaces.ReadyIff` | dessin/models/model_training_scheduler.py:162-187 | Ready is an active model with the balance required of it |
| `SchedulerRuns.RunsKeep` | dessin/models/model_training_scheduler.py:81-377 | After any operations the queue is a rotation of what a rebuild would make; and if no price is negative, every funded active model counts as paid up |
| `SchedulerLedger.BalanceIsAccounted` | dessin/models/model_training_scheduler.py:81-377 | Over every run without its removal a balance is what it was, plus the payments in, less the iterations charged and what its owner withdrew; the money charged and the iterations counted agree with it |
| `SchedulerLedger.RecordedIff` | dessin/models/model_training_scheduler.py:189-220 | An iteration is refused exactly for an unknown model or one whose balance does not cover the price |
| `SchedulerLedger.WithdrawnIff` | dessin/models/model_training_scheduler.py:331-358 | A withdrawal gives everything, and only to the owner of a paused or deprecated model |
| `SchedulerLedger.RegisterIs` | dessin/models/model_training_scheduler.py:81-112 | A new model comes last, with its first payment as balance, nothing counted, and paid up if the payment covers the required balance |
| `SchedulerLedger.RemoveIs` | dessin/models/model_training_scheduler.py:360-377 | Removing a model leaves the others in their order |
| `SchedulerFairness.FundedModelIsOfferedIff` | dessin/models/model_training_scheduler.py:114-187 | As long as no iteration is recorded: in every reachable state of the fair scheduler a funded active model is chosen within one turn of the queue if and only if its place in its tier is one the build picks, and is otherwise never chosen |
| `SchedulerTraining.StarvedIsNeverTrained` | docs/MODEL_TRAINING_ROTATION.md:9-13 | Against the documented absence of starvation: in the loop of choosing and recording, with the listed models kept in funds, a model before whose first place some model has ten is never trained from a rebuild on, whatever the counters |
| `SchedulerTraining.StarvedIsSoonNeverTrained` | dessin/models/model_training_scheduler.py:162-220 | From any place in the queue such a model is trained in the current turn or never |
| `SchedulerTraining.FreshlyTrainedIff` | dessin/models/model_training_scheduler.py:162-220 | When all counters are at zero after a rebuild, a model is ever trained if and only if it is queued and nobody has ten places before its first |
| `SchedulerTraining.BalancedIsTrainedAgain` | dessin/models/model_training_scheduler.py:162-220 | From any place and any counters a model is trained again and again when weights exist by which everybody before its first place outweighs in one round all that was passed |
| `SchedulerTraining.LightIsTrainedAgain` | dessin/models/model_training_scheduler.py:162-220 | In particular when from the tenth place of the queue on whoever comes before its first place comes there once |
| `SchedulerPriorities.BehindTheHighTierStarves` | dessin/models/model_training_scheduler.py:132-157 | A model of lower priority without a turn in the first nine steps of the build for each high-priority model starves |
| `SchedulerPriorities.OnePriorityIsTrainedAgain` | dessin/models/model_training_scheduler.py:132-220 | When all listed models have one priority, every queued one is trained again and again |
| `RotationWheel.NotBlockedIsNotEnough` | dessin/models/model_training_scheduler.py:76-78 | With rounds of three a queued model can be missed for ever although nobody has three places before its first, so the size of a round matters |
| `SchedulerRounds.RunsInRound` | dessin/models/model_training_scheduler.py:81-377 | In every reachable state all round counters are below the size of a round |
| `SchedulerFairness.QueuedReadyIsChosen` | dessin/models/model_training_scheduler.py:162-187 | A queued ready model at place j is chosen within j + 1 calls, whatever the other models are |
| `SchedulerFairness.HighModelsArePlacedEvenly` | dessin/models/model_training_scheduler.py:143-187 | In every reachable state the queue holds each listed high-priority model at least three times, and counts differ by at most one |
| `SchedulerFairness.RebuiltIsReady` | dessin/models/model_training_scheduler.py:114-160 | Every model in a rebuilt queue is ready |
| `SchedulerFairness.FullCycleAfterRebuild` | dessin/models/model_training_scheduler.py:114-187 | So as many calls as a rebuilt queue is long serve exactly that queue in order and restore it |
| `SchedulerFairness.NotQueuedNeverChosen` | dessin/models/model_training_scheduler.py:162-187 | A model outside the queue is not chosen by any number of calls |
| `SchedulerFairness.NeverKeyError` | dessin/models/model_training_scheduler.py:162-187 | In no reachable state does a call look up an unregistered model |
| `SchedulerLifecycle.StaysRetiredIff` | docs/MODEL_LIFECYCLE.md:26-29 | Against the documentation a deprecated model comes back: among all operations but its removal, exactly resuming it does that |
| `SchedulerLifecycle.StaysRetiredThroughoutIff` | docs/MODEL_LIFECYCLE.md:26-29 | On every run without its removal a deprecated model stays retired throughout if and only if nobody resumes it |
| `StorageLease.StorageLeaseManager.Create` | dessin/economics/storage_lease.py:212-262 | Refuses a live lease and a short term; otherwise places a fresh active lease and records it |
| `StorageLease.StorageLeaseManager.Renew` | dessin/economics/storage_lease.py:268-320 | Refuses unknown, closed, too short and too long; otherwise extends and reactivates |
| `StorageLease.StorageLeaseManager.Cancel` | dessin/economics/storage_lease.py:326-338 | Only the owner cancels a live lease |
| `StorageLease.StorageLeaseManager.CheckBlock` | dessin/economics/storage_lease.py:344-406 | The loop ticks every lease, records the events and returns the files that expired and those that became deletable |
| `StorageLease.StorageLeaseManager.MarkDeleted` | dessin/economics/storage_lease.py:408-418 | A known lease becomes deleted |
| `LeaseRuns.TickIsLater` | dessin/economics/storage_lease.py:359-404 | A tick moves a live lease to the later of its status and what its dates say |
| `LeaseRuns.TickClassifiesIff` | dessin/economics/storage_lease.py:359-404 | So it computes the stateless classification if and only if the status was not ahead of the dates |
| `LeaseRuns.CheckRefinesClassifier` | dessin/economics/storage_lease.py:344-406 | After any run with heights in order, a check leaves every live lease in the status its dates alone give |
| `LeaseRuns.CheckTwice` | dessin/economics/storage_lease.py:344-406 | A second check at one height changes, records and returns nothing |
| `LeaseRuns.SkippedHeightsDoNotMatter` | dessin/economics/storage_lease.py:344-406 | A check in between changes no final status |
| `LeaseRuns.SkippedHeightsKeepReports` | dessin/economics/storage_lease.py:344-406 | Nor does it lose or repeat a report of a deletable file |
| `LeaseRuns.ReportsDeletableIff` | dessin/economics/storage_lease.py:393-404 | A file is reported if and only if its live lease is past its grace and was not reported before |
| `LeaseRuns.ReportedOnce` | dessin/economics/storage_lease.py:344-406 | A reported file is not reported again until a renewal or creation of its lease is accepted |
| `LeaseRuns.ReportsAreSeparated` | dessin/economics/storage_lease.py:344-406 | On every run from the empty manager, at whatever heights: between two reports of a file its lease was renewed or created anew |
| `LeaseRuns.ReportedInTime` | dessin/economics/storage_lease.py:103-112 | A file is reported only at or after paid-through plus grace |
| `LeaseTerms.PaidThroughIsAccounted` | dessin/economics/storage_lease.py:212-338 | On every run from the empty manager a lease is paid through its creation height plus all blocks paid for since, and its total and number of renewals add up the same way |
| `LeaseTerms.CreateIff` | dessin/economics/storage_lease.py:212-262 | A creation is refused exactly for a live lease or a short term; otherwise the lease starts at its height with the configured windows, and no other lease changes |
| `LeaseTerms.RenewIff` | dessin/economics/storage_lease.py:268-320 | A renewal is accepted exactly for a live lease and a term within the limits; it adds blocks and payment to that lease and reactivates it |
| `LeaseTerms.CancelIff` | dessin/economics/storage_lease.py:326-338 | Only the owner cancels, only a live lease, and only its status changes |
| `LeaseTerms.DeleteIs` | dessin/economics/storage_lease.py:408-418 | Deleting marks the lease of the file, if there is one |
| `LeaseTerms.NotedIff` | dessin/economics/storage_lease.py:344-406 | A check notes of a lease exactly the statuses it reaches at this height, in its dates |
| `LeaseTerms.ListedExpiredIff` | dessin/economics/storage_lease.py:344-406 | The files a check lists as expired are exactly those whose leases run out at this height |
| `LeaseTerms.ListedDeletableIff` | dessin/economics/storage_lease.py:344-406 | The files it lists as deletable are exactly those whose grace ends |
| `LeaseTerms.LogOnlyGrows` | dessin/economics/storage_lease.py:212-418 | On every run the log of events only grows |
| `LeaseTerms.InLeaseOrder` | dessin/economics/storage_lease.py:344-406 | Notes and reports come in the order of the leases, an expiry before the deletability it brings |
| `Gossip.PogoConsensus.AddMessage` | dessin/consensus/consensus.py:1076-1178 | A message appends its block exactly when it is the next index, its hash is new and a height-0 block is the canonical one |
| `Gossip.PogoConsensus.GossipObject` | dessin/consensus/consensus.py:1209-1230 | Answers with the blocks after the first block of that digest, or with all of them |
| `Gossip.PogoConsensus.AddAttestation` | dessin/consensus/consensus.py:939-958 | A second vote of one sender on a block is refused; otherwise the vote is appended under its block, so every sender has one vote |
| `Gossip.PogoConsensus.CheckFinalization` | dessin/consensus/consensus.py:960-980 | Attested if and only if someone took a side and the positive share of the sided votes reaches the threshold; `AttestedIff` counts the votes |
| `Gossip.VotesMoveTheirWay` | dessin/consensus/consensus.py:960-980 | Agreement never takes a finalisation back, dissent never brings one about, and other votes do not matter |
| `Gossip.AttestedIff` | dessin/consensus/consensus.py:960-980 | In numbers of votes: somebody took a side, and positive votes times one minus the threshold are no fewer than negative ones times the threshold |
| `Gossip.DissentPrevents` | dessin/consensus/consensus.py:960-980 | Enough dissent always prevents a finalisation |
| `Gossip.PogoConsensus.FinalizeBlock` | dessin/consensus/consensus.py:982-1013 | Appends a block that is next in line and attested, with its attestations and height, and nothing else |
| `GossipRuns.StartIsWellFormed` | dessin/consensus/consensus.py:207-230 | The chain of a new node, the canonical genesis alone, is well formed |
| `GossipRuns.RunsKeepIndexed` | dessin/consensus/consensus.py:1136-1168 | On every run, local finalisation included, index equals height, genesis stays first and the chain only grows |
| `GossipRuns.GenesisStaysFinal` | dessin/consensus/consensus.py:207-230 | On every run the first block is the one hashed from fixed data, final at height 0 |
| `GossipRuns.ReceivedIff` | dessin/consensus/consensus.py:1136-1168 | A block is taken if and only if it is the next in height, its hash is new, and a first one is the genesis |
| `GossipRuns.AnswerIs` | dessin/consensus/consensus.py:1209-1230 | A request that names block k is answered with everything after it, one that names none with everything |
| `GossipRuns.StaysWellFormedIff` | dessin/consensus/consensus.py:1136-1168 | Hashes stay distinct if and only if a locally finalised block brings a new one; messages never break it |
| `GossipRuns.PrefixIsKept` | dessin/consensus/consensus.py:1136-1168 | Whatever blocks of an honest sender arrive, in any order and any number of times, the receiver stays a prefix |
| `GossipRuns.AnswerSynchronises` | dessin/consensus/consensus.py:1209-1230 | The answer to the receiver tip, delivered in order, makes the chains equal on everything transmitted |
| `GossipRuns.ArrivalsDecideHeight` | dessin/consensus/consensus.py:1136-1168 | Arrival order matters only through the height it lets the receiver reach |
| `GossipRuns.ShuffledRoundsSynchronise` | dessin/consensus/consensus.py:1136-1168 | Repeating all blocks, shuffled anew each round, makes the chains equal within as many rounds as blocks were missing |
| `GossipRuns.DivergenceIsPermanent` | dessin/consensus/consensus.py:1136-1168 | A receiver that differs from the sender at some height never follows it again |

## Left out

- Rounding: reals stand for floats, so rounding, overflow and NaN do not occur.
- Neural network arithmetic, optimisers and datasets: a training step is an uninterpreted deterministic function.
- The statistical checks and strike counting of the spot check, and hexadecimal spelling of digests and weights.
- VRF and signature cryptography: a tie-break is a function of the task id, a challenge stream a function of a counter.
- The economic event log, per-model payment statistics, printed messages and reasons given as text.
- Transaction fees, storage rental and query payments: short arithmetic over the transitions that are modelled.
- `unstake_tokens`: it only calls the unstake request that is modelled.
- Dictionary entries and slots of the scheduler, the leases and the market are values in sequences; that two
  holders of one Python object see each other's updates is not captured.
- ModuleObjects.Node.StripLora: trees in which one module object hangs under two names are not captured, nor is
  the freezing and re-enabling of gradients.
- ModuleObjects.Node.ApplyLora: the freezing of the base parameters is not modelled, nor are trees in which one
  module object hangs under two names.
- A negative maximum of active bootstrap nodes, which Python slicing would read from the end of the list.
- BlockTime.DynamicBlockTimeManager.AdjustBlockTimeAdaptive: the reason is a value of a datatype, without the
  percentages of its text, and the printed action is not modelled.
- Proposals and votes on block times, model-size scaling with logarithms, and the performance analysis behind them.
- SchedulerRuns.RunsKeep: that funded models count as paid up is stated for non-negative prices and explicit
  costs; a negative cost would raise a balance without refreshing the paid-up flag.
- SchedulerTraining.BalancedIsTrainedAgain: being trained again and again from arbitrary counters is shown under a
  condition on the queue that is sufficient; that not starving alone suffices is false for rounds of three
  (`NotBlockedIsNotEnough`) and left open for rounds of ten.
- SchedulerTraining.StarvedIsNeverTrained: the set of listed models does not change during the run; registering,
  pausing or running out of funds rebuilds the queue from another list.
- LeaseRuns.CheckRefinesClassifier: the grace window is taken to be non-negative.
- Lease and slot serialisation to and from dictionaries.
- Gossip.PogoConsensus.AddMessage: equivocation handling, the observation of committed blocks and the state
  memento are not modelled, and turning a block into a dictionary and back is the identity on transmitted fields.
- Gossip.PogoConsensus.FinalizeBlock: the distribution of the model file is left out, which handles its own
  errors (`dessin/consensus/consensus.py:1235-1300`) and changes no field modelled here; so are the hook for
  committed blocks and the removal from the pending ones.
- Linkage by previous hash: the message handler does not check it, so no linked chain is claimed.
- The enhanced finalisation that appends a block found by hash without an index check.
- Two-phase timing windows, reputation, slashing tables, BitTorrent, storage transport, sockets and the command line.
