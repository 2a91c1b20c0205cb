# Vega banking, activity streaks and the block explorer: a Dafny model

This project models three parts of the Vega protocol node and proves what they promise over whole runs.

**The banking engine** (`core/banking`). Chain events become asset actions, wait for the witnesses, and are
deduplicated and finalised on a tick. One-off transfers charge a fee, apply a discount and are paid at once or held
until their delivery time. Governance transfers fire once per interval, decay and end. Withdrawals are minted with
references that the bridge reports back. Checkpoints save all of it and load it into a fresh engine.

**The activity streak engine** (`core/activitystreak`). Once per epoch every known party is stepped as active or
inactive, by its volumes over all markets, and its reward multipliers follow the tier its streak has reached.

**The block explorer's store** (`blockexplorer`). Old transaction rows are migrated day by day, in sessions that may
crash and start again, and transactions are listed page by page with printed cursors.

Objects that the Go code updates in place are classes with `modifies` clauses. Loops over Go maps visit their keys in
an arbitrary order. Every such method is proved equal to a function on values, and the theorems over runs are about
those functions. Beside them stand lemmas that say in plain account names, positions, sums and times what the functions
come down to. The one Go `Engine` of the bank is split by what its methods touch:

| file | part |
|---|---|
| `AssetActions.dfy`, `ActionEngine.dfy` | asset actions, deduplication, deposits |
| `Verdicts.dfy` | what the witnesses said of an action, and what became of it |
| `Bridge.dfy`, `BridgeRuns.dfy` | bridge states, and what runs of actions make of them |
| `Scheduled.dfy`, `Transfers.dfy`, `Collateral.dfy` | one-off transfers, the queue of held ones, the ledger |
| `Payments.dfy` | what a one-off transfer does to every account, from submission to delivery |
| `BankRuns.dfy` | runs that mix one-off and held transfers with recurring, one-off and scheduled governance transfers |
| `FeeDiscounts.dfy` | trading fees that become transfer fee discounts |
| `Governance.dfy`, `GovernanceRuns.dfy` | governance transfers, one epoch end and whole lives |
| `ScheduledGovernance.dfy`, `GovernanceTimes.dfy` | one-off governance transfers held until their time, one tick and whole runs |
| `Withdrawals.dfy` | withdrawals and their references |
| `Checkpoint.dfy` | saving and loading |
| `ActivityStreak.dfy`, `ActivityEngine.dfy` | one party, and all parties over all markets |
| `Migrator.dfy`, `MigrationRuns.dfy` | the day-by-day migration, and runs with crashes |
| `TxCursor.dfy`, `Paging.dfy`, `PageWalk.dfy`, `PageContents.dfy` | cursors, one page, the walk through all pages, and which rows answer a request |
| `Common.dfy`, `Ordering.dfy` | shared: options, stable sorting by a key, sorted keys of a map |

## Where the code and its promise part

Some properties one would expect are false of the code. For each, one lemma shows it on an input or a family of
inputs, and another says exactly when the property holds. Where the rest of the node rules the inputs out, the entry
says so: the lemma is about the component by itself.

- A deposit tracked without a chain id is finalised again after its primary-chain twin
  (`LegacyAfterPrimaryCreditsTwice`); the rule only looks the other way. `OldCheckpointCreditsTwice` gets there by
  loading an old checkpoint. `FinalisedAgainIff` gives the exact guard.
- A held transfer is queued before collateral debits the sender, so a refused debit leaves a queued transfer that
  nothing backs (`RefusedDebitIsNotBacked`). `BalancedAfterSubmit` says for which answers of
  collateral the books stay as they were. Collateral as it is looks up the very account that the funds check found
  (`core/collateral/engine.go:2804`), so it does not refuse there.
- A governance transfer whose delivery is refused has debited its source all the same, reports nothing, and leaves the
  money in the account transfers pass through (`RefusedDeliveryStrandsFunds`). `ReportedIffNotHalfMade` is the exact
  condition, and `PassingAccountUnchangedIff` and `HeldFundsBackTheQueueIff` carry it through whole runs.
- A proposal may carry a factor above one, and then the cap of a recurring transfer grows past its maximum amount
  (`FactorAboveOneRaisesTheCap`). `CapNeverIncreasesIff` is the exact condition.
- Two governance transfers due in one tick at different times may get different amounts on different nodes, because the
  times are visited in map order (`OrderMatters`). For transfers that can pay, `OrderFreeIff` is the exact condition on
  all ledgers, and `SharedSourceIff` the one on a given ledger, all-or-nothing transfers included.
- A recurring governance transfer whose end epoch is not a whole number of intervals after its start never ends
  (`MisalignedEndNeverEnds`). `EndsIffAligned` is the exact condition.
- A benefit tier for a streak of zero breaks the multiplier law for parties without a streak (`ZeroTierBreaks`).
  `MultipliersFollowBestTier` and `EngineFollowsTiersIff` are the exact condition.
- The withdrawal counter is not in a checkpoint, so references can repeat after a restore
  (`RestoredReferenceRepeats`). `RestoredReferenceRepeatsIff` is the exact condition, and
  `RestoredReferencesIncreaseIff` the one for references that go on increasing.
- `EnableERC20` tracks a listing of an unknown asset, and a checkpoint that holds one cannot be loaded
  (`UnknownListingNotLoadable`). `LoadableIffRestorable` is the exact condition. The processor calls `EnableERC20`
  only for an asset that the notary has signed (`core/processor/process_chain_event.go:233-240`).
- Bridge states depend on the order of events when two different events share the newest position
  (`ConflictingEventsDisagree`). `BridgeConverges` is the exact condition. Two logs of one Ethereum block do not
  share a log index.
- Old rows of a day without blocks are never migrated and go with the old table (`RowOfDayWithoutBlockIsLost`).
  `FullSessionLosesNothingIff` and `NothingLostIffDaysRecorded` are the exact condition.
- A listing with two cursors is refused exactly when the cursors bound a window: the validity test is used the wrong
  way round (`ExampleWindowRefused`, `WindowsAnsweredIffEmpty`).
- A page of undecodable rows comes back empty and ends a client's walk early (`UndecodableRowEndsTheWalk`).
  `WalkReceivesAllIff` is the exact condition.

## Modelling decisions

- `num.Uint` amounts are unbounded naturals and `num.Decimal` is `real`; the conversion to an integer keeps the whole part.
- The reference key of an action is an injective encoding of the reference, so the reference itself is used.
- What the rest of the node answers is a parameter: which credits and movements collateral accepts, what the
  witnesses report, whether a dispatch strategy has anyone to pay, whether a database transaction commits.
- Collateral makes a movement that is short of funds with what is there and reports no error, as
  `getLedgerEntries` does. A batch stops at the first movement it refuses, and the ones before stay made.
- `requires` clauses on parameters (`ValidParams`, `ValidConfig`, `ValidLimits`, `ValidTransfer`, `Valid`) state what
  the network parameter and command validation in front of these functions guarantee. In particular a governance
  transfer's factor is only known not to be negative. A chunk length is positive.
- The log of a governance run records debits, delivered or not; the code itself reports only the delivered ones.
- An unstable sort or an SQL order is modelled by the stable sort, on rows whose keys are all different.
- Timestamps in the database are in microseconds and dates are UTC. Old and new rows reference existing blocks, and
  a trigger fills in the height of an inserted row
  (`blockexplorer/store/migrations/0005_add_block_height_to_tx_result.sql`).

## Model

| member | source | states |
|---|---|---|
| `AssetActions.NoReferenceFinalisedTwice` | core/banking/engine.go:391-425 | in every run of events, callbacks, ticks, restores and chain id updates, no two finalised actions share a reference and none repeats one seen before |
| `AssetActions.NoPrimaryAfterLegacyTwin` | core/banking/deduplicate.go:34-77 | with the primary chain id fixed, no primary-chain reference is finalised once its chain-less twin was seen |
| `AssetActions.TwiceOnlyAsLegacyTwin` | core/banking/deduplicate.go:34-77 | two finalised actions of a run are one on-chain event exactly when the later is the chain-less twin of the earlier |
| `AssetActions.FinalisedAgainIff` | core/banking/deduplicate.go:34-77 | the exact guard under which a verified action finalises an event a second time |
| `AssetActions.OnceAcrossTheUpgrade` | core/banking/deduplicate.go:50-71 | without chain-less actions an event is finalised at most once, references recorded before the upgrade included |
| `AssetActions.LegacyAfterPrimaryCreditsTwice` | core/banking/deduplicate.go:50-71 | for every deposit tracked without a chain id, the same event coming in with the primary chain's and settling first is credited, and then the deposit is credited again |
| `AssetActions.CreditsMatchEvents` | core/banking/engine.go:474-560 | every finalised deposit of a run credits exactly the party, asset and amount of an event the run was given, or nothing if collateral refuses |
| `AssetActions.TickSettlesVerified` | core/banking/engine.go:391-425 | a tick removes exactly the actions that are not pending, and every verified one is finalised by it unless it or its legacy twin was seen |
| `AssetActions.RunFresh` | core/banking/engine.go:458-472 | over any run the set of seen references is the starting one plus the references of the log, each new when it appears |
| `AssetActions.Settle` | core/banking/engine.go:404-424 | handling one action keeps every tracked deposit's record and removes the action unless it is pending |
| `AssetActions.SettleAllCovers` | core/banking/engine.go:391-425 | after a batch every verified action in it counts as seen |
| `AssetActions.ReceiveConsistent` | core/banking/erc20.go:146-158 | tracking an action keeps a matching deposit record for every tracked deposit |
| `AssetActions.ReferencesTellEventsApart` | core/banking/asset_action.go:192-210 | two ERC20 events have one reference exactly if block, transaction, log index and chain agree, two builtin deposits exactly if their digests do, and never one of each |
| `AssetActions.TrimmedIsNamed` | core/banking/engine.go:610-635 | a party or asset loses one leading 0x and nothing else |
| `Verdicts.OnlyVouchedForFinalised` | core/banking/engine.go:427-438 | whatever a run finalises and credits was, when its tick came, last said to be valid, with nothing received under its id since; or it started out verified |
| `Verdicts.RefusedIsDropped` | core/banking/engine.go:419-438 | an action whose last verdict is negative leaves the table at the next tick, with no output and no credit |
| `Verdicts.UnjudgedWaits` | core/banking/engine.go:399-403 | an action nobody has judged yet is left where it is by every tick |
| `Verdicts.VouchedForIsSettled` | core/banking/engine.go:391-438 | an action last said to be valid is settled by the next tick: finalised unless it or its legacy twin was seen |
| `Verdicts.TickMarksDuplicate` | core/banking/deduplicate.go:34-77 | a tick finalises nothing for a verified deposit of an event seen before, and leaves its record marked as a rejected duplicate, whatever else it settles |
| `Verdicts.CreditsNameTheEvent` | core/banking/engine.go:544-635 | whatever a run credits is the amount of the deposit event, in the asset and to the party it names |
| `ActionEngine.Engine.constructor` | core/banking/engine.go:233-294 | a fresh engine tracks nothing and both bridges are active at position zero |
| `ActionEngine.Engine.Track` | core/banking/erc20.go:350-352 | adds the action as pending, with its deposit record if it is a deposit |
| `ActionEngine.Engine.DepositERC20` | core/banking/erc20.go:115-162 | accepted exactly for a known ERC20 asset on a served chain; then the deposit is tracked, otherwise nothing changes |
| `ActionEngine.Engine.DepositBuiltinAsset` | core/banking/builtin_assets.go:56-94 | accepted exactly for a known builtin asset; then the deposit is tracked |
| `ActionEngine.Engine.EnableERC20` | core/banking/erc20.go:48-79 | refused exactly for an asset id already tracked or a chain not served; an unknown asset is tracked without one |
| `ActionEngine.Engine.BridgeStoppedOrResumed` | core/banking/bridge_stop_resume.go:24-63 | accepted exactly for a served chain; then the stop or resume is tracked |
| `ActionEngine.Engine.OnCheckDone` | core/banking/engine.go:427-438 | the very object the witness was given becomes verified or refused as it says; a newer action under the same id is left alone |
| `ActionEngine.Engine.DeduplicateAssetAction` | core/banking/deduplicate.go:34-77 | a duplicate marks its deposit record, a new action records its reference, and nothing else changes |
| `ActionEngine.Engine.FinalizeAction` | core/banking/engine.go:474-508 | the switch on the kind of action, bridge events for unknown chains included |
| `ActionEngine.Engine.FinalizeDeposit` | core/banking/engine.go:544-560 | removes the record and credits what it says if collateral accepts |
| `ActionEngine.Engine.ResolveAction` | core/banking/engine.go:404-424 | a verified action is deduplicated and then finalised |
| `ActionEngine.Engine.ProcessAction` | core/banking/engine.go:399-424 | one turn of the tick's loop equals the value-level step |
| `ActionEngine.Engine.ProcessAssetActions` | core/banking/engine.go:391-425 | a tick over the sorted ids equals the value-level tick, so all theorems over runs apply to the engine |
| `BridgeStates.BridgeState.NewBridgeStopped` | core/banking/bridge_stop_resume.go:78-84 | a stop takes effect exactly if its block is later than the one held, or its log in the same block |
| `BridgeStates.BridgeState.NewBridgeResumed` | core/banking/bridge_stop_resume.go:86-92 | a resume takes effect exactly if its block is later than the one held, or its log in the same block |
| `BridgeStates.ObserveAllIsLatest` | core/banking/bridge_stop_resume.go:78-101 | after any events the state is that of the greatest event beyond the start, or the start |
| `BridgeStates.SameEventsSameState` | core/banking/bridge_stop_resume.go:78-101 | without a conflict at the top, histories with the same set of events agree, replays included |
| `BridgeStates.BridgeConverges` | core/banking/bridge_stop_resume.go:94-101 | all permutations of the events agree exactly when no two different events share the newest position |
| `BridgeStates.ConflictingEventsDisagree` | core/banking/bridge_stop_resume.go:78-101 | a stop and a resume at one position leave different states in different orders |
| `BridgeStates.HoldsNewestPosition` | core/banking/bridge_stop_resume.go:78-101 | after any events the position held is at or after that of every event and of the start, block before log index, and the state is that of an event there, or the start |
| `BridgeStates.TakesEffectIff` | core/banking/bridge_stop_resume.go:94-101 | an event takes effect exactly if its block is later, or its log in the same block |
| `BridgeStates.LaterResumeStarts` | core/banking/bridge_stop_resume.go:86-101 | a stopped bridge is started exactly by a resume in a later block, whatever its log index, or by a later log of the same block |
| `BridgeRuns.BridgesFollowLog` | core/banking/engine.go:491-504 | over any run of actions on fixed chains each bridge is in the state that the finalised stop and resume events of its chain leave |
| `BridgeRuns.SameEventsSameBridges` | core/banking/engine.go:491-504 | two runs that finalise the same stop and resume events of a chain, in any order, agree on its bridge, unless two different events share the newest position |
| `BridgeRuns.ServesNamedChains` | core/banking/engine.go:311-320 | after an update the engine serves the two chains it names, through any run until the next update |
| `Collateral.Accounts.TransferFunds` | core/collateral/engine.go:2001-2072 | the accepted prefix of the movements is made, and success means all of them |
| `Collateral.ExecuteConserves` | core/collateral/engine.go:3177-3267 | no sequence of movements, short of funds or not, changes the total of an asset |
| `Collateral.ExecuteSnoc` | core/collateral/engine.go:3177-3267 | movements take effect one after the other |
| `ScheduledTransfers.TransferQueue.ScheduleTransfer` | core/banking/oneoff_transfers.go:173-193 | the transfer goes to the end of the list of its delivery time |
| `ScheduledTransfers.TransferQueue.DistributeScheduledTransfers` | core/banking/oneoff_transfers.go:123-171 | whatever order the map is walked in, exactly the due lists are handed over, earliest first, and the rest stays |
| `ScheduledTransfers.DeliveredIsStableSort` | core/banking/oneoff_transfers.go:123-193 | over any run with non-decreasing time, what all ticks handed over is the stable sort by delivery time of everything ever scheduled and due |
| `ScheduledTransfers.EachScheduledOnce` | core/banking/oneoff_transfers.go:123-193 | in every reachable state each scheduled transfer is either delivered or queued, once, in order, and none was delivered early |
| `ScheduledTransfers.HistoryIsHeld` | core/banking/transfers_common.go:181-203 | over any run exactly the transfers submitted while their delivery time had not passed are scheduled, in order |
| `ScheduledTransfers.DueListUnique` | core/banking/oneoff_transfers.go:123-148 | only one sequence holds exactly the due lists in order of time |
| `ScheduledTransfers.DueListExists` | core/banking/oneoff_transfers.go:123-148 | collecting the due lists in any order and sorting by time gives that sequence |
| `Checkpoints.SaveSeen` | core/banking/checkpoint.go:42-70 | exactly the seen references are written, none of them twice |
| `Checkpoints.SaveQueue` | core/banking/checkpoint.go:350-364 | every list of the queue is written once, under its time, in order of time |
| `Checkpoints.SaveActions` | core/banking/checkpoint.go:380-425 | the tracked actions are written in ascending order of ids |
| `Checkpoints.Save` | core/banking/checkpoint.go:42-70 | the whole checkpoint represents the engine and its queue |
| `Checkpoints.SavedDistinct` | core/banking/checkpoint.go:380-425 | a saved checkpoint holds every tracked action and none twice |
| `Checkpoints.AdoptAction` | core/banking/checkpoint.go:190-196 | a loaded action is tracked with a rebuilt deposit record |
| `Checkpoints.LoadActions` | core/banking/checkpoint.go:126-199 | loading succeeds exactly when every action has a known asset, a served chain or none, and a hash, and then adopts them one after the other, the later of two with one id winning |
| `Checkpoints.LoadQueue` | core/banking/checkpoint.go:251-269 | the saved lists give back the queue they were saved from |
| `Checkpoints.Load` | core/banking/checkpoint.go:72-124 | a successful load holds the seen references, bridges and queue of the checkpoint and its actions |
| `Checkpoints.AdoptAllIsRestored` | core/banking/checkpoint.go:190-196 | actions with distinct ids adopted into a fresh engine are tracked with exactly their deposit records |
| `Checkpoints.LoadedAccepted` | core/banking/checkpoint.go:152-165 | whatever loads, chain-less ERC20 actions included, is a state that can be saved and loaded again |
| `Checkpoints.OldCheckpointCreditsTwice` | core/banking/checkpoint.go:152-165 | a loaded chain-less deposit and the replayed event with the primary chain's id are both let in and both credited |
| `Checkpoints.LoadableIffRestorable` | core/banking/checkpoint.go:126-199 | the checkpoint of an accepted state loads exactly when no action lacks a hash or lists an unknown asset |
| `Checkpoints.UnknownListingNotLoadable` | core/banking/checkpoint.go:126-199 | a tracked listing of an unknown asset is accepted and makes the checkpoint unloadable |
| `Checkpoints.ActionsRoundTrip` | core/banking/checkpoint.go:380-425 | saved and loaded actions are the original ones |
| `Checkpoints.SaveAndLoad` | core/banking/checkpoint.go:42-124 | saving one engine and loading into a fresh one gives the same state, or fails exactly when an action is not restorable |
| `Checkpoints.RestoreChangesNothing` | core/banking/checkpoint.go:72-124 | any later events, callbacks, ticks and restores finalise and credit the same as without the restore |
| `Checkpoints.RunAccepted` | core/banking/erc20.go:115-162 | every reachable state on fixed chains holds only actions that the entry points or a load let in |
| `FeeDiscounts.NextDiscountIsOneLine` | core/banking/fee_discount.go:107-158 | the rule for one key is floor(decay * old + fees), or zero below the tracked minimum times the quantum |
| `FeeDiscounts.EpochEndPointwise` | core/banking/fee_discount.go:38-158 | the two-phase epoch end applies that one line once to every party and asset, tracked or not |
| `FeeDiscounts.TwoPhases` | core/banking/fee_discount.go:38-105 | updating the assets with fees and then decaying the untouched keys is the pointwise rule |
| `FeeDiscounts.CalculateDiscount` | core/banking/fee_discount.go:233-245 | fee paid plus discount is the fee, and the discount is the smaller of fee and what is available |
| `FeeDiscounts.Tracker.RegisterTradingFees` | core/banking/fee_discount.go:160-178 | what each party has pending in the asset grows by its fees, whatever order the map is walked in, and nothing else changes |
| `FeeDiscounts.Tracker.EstimateFeeDiscount` | core/banking/fee_discount.go:200-212 | quotes the split from the available discount without changing it |
| `FeeDiscounts.Tracker.ApplyFeeDiscount` | core/banking/fee_discount.go:180-198 | the discount granted leaves the available one; the subtraction cannot wrap |
| `FeeDiscounts.Tracker.UpdateFeeDiscountsForAsset` | core/banking/fee_discount.go:107-158 | every party with fees gets its new discount from its old one, in any order |
| `FeeDiscounts.Tracker.DecayAllFeeDiscounts` | core/banking/fee_discount.go:53-105 | every key the first phase did not touch decays once and goes below the minimum |
| `FeeDiscounts.Tracker.ApplyPendingFeeDiscountsUpdates` | core/banking/fee_discount.go:38-51 | the whole epoch end empties the pending fees and gives the pointwise result |
| `FeeDiscounts.DiscountsNeverExceedFees` | core/banking/fee_discount.go:160-198 | in every run, granted plus available plus pending never exceed the fees registered for a party and asset |
| `FeeDiscounts.RegistrationAdds` | core/banking/fee_discount.go:160-178 | registering adds each party's fees to what it has pending in the asset, and changes nothing else |
| `FeeDiscounts.PendingAddsUp` | core/banking/fee_discount.go:160-178 | through any run inside an epoch the pending fee of a party and asset is the starting one plus all fees registered for it |
| `FeeDiscounts.EpochTurnsFeesIntoDiscount` | core/banking/fee_discount.go:38-51 | the end of the epoch turns exactly the discount left and the fees registered since the last end into the new discount, by the one line, and leaves nothing pending |
| `FeeDiscounts.SpendTakesFromOne` | core/banking/fee_discount.go:180-198 | a granted discount leaves the party's own in that asset, and no other |
| `FeeDiscounts.UpdatedParamsInForce` | core/banking/transfers_common.go:54-62 | updated parameters are in force through any run until the next update |
| `Transfers.CalculateFeeForTransfer` | core/banking/fee_estimate.go:40-66 | no fee for a party's own vested rewards; otherwise the whole part of the smaller of the fee factor's share and the maximum in quanta |
| `Transfers.EnsureEnoughFunds` | core/banking/transfers_common.go:316-367 | passes exactly when the account paid from covers amount and fee |
| `Transfers.EnsureFeeForTransferFunds` | core/banking/transfers_common.go:302-314 | the pre-check passes exactly when the charge would, and changes nothing |
| `Transfers.MakeFeeTransfer` | core/banking/transfers_common.go:265-300 | spends the discount, even if the funds check that follows fails, and quotes the estimated fee |
| `Transfers.FeesAgree` | core/banking/fee_estimate.go:24-38 | estimate, pre-check and charge agree on every state and transfer; fee plus discount is the theoretical fee; a passed check covers amount and fee |
| `Transfers.ProcessTransfer` | core/banking/transfers_common.go:150-215 | discount, funds check, scheduling and movements in the order of the code |
| `Transfers.DistributeDue` | core/banking/oneoff_transfers.go:123-171 | what is due leaves the queue and is paid in order, for as many movements as collateral makes |
| `Transfers.SenderPaysAmountAndFee` | core/banking/transfers_common.go:217-243 | a transfer made in full takes amount and fee from the sender and no more |
| `Transfers.DeliverEffect` | core/banking/oneoff_transfers.go:149-171 | a tick pays every receiver what is due; what collateral does not make stays in the held account with nothing queued for it |
| `Transfers.DeliverDraws` | core/banking/oneoff_transfers.go:149-171 | backed or not, a tick moves the held funds off the queue by what it does not hand over and by what its deliveries fall short |
| `Transfers.BalancedAfterSubmit` | core/banking/transfers_common.go:185-215 | exactly for which answers of collateral the held funds keep their distance from the queue |
| `Transfers.RefusedDebitIsNotBacked` | core/banking/transfers_common.go:185-215 | a held transfer whose debit is refused moves nothing and leaves the queue ahead of the held funds by its amount |
| `Transfers.SubmitEffect` | core/banking/transfers_common.go:150-215 | by how much a transfer moves the held funds off the queue, for every answer of collateral, in its asset and in every other |
| `Transfers.DueAmount` | core/banking/oneoff_transfers.go:123-148 | what is due plus what stays is what was queued |
| `Payments.SubmitLedger` | core/banking/transfers_common.go:150-243 | account by account: a transfer made in full takes the amount from the payer, or from its derived key, and the fee from the sender to the network; the amount is with the receiver, or waits if the delivery time has not passed; no other account changes |
| `Payments.FeeInPlain` | core/banking/fee_estimate.go:24-66 | the fee is what is left, after the discount still available, of nothing for a party's own vested rewards, and otherwise of the whole part of the smaller of the factor's share and the maximum in quanta |
| `Payments.HeldIsDeliveredWhenDue` | core/banking/oneoff_transfers.go:123-193 | whatever else waits, a held transfer pays its receiver exactly its amount in the tick at or after its time, nothing before, compared account by account with the same tick without it |
| `Payments.DeliveredFromEmpty` | core/banking/oneoff_transfers.go:123-193 | from an empty queue, a held transfer and a tick at or after its time leave every account as an immediate transfer would; a tick before its time pays nothing |
| `Payments.ScheduledPay` | core/banking/oneoff_transfers.go:173-193 | one more transfer in the queue adds its own amount to what falls due at its time, and to nobody else |
| `Payments.GoesThroughIff` | core/banking/transfers_common.go:316-367 | with collateral willing, a transfer goes through exactly if the payer's account exists and holds amount and fee, the last unit included |
| `BankRuns.HeldFundsExplained` | core/banking/engine.go:357-389 | over any run of one-off, held, recurring, one-off governance and scheduled governance transfers, the funds held beyond the queue grow by what was debited and not delivered and by what deliveries fell short, and shrink by what was queued without a debit |
| `BankRuns.NothingShort` | core/banking/oneoff_transfers.go:149-171 | as long as held transfers are debited, no delivery falls short |
| `BankRuns.HeldFundsBackTheQueueIff` | core/banking/oneoff_transfers.go:123-171 | from balanced books, with held transfers debited, what is debited and not delivered equals the sum of all scheduled transfers exactly when everything debited for delivery was delivered |
| `BankRuns.HeldFundsBackTheQueue` | core/banking/transfers_common.go:165-215 | it does in every run in which collateral makes the movements it is asked for, whichever of these transfers the run mixes |
| `BankRuns.FundsConserved` | core/banking/transfers_common.go:165-215 | the total of every asset, fees included, is the same after any run of one-off, held, recurring, one-off governance and scheduled governance transfers, whatever collateral refuses |
| `Governance.CalculateGovernanceTransferAmount` | core/banking/gov_transfers.go:319-346 | at most all four limits and always one of them; all-or-nothing fails exactly when a network limit cuts what was asked |
| `Governance.SourceNeverOverdrawn` | core/banking/gov_transfers.go:205-299 | a debit is within every limit and the balance, every account changes by exactly the debit wherever it lands, and success reports a delivered debit |
| `Governance.ReportedIffNotHalfMade` | core/collateral/engine.go:2074-2135 | the source loses what is reported and the payee gets it exactly unless collateral makes a positive debit and refuses the delivery |
| `Governance.RefusedDeliveryStrandsFunds` | core/collateral/engine.go:2094-2130 | then the source has paid, an error is reported, and the money stays in the account transfers pass through |
| `Governance.AmountInPlain` | core/banking/gov_transfers.go:319-346 | the amount is what the proposal asks for cut to what the network allows, each a whole part of a plain product; all-or-nothing fails exactly when something would be cut |
| `Governance.TurnInPlain` | core/banking/gov_transfers.go:205-299 | a strategy with nobody to pay moves nothing; otherwise the amount goes from the source to the strategy's reward account, or the destination without one, and no other account changes |
| `Governance.RecurringTransfers.ProcessGovernanceTransfer` | core/banking/gov_transfers.go:205-299 | amount, skipped strategies and the two movements, of which those before a refusal stay made |
| `Governance.CapNeverIncreasesIff` | core/banking/gov_transfers.go:195-202 | the cap never increases from epoch to epoch exactly when the factor does not exceed one or the maximum is zero, rounding considered |
| `Governance.FactorAboveOneRaisesTheCap` | commands/proposal_submission.go:951-957 | a factor of two, which validation lets through, doubles a maximum of ten |
| `Governance.DecayingCapStep` | core/banking/gov_transfers.go:195-202 | with a factor up to one the cap of an epoch is at most that of the epoch before and the maximum amount |
| `Governance.CapIsFloor` | core/banking/gov_transfers.go:195-202 | the cap is the whole part of the decayed maximum |
| `Governance.DecayedTotal` | core/banking/gov_transfers.go:195-214 | payments within their caps, each times (1 - factor), add up to at most what is left to decay |
| `Governance.RecurringTransfers.NewRecurring` | core/banking/gov_transfers.go:188-192 | the transfer joins list and map |
| `Governance.RecurringTransfers.DeleteGovTransfer` | core/banking/gov_transfers.go:135-148 | the first list entry with the id and the map entry go, or nothing if there is none |
| `Governance.RecurringTransfers.ProcessAll` | core/banking/gov_transfers.go:84-124 | every listed transfer has its turn in order on the ledger the others left |
| `Governance.RecurringTransfers.DistributeRecurring` | core/banking/gov_transfers.go:84-133 | the epoch end: payments, then removal of what failed or ended |
| `GovernanceRuns.OneTurn` | core/banking/gov_transfers.go:84-133 | each transfer has exactly one turn per epoch end, whatever the others do |
| `GovernanceRuns.ListAndMapAgree` | core/banking/gov_transfers.go:135-148 | in every reachable state the ordered list and the map hold the same transfers under the same ids |
| `GovernanceRuns.StaysUnlessFailedOrOver` | core/banking/gov_transfers.go:84-133 | an epoch end removes a transfer from list and map exactly if its turn came and processing it failed, or this was its last epoch |
| `GovernanceRuns.TurnsInOrderOfCreation` | core/banking/gov_transfers.go:188-192 | through any run a transfer created later stays behind the older ones in the list every epoch end goes through |
| `GovernanceRuns.FiresExactlyWhenDue` | core/banking/gov_transfers.go:84-133 | through any interleaving an undisturbed transfer fires in exactly its firing epochs and stays until its end |
| `GovernanceRuns.FiringCount` | core/banking/gov_transfers.go:93-103 | it fires once per whole interval since its start |
| `GovernanceRuns.RecurringTransferCompletes` | core/banking/gov_transfers.go:84-148 | with n dividing e - s + 1 it fires (e - s + 1) / n times, last in e, and is then in neither list nor map |
| `GovernanceRuns.EndsIffAligned` | core/banking/gov_transfers.go:93-124 | it ends by itself exactly when its end epoch is reached and a whole number of intervals after its start |
| `GovernanceRuns.MisalignedEndNeverEnds` | core/banking/gov_transfers.go:93-124 | in every undisturbed run a transfer with a misaligned end stays in list and map |
| `GovernanceRuns.MisalignedKeepsFiring` | core/banking/gov_transfers.go:93-124 | interval 2 from epoch 1 with end 3: it fires in every second epoch of any such run |
| `GovernanceRuns.RunWithinCaps` | core/banking/gov_transfers.go:205-214 | in any run a transfer is debited at most once per epoch and at most the epoch's cap |
| `GovernanceRuns.TotalPaidBounded` | core/banking/gov_transfers.go:195-214 | in any run the total debited for a transfer, delivered or not, times (1 - factor), is at most its maximum amount |
| `GovernanceRuns.RunConserves` | core/banking/gov_transfers.go:284-299 | no run of governance transfers, half-made ones included, changes the total of an asset |
| `GovernanceRuns.LedgerFollowsLog` | core/banking/gov_transfers.go:205-299 | over any run every balance is its starting one less the debits and plus what landed there |
| `GovernanceRuns.PassingAccountUnchangedIff` | core/collateral/engine.go:2094-2130 | over any run the account transfers pass through gains exactly the undelivered debits, so it is unchanged exactly when there are none |
| `ScheduledGovernance.Schedule.NewOneOff` | core/banking/gov_transfers.go:168-187 | without a delivery time, or with one that has passed, the transfer is paid at once; otherwise it goes to the end of the list of its time |
| `ScheduledGovernance.Schedule.DueNow` | core/banking/gov_transfers.go:61-66 | exactly the due times, each once, in whatever order the map yields them |
| `ScheduledGovernance.Schedule.Distribute` | core/banking/gov_transfers.go:60-82 | all due times are gone through in the order the map yields them, each list in order, and leave the map |
| `ScheduledGovernance.ListAgrees` | core/banking/gov_transfers.go:319-346 | a list makes the same debits on any two ledgers that agree at its sources |
| `ScheduledGovernance.OrderDoesNotMatter` | core/banking/gov_transfers.go:60-82 | if transfers of different due times stay out of each other's sources, every account ends the same whatever the order of the times |
| `ScheduledGovernance.SharedSourceIff` | core/banking/gov_transfers.go:319-346 | two transfers out of one account to different payees end the same in both orders, on a given ledger, exactly when each pays what it still pays after the other |
| `ScheduledGovernance.OrderMatters` | core/banking/gov_transfers.go:60-82 | two transfers that can pay, one of which pays from or into the other's source: there is a ledger on which the order changes a balance |
| `ScheduledGovernance.OrderFreeIff` | core/banking/gov_transfers.go:60-82 | for two transfers that can pay, to different payees and not into their own sources, every ledger ends the same in both orders exactly when neither pays from or into the other's source |
| `ScheduledGovernance.TickOrderFreeIff` | core/banking/gov_transfers.go:60-82 | the same for a tick with one such transfer at each of two due times |
| `ScheduledGovernance.AlwaysCutNeverMatters` | core/banking/gov_transfers.go:341-344 | an all-or-nothing transfer that the limits always cut never pays, so sharing its source changes nothing |
| `GovernanceTimes.EachHandedOverOnce` | core/banking/gov_transfers.go:60-82 | in every reachable state, for every delivery time, what was proposed for it in time is what was handed over followed by what waits, in order, whatever order the map yields the times in |
| `GovernanceTimes.TickHandsOverWhatIsDue` | core/banking/gov_transfers.go:60-82 | a tick hands over nothing early, and after it everything proposed in time for now or before has been handed over |
| `Withdrawals.Book.NewWithdrawal` | core/banking/engine.go:586-609 | the reference is the counter plus the block time in seconds, and the counter moves on |
| `Withdrawals.Book.WithdrawERC20` | core/banking/erc20.go:194-275 | an unknown or wrong asset, a chain not served or a stopped bridge is refused and spends no reference; otherwise one is spent and the withdrawal is recorded as finalised or rejected |
| `Withdrawals.Book.WithdrawBuiltinAsset` | core/banking/builtin_assets.go:31-54 | a reference is always spent and the withdrawal recorded, finalised exactly for a builtin asset that collateral lets go |
| `Withdrawals.Book.FinalizeWithdraw` | core/banking/engine.go:568-584 | the record stays, with the status collateral's answer gives it |
| `Withdrawals.Book.GetWithdrawalFromRef` | core/banking/engine.go:440-456 | the first record with the reference in ascending order of ids, if there is one |
| `Withdrawals.Book.ERC20WithdrawalEvent` | core/banking/erc20.go:164-192 | succeeds exactly for a number that a finalised and signed record has as its reference, and then marks that record and changes nothing else |
| `Withdrawals.ReferencesStrictlyIncrease` | core/banking/engine.go:586-609 | with block time never going back, references strictly increase over every run of requests and reports, every record is one that was minted, and looking its reference up finds it and no other |
| `Withdrawals.ReportMarksItsOwn` | core/banking/erc20.go:164-192 | in every reachable state the report of a recorded reference changes that record, if it can be reported, and no other |
| `Withdrawals.ReferencesInClosedForm` | core/banking/engine.go:586-609 | every reference of a run is its number plus the time it was asked for |
| `Withdrawals.LastRequestIsRecorded` | core/banking/engine.go:586-609 | the last request for an id is on record at the end of any run, with its number plus the seconds of its block time as reference |
| `Withdrawals.RecordedAsAsked` | core/banking/engine.go:586-609 | a record has the id and amount asked for, and the party and asset named |
| `Withdrawals.RestoredReferencesIncreaseIff` | core/banking/checkpoint.go:42-70 | over any run, a restore and any further run, references go on increasing exactly when the first request after the restore comes later than the last reference before it |
| `Withdrawals.RestoredReferenceRepeatsIff` | core/banking/checkpoint.go:42-70 | a reference repeats across a restore exactly when two requests' times differ by as much as their numbers do the other way |
| `Withdrawals.RestoredReferenceRepeats` | core/banking/engine.go:586-609 | two withdrawals in one block, a restore and a third a second later: a reference repeats |
| `ActivityStreak.UpdateMultipliers` | core/activitystreak/activitiystreak.go:50-65 | the loop over tiers equals the scan, and leaves an inactive party alone |
| `ActivityStreak.ScanFindsBest` | core/activitystreak/activitiystreak.go:50-65 | over sorted tiers the scan ends on the best tier reached, or changes nothing |
| `ActivityStreak.InactiveIsTrailingRun` | core/activitystreak/activitiystreak.go:246-269 | after any history `Inactive` is the length of the trailing inactive run |
| `ActivityStreak.ActiveCountsSinceReset` | core/activitystreak/activitiystreak.go:246-269 | after any history `Active` counts the active epochs since the last inactive run that reached the limit |
| `ActivityStreak.LastResetExists` | core/activitystreak/activitiystreak.go:246-269 | every history has such a point |
| `ActivityStreak.MultipliersFollowBestTier` | core/activitystreak/activitiystreak.go:41-65 | over all histories the multipliers are those of the best tier reached, exactly when no tier grants anything for a streak of zero |
| `ActivityStreak.ZeroTierBreaks` | core/activitystreak/activitiystreak.go:50-65 | a tier for a streak of zero that grants something is not given to a party without a streak |
| `ActivityStreak.CheckTiers` | core/types/activity_streak_benefit_tiers.go:95-121 | accepts exactly the lists without a repeated minimum streak whose multipliers are decimals of at least one |
| `ActivityStreak.TiersUpdate` | core/activitystreak/activitiystreak.go:124-137 | tiers are sorted by minimum streak, none is added or dropped, and distinct ones stay distinct |
| `ActivityEngine.AccumulateStats` | core/activitystreak/activitiystreak.go:168-200 | the nested loops sum each party's volumes over all markets, in any order |
| `ActivityEngine.Engine.OnBenefitTiersUpdate` | core/activitystreak/activitiystreak.go:124-137 | an invalid list is refused and changes nothing; a valid one leaves sorted and distinct tiers |
| `ActivityEngine.Engine.UpdateStreak` | core/activitystreak/activitiystreak.go:246-269 | steps one party, new or known, as its two volumes and minimums call for, and no other |
| `ActivityEngine.Engine.Update` | core/activitystreak/activitiystreak.go:168-229 | every party known or seen is stepped exactly once |
| `ActivityEngine.EpochCounts` | core/activitystreak/activitiystreak.go:168-269 | an epoch makes a party active exactly if its open or its trade volumes, summed over all markets, exceed their minimum; its streak then grows by one, and otherwise ends with its multipliers once the inactive epochs reach the limit |
| `ActivityEngine.EpochKnows` | core/activitystreak/activitiystreak.go:168-229 | exactly the parties known before or with volume in some market are known after an epoch |
| `ActivityEngine.PartyFollowsOwnHistory` | core/activitystreak/activitiystreak.go:168-229 | from the epoch it first turns up a party is known forever, and its record is that of its own history of epochs in which the sum of its open or of its trade volumes exceeds the minimum |
| `ActivityEngine.CountersInClosedForm` | core/activitystreak/activitiystreak.go:246-269 | after any epochs over all markets the counters of every party have their closed form |
| `ActivityEngine.EngineFollowsTiersIff` | core/activitystreak/activitiystreak.go:168-269 | over all epochs and markets every party's multipliers are those of the best tier reached, exactly when no tier grants anything for a streak of zero |
| `Migrations.Chunks` | blockexplorer/store/migrator.go:219-237 | the chunk loop ends, and its half-open chunks adjoin from the start of the day to its end |
| `Migrations.EachInstantInOneChunk` | blockexplorer/store/migrator.go:219-237 | each instant of the day lies in exactly one chunk |
| `Migrations.MoveChunk` | blockexplorer/store/migrator.go:226-234 | inserting one chunk after the others is moving the longer stretch: rows moved earlier never stand in the way |
| `Migrations.Migrator.GetMigrationDates` | blockexplorer/store/migrator.go:116-155 | the days of all blocks are recorded, marks are kept, and the unmigrated days come back, latest first |
| `Migrations.Migrator.DoMigration` | blockexplorer/store/migrator.go:157-274 | on commit the old rows of the day that clash with nothing are in the new table with the height of their block, and the day is marked; otherwise nothing changes |
| `Migrations.Migrator.Migrate` | blockexplorer/store/migrator.go:69-114 | a session migrates a prefix of the pending days, and drops the old table only after all of them |
| `Migrations.DayKeepsSound` | blockexplorer/store/migrator.go:226-234 | migrating a day keeps the new table's constraints and the heights of its rows |
| `MigrationRuns.SessionIsARun` | blockexplorer/store/migrator.go:69-114 | what a session computes is a run of the machine the theorems below are about |
| `MigrationRuns.RowIsMovedIffDayIsMarked` | blockexplorer/store/migrator.go:157-274 | through crashes, restarts and new arrivals, an old row is in the new table with its block's height exactly when its day is marked |
| `MigrationRuns.MarkedDaysAreCovered` | blockexplorer/store/migrator.go:226-243 | whatever arrives, every old row of a marked day is there or an arrival holds its key |
| `MigrationRuns.KeysStayUnique` | blockexplorer/store/migrator.go:226-234 | in every reachable state no two rows of the new table share a row id or a place in a block |
| `MigrationRuns.NothingLostIffDaysRecorded` | blockexplorer/store/migrator.go:109-154 | the old table goes only when every recorded day is marked, and then no row is lost exactly when every row's day is recorded |
| `MigrationRuns.FullSessionLosesNothingIff` | blockexplorer/store/migrator.go:69-114 | a session that runs to its end loses no row exactly when every old row's day is recorded already or is the day of a block |
| `MigrationRuns.RowOfDayWithoutBlockIsLost` | blockexplorer/store/migrator.go:126-133 | a row logged after midnight, its block before and none after, is lost |
| `TxCursors.PrintThenParse` | blockexplorer/entities/transaction.go:109-133 | parsing a printed cursor gives it back, for every 64-bit block and 32-bit index |
| `TxCursors.PrintedParsesIff` | blockexplorer/entities/transaction.go:109-133 | a printed cursor parses exactly if its block fits in 64 bits and its index in 32 |
| `TxCursors.ParseThenPrint` | blockexplorer/entities/transaction.go:109-133 | what parses is in range, and prints back to the same text exactly when that has no superfluous zeros |
| `TxCursors.PositionIsChainOrder` | blockexplorer/entities/transaction.go:137-143 | the boundary test is the strict order of the chain |
| `Paging.ListTransactions` | blockexplorer/store/transactions.go:61-187 | limits, cursors, order, decoding and the final sort give the leading or trailing stretch of the selection, newest first |
| `Paging.OldestIsReversed` | blockexplorer/store/transactions.go:155-158 | ascending order is descending order backwards |
| `Paging.FinalSort` | blockexplorer/store/transactions.go:175-184 | the final sort puts a page read in either order into reverse chain order |
| `PageWalk.NextPage` | blockexplorer/api/grpc/implementation.go:80-157 | each request of a walk is accepted and answered with the newest rows left |
| `PageWalk.OlderIsTheRest` | blockexplorer/store/transactions.go:94-103 | the rows before a cursor of the list are the rest of the list |
| `PageWalk.WalkIsStrides` | blockexplorer/store/transactions.go:61-187 | walking by requests and printed cursors is walking along the sorted list |
| `PageWalk.WalkReceivesAllIff` | blockexplorer/store/transactions.go:165-173 | a walk with any page size receives every decodable row once, in reverse chain order, exactly when no page-long undecodable run hides one |
| `PageWalk.WalkReceivesTheTable` | blockexplorer/store/transactions.go:61-187 | with all rows decodable a walk receives the whole selection, each row once, newest first |
| `PageWalk.UndecodableRowEndsTheWalk` | blockexplorer/store/transactions.go:165-173 | with pages of one, an undecodable newest row hides the row behind it |
| `PageWalk.WindowsAnsweredIffEmpty` | blockexplorer/api/grpc/implementation.go:110-119 | a two-cursor request gets the rows between its cursors exactly when the cursors bound no window, and every one accepted gets nothing |
| `PageWalk.ExampleWindowRefused` | blockexplorer/api/grpc/implementation.go:110-119 | the window after 3.1 and before 4.2 is refused |
| `PageContents.PageTakesNearest` | blockexplorer/store/transactions.go:61-187 | a page holds decodable rows that were asked for; what it leaves out is newer than all of it after a cursor or for the last of all, and older otherwise |
| `PageContents.PageIsFull` | blockexplorer/store/transactions.go:105-163 | with every row decodable a page is as long as its limit and the rows asked for allow |
| `PageContents.FirstAfterCursor` | blockexplorer/api/grpc/implementation.go:80-157 | the first n after a cursor are the n oldest rows beyond it, or all of them |
| `PageContents.RefusedIff` | blockexplorer/api/grpc/implementation.go:80-157 | exactly which requests are refused |
| `PageContents.AcceptedMeans` | blockexplorer/api/grpc/implementation.go:80-157 | an accepted request comes down to its own cursors and limit, or the default one, counted from the oldest exactly after a cursor or for the last of all |
| `PageContents.AnsweredWithNearest` | blockexplorer/api/grpc/implementation.go:80-157 | with every row decodable, an accepted request is answered with as many rows as it asks for, the nearest to where it counts from |

## Left out

- Party recurring transfers, dispatch strategies and market-value payouts: their eligibility and scores come from code that is not part of this model.
- `UpdateERC20`, asset listing and limit updates: the action is tracked and finalised, the change in the asset registry is not modelled.
- Bridge stop and resume flag values, event timestamps, deposit transaction hashes, transfer statuses: carried by the code, read by none of the modelled decisions.
- Minimum transfer amounts and key validation of transfers: each is settled by one branch in front of the modelled code.
- Snapshots, metrics, the event broker, logging, notary signatures, hashing and protobuf encoding: plumbing around the modelled state.
- Overflow of 256-bit amounts and 64-bit counters: amounts and counters are unbounded.
- Rounding of decimals to a fixed number of digits: decimals are exact.
- The aggregation of notary signatures that follows a finalised ERC20 withdrawal, and its delay threshold, which the code only logs.
- SourceNeverOverdrawn: a dispatch strategy pays a single reward account of its own, because the split over markets comes from code that is not part of this model.
- SQL text, indexes, pauses between days and the choice of filters of a listing: a listing takes any predicate on rows.
- Concurrent writes inside one day's database transaction: a day is one atomic step, and arrivals happen between steps.
- Paging while rows arrive: the walk is over a fixed table.
- FinalizeAction: the asset registry's side of a listing or a limit update is not modelled, because it lies in another component.
- Save: recurring and governance transfers and the last seen blocks are not written, because they are plain copies of lists and numbers.
- Load: recurring and governance transfers and the last seen blocks are not restored, for the same reason.
- SaveSeen: the order of the written references is not stated, because it is that of their encoding, which is abstract here.
- ERC20WithdrawalEvent: last seen blocks and the withdrawal date are not modelled; nothing modelled reads them.
- OrderDoesNotMatter: the sufficient half, for any number of due times; `OrderFreeIff` is exact for two transfers.
- OrderFreeIff: all-or-nothing transfers are not in it, because some of them never pay (`AlwaysCutNeverMatters`); `SharedSourceIff` covers them ledger by ledger.
- ProcessGovernanceTransfer: market-value payouts are not modelled, because the scores they split by come from code that is not part of this model.
- OnceAcrossTheUpgrade: one direction only; `FinalisedAgainIff` and `TwiceOnlyAsLegacyTwin` state the exact condition.
- MarkedDaysAreCovered: allows an arrival to hold an old row's key; `RowIsMovedIffDayIsMarked` states the exact claim for arrivals that do not.
