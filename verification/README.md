# A model of the lnd node in lndmobile

This project models the parts of the node that must not lose money or get stuck, and proves what
they promise for every input, every interleaving and every crash point.

- **UTXO nursery** (`NurseryLedger`, `NurseryBuckets`, `NurseryStore`, `NurserySweep`, `NurseryRun`,
  `NurserySchedule`, `NurseryOrigins`, `HeightCursor`, `UtxoNursery`, `NurserySums`, `NurseryReport`). Time-locked outputs move from
  crib or preschool to kindergarten and graduate when a sweep transaction confirms. `NurseryLedger`
  says what the store means: one stage per output. `NurseryStore.Store` is the store itself, two
  nested indexes changed in place, and keeps representing a ledger. `NurseryRun` puts every database
  transaction, broadcast and confirmation into one state machine with crashes; `UtxoNursery.Nursery`
  is the object whose methods are stretches of such runs.
- **Cooperative close** (`CloseNegotiation`, `CloseAgreement`). One closer against any peer, then two
  closers over an in-order link, following "Closing Negotiation: closing_signed" of BOLT #2.
- **Breach arbiter** (`Breach`, `BreachCodec`, `RetributionRun`, `BreachArbiter`). The write-ahead
  protocol under crashes, the in-place rewriting of outputs between attempts, and the records.
- **Byte formats** (`Codec`, `BreachCodec`).
- **Smaller machines**: the message stream of a peer (`MsgStream`), the peer table (`PeerTable`), the
  channel-opening stages (`FundingStages`, `FundingManager`) and the FundingLocked barrier
  (`FundingLocked`).

`dafny verify dfyconfig.toml` checks the whole project.

## Where the code does not do what it promises

Each item has a lemma with the failing case or family and a contract with the exact condition.

- Two closers end if and only if the smaller ideal fee is at least 7 sat or the two ideals start
  within range of each other; ideals of 6 and 10 haggle for ever (`ClosersFinishIff`,
  `SmallFeesHaggleForever`): integer steps of 10% stand still below 10 sat.
- Outputs can be lost. A restart in which a commitment confirmation is handled before the catch-up
  can file an output at a height whose sweep is already fixed (`RestartLosesOutput`). The move out of
  the crib has no late bump, so a timeout transaction that confirmed longer ago than the delay, for
  example while the node was down, does the same (`LateTimeoutLosesOutput`). The block loop only logs
  a failed graduateClass and takes the next block: a class whose sweep could not be built is passed
  over (`SkippedHeightLosesOutput`), and a sweep whose broadcast failed is not sent again
  (`FailedBroadcastIsNotRepeated`). What is passed over stays so for good (`StrandedForGood`,
  `UnsentForGood`). The exact conditions on a run are `NothingForgottenIff` and `HandledIff`, the
  latter also over events alone as far as broadcasts go (`OrderlyIff`, `SentUpToIff`).
- An output can graduate although nothing spends it: when graduateClass fails after its broadcast,
  or a restart falls there, a late output is bumped to that same height, and the confirmation of the
  sweep graduates everything filed there (`LatecomerGraduatesUnswept`; exact condition in
  `GraduatesAreSweptIff`, and arrivals above the last finalized height suffice: `GraduatesAreSwept`).
- The duplicate checks of the store look at one prefix only, and registrations are not
  deduplicated: an outpoint that comes back after it has moved on leaves two entries for one
  output (`IncubatedTwice`), exactly outside the conditions in `Incubate`, `CribToKinder` and
  `PreschoolToKinder`.
- When one transaction spends two breached HTLC outputs, as our own earlier justice transaction
  does, both are redirected to the same outpoint and no later justice transaction is valid
  (`SharedSpenderBlocksJustice`; exact condition in `JusticeAfterRetries`).
- The direction flag of a new peer is passed inverted, so a connection is refused as a duplicate
  exactly when the present one runs the other way (`DuplicateMeansOpposite`). Of two nodes that dial
  each other at once a connection survives at both ends if and only if exactly one of them handles
  its own dial first, whatever the keys (`SimultaneousConnections`).
- The goroutine that resumes the last channel-opening stage after a restart reads the loop variable,
  so it can announce and finish another channel and leave its own behind (`ResumeOpening`,
  `ResumeSafeIff`, `WrongChannelAnnounced`; exact condition on a run in `OpeningIsOrderedIff`).

## Model

| member | source | states |
|---|---|---|
| CloseNegotiation.ChannelCloser.ShutdownChan | lnd/chancloser.go:220-246 | starting a close moves an idle closer to shutdown-initiated with one Shutdown message, and fails without a change in any other state |
| CloseNegotiation.ChannelCloser.ProposeCloseSigned | lnd/chancloser.go:488-539 | a signed offer becomes the last fee and is remembered, as our signature of the transaction that pays each side to its own script; a failed signature changes nothing, a failed parse only the last fee |
| CloseNegotiation.ChannelCloser.ProcessCloseMsg | lnd/chancloser.go:272-483 | the object follows the negotiation function in every state; a call that ends the negotiation got the peer's signature of exactly the closing transaction and broadcast it, and a failed one keeps negotiating |
| CloseNegotiation.ChannelCloser.StartNegotiation | lnd/chancloser.go:318-375 | the second shutdown opens fee negotiation; only the funder sends the first offer, at its ideal fee |
| CloseNegotiation.ChannelCloser.NegotiateFee | lnd/chancloser.go:377-474 | a fee that was offered before is accepted and closes; otherwise the compromise is offered, and accepted at once when it equals the peer's fee; done only with the peer's signature of the closing transaction and a successful broadcast |
| CloseNegotiation.NegotiationEndsIff | lnd/chancloser.go:377-474 | a call ends the negotiation if and only if the message carries the peer's signature for the transaction at a fee our side agrees to and completion and broadcast succeed; a failed call keeps the state; any other answers with one offer |
| CloseNegotiation.NegotiationStarts | lnd/chancloser.go:272-362 | only a Shutdown starts negotiation, its address becomes the peer's script, an idle closer answers with its own Shutdown, and only the funder adds an offer at its ideal fee |
| CloseNegotiation.NothingAfterTheEnd | lnd/chancloser.go:471-483 | after the end an echo is taken without an answer and nothing changes |
| CloseNegotiation.CompromiseStep | lnd/chancloser.go:545-638 | a fee within 30% of the last own offer is taken over, and only such a fee; any other one is answered by a tenth of the last offer, rounded down, towards it, so from 10 sat on strictly between the two |
| CloseNegotiation.StepKeepsConsistent | lnd/chancloser.go:272-483 | every message keeps the closer's offers consistent with its state |
| CloseNegotiation.StepOffers | lnd/chancloser.go:377-474 | every offer that answers a message obeys the law of `CompromiseStep` |
| CloseNegotiation.ArbitraryPeer | lnd/chancloser.go:152-175 | against any peer the first offer is the clamped ideal fee and every later one is lawful; the closer finishes only after a message with the peer's signature of exactly the closing transaction, in a call whose broadcast succeeded, and that transaction pays its own side to its own script and the peer to the address of its Shutdown |
| CloseAgreement.StepGood | lnd/chancloser.go:299-483 | every effective step of two closers keeps them in a known shape and decreases the measure when the ideals converge |
| CloseAgreement.ClosersAgree | lnd/chancloser.go:377-483 | whenever a closer has finished, it did so on a fee between the two ideals that the other one has signed, and two finished closers agree on it |
| CloseAgreement.AgreedFeeWithinCommitFee | lnd/chancloser.go:160-175 | the agreed fee never exceeds the commitment fee to which both ideals are clamped |
| CloseAgreement.ClosersTerminate | lnd/chancloser.go:545-638 | with converging ideals the number of effective steps is bounded, and a started pair without messages in flight has finished on both sides |
| CloseAgreement.ClosersDiverge | lnd/chancloser.go:545-575 | with other ideals no schedule ever finishes |
| CloseAgreement.ClosersFinishIff | lnd/chancloser.go:545-638 | some schedule finishes if and only if the ideals converge |
| CloseAgreement.SmallFeesHaggleForever | lnd/chancloser.go:564-575 | ideals of 6 and 10 sat never finish |
| NurseryBuckets.PutEntry | lnd/nursery_store.go:1183-1205 | filing an entry adds exactly that entry and keeps every finalized transaction |
| NurseryBuckets.WithoutEntry | lnd/nursery_store.go:1481-1530 | deleting an entry removes exactly that entry, prunes empty buckets upwards and leaves every other height alone |
| NurseryBuckets.IndexesAgree | lnd/nursery_store.go:336-600 | each CRIB or KNDR output has exactly one height entry, a CRIB one at its expiry, PSCL and GRAD ones none, and an outpoint has one state |
| NurseryBuckets.LiveHeights | lnd/nursery_store.go:1533-1614 | a height bucket exists if and only if an output is scheduled there |
| NurseryBuckets.TwoStatesUnrepresentable | lnd/nursery_store.go:1028-1057 | a database with one outpoint under two prefixes has no meaning as a ledger |
| NurseryLedger.FinalizeCoherentIff | lnd/nursery_store.go:1365-1408 | finalizing keeps every stored transaction with its class and at or below the mark if and only if no transaction is stored above the height and a new one has its class |
| NurseryStore.Store.RemoveOutputFromHeight | lnd/nursery_store.go:1481-1530 | the in-place deletion and pruning compute `WithoutEntry` |
| NurseryStore.Store.PruneHeight | lnd/nursery_store.go:1533-1577 | a height bucket goes if and only if all its channel buckets are empty |
| NurseryStore.Store.ForEachHeightPrefix | lnd/nursery_store.go:1236-1318 | the two-level scan finds every output with the prefix at the height once; its errors say which lookup failed |
| NurseryStore.Store.EnterPreschool | lnd/nursery_store.go:1028-1057 | files a new output and ignores one still in preschool; for any other outpoint the store then holds it under two prefixes, and no later entry heals that |
| NurseryStore.Store.EnterCrib | lnd/nursery_store.go:973-1024 | the same for cribs, filed in both indexes |
| NurseryStore.Store.Incubate | lnd/nursery_store.go:309-332 | a whole batch is entered in order; the store keeps its meaning if and only if each output is new or in its first state at its turn |
| NurseryStore.IncubatedTwice | lnd/nursery_store.go:1041-1048 | any output incubated on a new store, moved to kindergarten and incubated again leaves buckets that no ledger describes |
| NurseryStore.Store.CribToKinder | lnd/nursery_store.go:336-414 | the output moves from its expiry to exactly confirmation plus delay, late or not, and nothing else changes; the store keeps its meaning if and only if the output is in the crib it names, new, or already filed there |
| NurseryLedger.CribFiledAfterDelay | lnd/nursery_store.go:388-412 | filed exactly when the delay after confirmation has passed |
| NurseryStore.CribMoveIff | lnd/nursery_store.go:336-414 | the same on the buckets: outside the condition no ledger describes them |
| NurseryStore.Store.PreschoolToKinder | lnd/nursery_store.go:418-519 | the output is filed at the first height above the graduated mark at which its own lock, relative or absolute, has passed, and nothing else changes; the store keeps its meaning if and only if the output is in preschool, new, or already filed there |
| NurseryLedger.PreschoolFiledPromptly | lnd/nursery_store.go:465-495 | neither before its lock has passed nor later than the first height that allows it |
| NurseryStore.PreschoolMoveIff | lnd/nursery_store.go:418-519 | the same on the buckets: outside the condition no ledger describes them |
| NurseryStore.Store.GraduateKinder | lnd/nursery_store.go:523-601 | every kindergarten output of the height graduates with its record unchanged, the height's transaction is deleted, all else stays, and the call cannot fail |
| NurseryLedger.GraduateKinderClass | lnd/nursery_store.go:523-600 | the same, output by output, on the ledger |
| NurseryStore.Store.FinalizeKinder | lnd/nursery_store.go:1365-1408 | records the height and, when the height has outputs, its transaction, for any height; valid afterwards if and only if the condition of `FinalizeCoherentIff` holds |
| NurseryStore.Store.GraduateHeight | lnd/nursery_store.go:616-621 | records the last graduated height and changes nothing else |
| NurseryStore.Store.FetchClass | lnd/nursery_store.go:627-690 | returns the stored transaction, the class and the expiring cribs, each output once, and never the missing-output error |
| NurseryStore.Store.IsMatureChannel | lnd/nursery_store.go:855-880 | true exactly when all outputs of a known channel have graduated |
| NurseryStore.Store.RemoveChannel | lnd/nursery_store.go:884-939 | the outputs of a channel are gone exactly when all of them had graduated, and no other output is; an immature channel is an error and changes nothing, an unknown one is an error unless the index was never created |
| NurseryLedger.RemoveChannelExact | lnd/nursery_store.go:884-939 | the same, output by output, on the ledger |
| NurserySweep.CreateSweepTx | lnd/utxonursery.go:917-1061 | the two loops build the sweep of the class, or nothing when it is not a sane transaction |
| NurserySweep.SweepSpendsClass | lnd/utxonursery.go:947-1048 | the sweep spends exactly the outputs of known witness type of its class |
| NurserySweep.SweepPaysClass | lnd/utxonursery.go:1014-1035 | value plus fee is the sum of the amounts that the ledger holds for the sweepable outputs of the class, paid to the given script, with a lock time exactly when a CLTV output is among them |
| NurserySweep.SweepMeetsLocks | lnd/utxonursery.go:1030-1048 | each CSV input's delay has passed at the class height and each CLTV lock is at most the lock time |
| NurseryRun.OneSweepPerHeight | lnd/utxonursery.go:840-895 | for any block heights and crashes, a height is finalized at most once, at most one sweep is broadcast per height, and always the persisted one |
| NurseryRun.FinalizeHeightsIncrease | lnd/utxonursery.go:852-880 | finalized heights strictly increase along every run |
| NurseryRun.ArrivalCoveredIff | lnd/nursery_store.go:465-514 | an output that enters kindergarten stays covered if and only if its height is above the last finalized one |
| NurseryRun.FinalizeCoveredIff | lnd/utxonursery.go:852-880 | finalizing a height keeps all outputs covered if and only if no output is due at a skipped height |
| NurseryRun.NothingForgotten | lnd/utxonursery.go:819-911 | in every disciplined run with crashes each kindergarten output is still to come or spent by the sweep stored for its height |
| NurseryRun.NothingForgottenIff | lnd/utxonursery.go:776-911 | a run always keeps every output covered if and only if each confirmation files its output above the last finalized height and no height with a due output is passed over |
| NurseryRun.WholeClassIsSwept | lnd/utxonursery.go:917-1061 | with timely arrivals of outputs that IncubateOutputs builds, and any skipped heights, a stored sweep spends its whole class, so graduation moves exactly what it spends |
| NurseryRun.NothingSweptEarly | lnd/nursery_store.go:465-495 | in every run, whatever is skipped, late, repeated or aborted, no output is scheduled before its lock has passed and every sweep ever finalized meets the locks of all its inputs |
| NurseryRun.GraduatesAreSwept | lnd/nursery_store.go:523-600 | in every run whose confirmations file their outputs above the last finalized height, each stored sweep spends exactly the known outputs of its class and each graduated one was spent by a confirmed sweep |
| NurseryRun.StepSweptIff | lnd/nursery_store.go:523-600 | a step leaves every graduate swept if and only if the sweep that confirms has, with earlier ones, spent all known outputs filed at its height |
| NurseryRun.GraduatesAreSweptIff | lnd/utxonursery.go:1168-1217 | the same for whole runs |
| NurseryRun.StrandedForGood | lnd/utxonursery.go:840-895 | an output at a height finalized without it stays in kindergarten, with no sweep stored or broadcast for its height, whatever follows |
| NurseryRun.GraduatesExactlySweptIff | lnd/nursery_store.go:523-600 | the class that graduates is what the stored sweep spends if and only if it has no unknown witness type |
| NurserySchedule.DueOutputsAreSwept | lnd/utxonursery.go:657-716 | in every orderly run every due output has its sweep stored, broadcast, and watched again after a restart |
| NurserySchedule.HandledIff | lnd/utxonursery.go:776-911 | for any block heights, failures and crashes, all outputs are covered and all due sweeps broadcast at every moment if and only if the run is disciplined and marks no height graduated above one that was finalized and not sent |
| NurserySchedule.OrderlyIff | lnd/utxonursery.go:882-911 | the condition on the marks, over the events of the run alone |
| NurserySchedule.SentUpToIff | lnd/utxonursery.go:840-895 | all sweeps up to a height have been broadcast if and only if each height finalized with a nonempty class was opened, before its sweep confirmed, by an attempt that went on to the broadcast |
| NurserySchedule.ConsecutiveIsOrderly | lnd/utxonursery.go:696-716 | blocks handled one by one make an orderly run, with failures, retries and crashes |
| NurserySchedule.RestartLosesOutput | lnd/nursery_store.go:484-495 | a run in which a restart files an output at an already finalized height, and the output stays there in every continuation |
| NurserySchedule.SkippedHeightLosesOutput | lnd/utxonursery.go:801-807 | a run in which the block loop passes over a height with a due output, which is lost in every continuation |
| NurserySchedule.LateTimeoutLosesOutput | lnd/nursery_store.go:388-412 | a run in which a late timeout confirmation files its output at a finalized height, where it is lost in every continuation |
| NurserySchedule.LatecomerGraduatesUnswept | lnd/utxonursery.go:890-906 | a run in which a late output is bumped to a height whose sweep is out, and graduates with it unspent |
| NurserySchedule.UnsentForGood | lnd/utxonursery.go:723-747 | a finalized sweep that was not broadcast stays unsent unless its own height is handled again; a restart only watches for it |
| NurserySchedule.FailedBroadcastIsNotRepeated | lnd/utxonursery.go:801-807 | a run in which that happens after a failed broadcast |
| NurseryOrigins.RecordsComeFromIncubation | lnd/utxonursery.go:1269-1384 | in every run each record is one that was incubated, untouched before its confirmation and with nothing but the height of one of its confirmations filled in afterwards |
| NurseryOrigins.SweptOutputsWereIncubated | lnd/utxonursery.go:917-1061 | in every run each outpoint a sweep spends is that of an incubated output that was reported confirmed and whose own lock, counted from that report, has passed |
| NurseryOrigins.FinalizedSweepsPay | lnd/utxonursery.go:1014-1048 | in every run each sweep ever finalized spends all that could be swept at its height and pays the sum of the amounts less its fee |
| NurseryOrigins.PublishedSweepsPay | lnd/utxonursery.go:1114-1135 | and so does each sweep ever broadcast |
| HeightCursor.HeightsBelowOrEqual | lnd/nursery_store.go:767-802 | the cursor walk returns exactly the live heights up to the bound, in ascending order |
| UtxoNursery.BuiltOutputs | lnd/utxonursery.go:360-428 | everything built for incubation is of a known witness type, and CLTV outputs carry no relative delay |
| UtxoNursery.BuiltAsGiven | lnd/utxonursery.go:366-428 | exactly one output per resolution worth it and nothing else, each with its own outpoint, value, sign descriptor, delay and lock; a direct HTLC is locked by its expiry |
| UtxoNursery.DirectHtlcsWaitForExpiry | lnd/utxonursery.go:418-428 | in every run a sweep that spends an HTLC of the remote commitment is never finalized below the expiry of that HTLC, and its lock time is its height |
| UtxoNursery.BuiltOwned | lnd/utxonursery.go:360-428 | and fit for incubation as a disciplined step unless an outpoint belongs to another channel |
| UtxoNursery.Nursery.BuildDelayed | lnd/utxonursery.go:366-400 | one kid for the commitment output and one per incoming HTLC, of positive value, each with its own fields |
| UtxoNursery.Nursery.BuildOutputs | lnd/utxonursery.go:366-428 | one output per resolution worth it and nothing else, field by field: HTLCs with a timeout transaction as babies with their expiry, direct ones as kids locked by it |
| UtxoNursery.Nursery.IncubateOutputs | lnd/utxonursery.go:343-479 | exactly the outputs of the resolutions, field by field, enter the store in one step of the run, disciplined unless an outpoint belongs to another channel; the store keeps its meaning if and only if they may enter; cribs that have expired are swept at once, preschool confirmations are registered, and everything due stays watched |
| UtxoNursery.Nursery.OpenClass | lnd/utxonursery.go:826-880 | a new height is finalized with the sweep of its class, an old one is replayed with its stored sweep |
| UtxoNursery.Nursery.FinishClass | lnd/utxonursery.go:882-911 | the height is marked graduated only after its sweep was broadcast and all its cribs are watched |
| UtxoNursery.Nursery.GraduateClass | lnd/utxonursery.go:819-911 | the call is a legal stretch of a run, of one of four forms; on success the height has graduated and its sweep and cribs are watched |
| UtxoNursery.Nursery.RegraduateClass | lnd/utxonursery.go:723-767 | a graduated height is watched again without signing anything |
| UtxoNursery.Nursery.ReloadClasses | lnd/utxonursery.go:657-716 | a restart is a legal stretch with consecutive blocks; on success the nursery stands at the best height with every sweep and expired crib watched |
| UtxoNursery.Nursery.CatchUp | lnd/utxonursery.go:696-716 | missed heights are graduated one by one up to the best height |
| UtxoNursery.Nursery.GraduateNext | lnd/utxonursery.go:819-911 | the next block, successful or not, leaves every stored sweep and expired crib up to the last graduated height watched |
| UtxoNursery.Nursery.CloseAndRemoveIfMature | lnd/utxonursery.go:1562-1590 | afterwards the channel is not mature: it was removed or has outputs left; other channels keep their maturity |
| UtxoNursery.Nursery.WaitForSweepConf | lnd/utxonursery.go:1168-1217 | the class graduates and then each of its channels that is mature is removed; everything due stays watched |
| UtxoNursery.ConfirmationsKeepTended | lnd/utxonursery.go:1168-1384 | confirmations and removals never leave a stored sweep or an expired crib unwatched |
| UtxoNursery.IncubationKeepsTended | lnd/utxonursery.go:443-464 | nor does incubation once its expired cribs have been sent out |
| UtxoNursery.Nursery.WaitForPreschoolConf | lnd/utxonursery.go:1346-1384 | any confirmation, also of a record that has moved on: the step of the run when the output is still in preschool, a store without meaning exactly when it can no longer move, and everything due stays watched |
| UtxoNursery.Nursery.WaitForTimeoutConf | lnd/utxonursery.go:1269-1303 | the same for cribs |
| NurseryReport.Conservation | lnd/utxonursery.go:499-603 | limbo plus recovered is the sum of the channel's listed outputs, that is all but preschool direct HTLCs |
| NurseryReport.CribToKinderKeepsBalances | lnd/nursery_store.go:336-414 | moving a crib to kindergarten changes neither balance |
| NurseryReport.PreschoolToKinderBalances | lnd/utxonursery.go:526-566 | moving a preschool output changes no balance, except that a direct HTLC enters limbo |
| NurseryReport.GraduateKinderMovesShare | lnd/nursery_store.go:523-600 | graduation moves exactly the class's share of a channel from limbo to recovered |
| NurseryReport.Report.AddLimboCommitment | lnd/utxonursery.go:1449-1461 | limbo grows by the amount, the maturity height is set only when confirmed |
| NurseryReport.Report.AddRecoveredCommitment | lnd/utxonursery.go:1465-1472 | recovered grows by the amount |
| NurseryReport.Report.AddLimboStage1TimeoutHtlc | lnd/utxonursery.go:1476-1487 | limbo grows and a stage 1 entry that matures at the expiry is listed |
| NurseryReport.Report.AddLimboDirectHtlc | lnd/utxonursery.go:1492-1504 | limbo grows and a stage 2 entry that matures at the absolute height is listed |
| NurseryReport.Report.AddLimboStage1SuccessHtlc | lnd/utxonursery.go:1509-1519 | limbo grows and a stage 1 entry is listed |
| NurseryReport.Report.AddLimboStage2Htlc | lnd/utxonursery.go:1523-1542 | limbo grows and a stage 2 entry is listed, with its maturity height when confirmed |
| NurseryReport.Report.AddRecoveredHtlc | lnd/utxonursery.go:1546-1556 | recovered grows and the entry is listed |
| NurseryReport.EntryTellsLock | lnd/utxonursery.go:515-596 | an HTLC entry carries its own outpoint, amount and confirmation; stage 1 before and 2 in kindergarten; its maturity height is the first height at which the lock of the output has passed |
| NurseryReport.MaturityIsClassHeight | lnd/nursery_store.go:466-489 | the reported maturity is the height of the class in which the output is filed, unless it had already graduated |
| NurseryReport.BuildReport | lnd/utxonursery.go:486-603 | the walk ends with the sums over the ledger; each output shows up once, with the amount, stage and maturity data of its stage, and the heading is that of the commitment output |
| Codec.ByteOrderIsNumeric | lnd/nursery_store.go:786-796 | big-endian byte order is numeric order |
| Codec.VarIntRoundTrip | vendor/github.com/roasbeef/btcd/wire/common.go:476-563 | a variable-length integer comes back |
| Codec.VarBytesRoundTrip | vendor/github.com/roasbeef/btcd/wire/common.go:637-673 | a byte string comes back exactly when it is within the limit |
| Codec.OutpointRoundTrip | lnd/utxonursery.go:1874-1905 | an outpoint comes back, followed by any input |
| Codec.OutpointLayout | lnd/utxonursery.go:1874-1887 | where each field lies: a length byte, the hash, four big-endian bytes of index |
| Codec.KeysAreInjective | lnd/nursery_store.go:258-274 | prefixed keys are injective, and overwriting the prefix re-keys the output |
| Codec.KeyBytesFaithful | lnd/nursery_store.go:205-234 | the stored bytes of a key determine state and outpoint |
| Codec.TxOutRoundTrip | vendor/github.com/lightningnetwork/lnd/lnwallet/txout.go:11-46 | a transaction output comes back exactly when its script is within the limit |
| Codec.SignDescRoundTrip | vendor/github.com/lightningnetwork/lnd/lnwallet/signdescriptor.go:87-225 | a sign descriptor comes back exactly when it is within the reader's limits and its key parses, and fails otherwise |
| Codec.KidRoundTrip | lnd/utxonursery.go:1785-1870 | a kid record comes back, with the reader's bare reads through one scratch buffer |
| Codec.KidLayout | lnd/utxonursery.go:1785-1825 | where each field of a kid record lies, at which width and in which order |
| Codec.BabyRoundTrip | lnd/utxonursery.go:1678-1706 | a baby record comes back, given a self-delimiting transaction codec |
| Codec.BabyLayout | lnd/utxonursery.go:1678-1690 | the expiry in four bytes, the timeout transaction, then the kid record |
| Breach.NewBreachedOutputs | lnd/breacharbiter.go:920-993 | local output, remote output and every HTLC, in order, each for its own value, with its outpoint, sign descriptor, scripts and witness type |
| Breach.CreateJusticeTx | lnd/breacharbiter.go:1004-1122 | the loop builds the justice transaction, or nothing when it is not sane |
| Breach.JusticeSpendsAll | lnd/breacharbiter.go:1070-1122 | one input per output in order, for the sum of the amounts less the fee, to the given script; sane if and only if the outpoints are distinct and the value is valid |
| Breach.CheckSecondLevel | lnd/breacharbiter.go:493-570 | one in-place pass over the outputs: only HTLCs are polled, and each output stays or claims the second-level output reported for it, with its outpoint, value and script |
| Breach.RewrittenAsReported | lnd/breacharbiter.go:417-448 | after any attempts an HTLC claims the first output of the transaction first reported to have spent it, for the value reported, also when signing, with its own second-level script and nothing else changed; any other output is as it was |
| Breach.JusticePaysChainValue | lnd/breacharbiter.go:1081-1098 | after any attempts the justice transaction pays, with its fee, the sum of recorded and reported values |
| Breach.RetriesEvolve | lnd/breacharbiter.go:417-448 | over any number of attempts length and order stay, only HTLCs are rewritten, and the cache holds unconverted HTLC outpoints only |
| Breach.RewrittenAtMostOnce | lnd/breacharbiter.go:493-570 | an output that was rewritten is never changed again |
| Breach.ConvertedIff | lnd/breacharbiter.go:493-560 | an HTLC is rewritten if and only if its spend was reported at or after a registration; until then its subscription is live if and only if it was registered |
| Breach.JusticeAfterRetries | lnd/breacharbiter.go:567-606 | after any attempts a justice transaction is valid if and only if there is something to claim, the fee leaves a valid value, no two reported HTLCs share a spender and none leads to the outpoint of another output |
| Breach.SharedSpenderBlocksJustice | lnd/breacharbiter.go:417-448 | once two HTLCs are reported with one spender, in whichever attempts, no later attempt is valid |
| BreachCodec.OutputRoundTrip | lnd/breacharbiter.go:1477-1538 | a breached output comes back exactly when its descriptor is within limits and its script has at most 1000 bytes |
| BreachCodec.OutputLayout | lnd/breacharbiter.go:1477-1505 | where each field of a breached output lies |
| BreachCodec.OutputsRoundTrip | lnd/breacharbiter.go:1420-1472 | so does a list of any length |
| BreachCodec.InfoRoundTrip | lnd/breacharbiter.go:1395-1475 | so does a whole retribution record |
| BreachCodec.InfoLayout | lnd/breacharbiter.go:1395-1427 | where each field of a retribution record lies, with the count before the outputs |
| RetributionRun.StepKeepsInv | lnd/breacharbiter.go:296-406 | every step of the protocol keeps the invariant |
| RetributionRun.CrashSafe | lnd/breacharbiter.go:567-665 | in every run an acknowledged breach is stored until its channel is fully closed, and whatever was published was on disk at that moment |
| RetributionRun.RestartPartition | lnd/breacharbiter.go:151-261 | after any restart tasks and observers partition the unfinished channels, every unfinished acknowledged breach has a task, and no closed channel has a record |
| BreachArbiter.RetributionStore.Add | lnd/breacharbiter.go:1218-1239 | the record is stored under its channel and replaces an earlier one |
| BreachArbiter.RetributionStore.Finalize | lnd/breacharbiter.go:1244-1264 | the transaction is stored under its channel |
| BreachArbiter.RetributionStore.GetFinalizedTxn | lnd/breacharbiter.go:1269-1299 | returns the stored transaction, if any, also when the bucket was never created |
| BreachArbiter.RetributionStore.IsBreached | lnd/breacharbiter.go:1305-1327 | true exactly when a record is stored |
| BreachArbiter.RetributionStore.Remove | lnd/breacharbiter.go:1331-1366 | removes both entries of a channel and nothing else; fails only on a store without the bucket |
| BreachArbiter.Arbiter.Start | lnd/breacharbiter.go:144-264 | reconciliation and launch are a legal stretch that ends with the partition of `RestartPartition` |
| BreachArbiter.Arbiter.ReconcileAll | lnd/breacharbiter.go:172-193 | no record of a fully closed channel is left, on disk or in memory |
| BreachArbiter.Arbiter.ChannelsToWatch | lnd/breacharbiter.go:210-237 | all open channels without a record, unless a subscription fails |
| BreachArbiter.Arbiter.SpawnTasks | lnd/breacharbiter.go:239-258 | one task per record, unless a registration fails |
| BreachArbiter.Arbiter.ObserveBreach | lnd/breacharbiter.go:735-789 | the record is on disk before the acknowledgement; if it cannot be written the error is acknowledged and nothing has changed |
| BreachArbiter.Arbiter.TakeBreach | lnd/breacharbiter.go:322-351 | a registered breach gets its task and loses its observer; a failed registration leaves it on disk without a task |
| BreachArbiter.Arbiter.FinalizeAndPublish | lnd/breacharbiter.go:575-606 | the transaction is persisted before it is broadcast; a double spend asks for another attempt |
| BreachArbiter.Arbiter.RunAttempts | lnd/breacharbiter.go:487-606 | every transaction finalized on the way claims every output of the stored record as rewritten so far, once each, and pays the sum of their values on the chain less its fee |
| BreachArbiter.Arbiter.ResendStored | lnd/breacharbiter.go:482-606 | a transaction finalized earlier is broadcast as it is |
| BreachArbiter.Arbiter.FinishRetribution | lnd/breacharbiter.go:612-665 | the record is removed exactly when the channel is marked fully closed, and after that |
| BreachArbiter.Arbiter.ExactRetribution | lnd/breacharbiter.go:456-669 | the whole task is a legal stretch in which every new transaction claims all outputs of the stored record; it ends with the channel closed and nothing stored, or with the record kept |
| MsgStream.StreamIsBoundedAndOrdered | lnd/peer.go:590-661 | under every interleaving slots are conserved, the buffer bound holds, returning a slot never blocks, messages are applied in order and work is never stuck |
| MsgStream.Progress | lnd/peer.go:596-613 | no wake-up is lost: unfinished work always leaves a step to take |
| MsgStream.MessageStream.constructor | lnd/peer.go:542-564 | the semaphore starts full |
| MsgStream.MessageStream.AcquireSlot | lnd/peer.go:643-650 | a slot is taken exactly when one is free |
| MsgStream.MessageStream.AppendMsg | lnd/peer.go:652-656 | the message goes to the end of the queue |
| MsgStream.MessageStream.TakeFront | lnd/peer.go:596-623 | the oldest message is taken, or the consumer sleeps on an empty queue |
| MsgStream.MessageStream.GiveSlotBack | lnd/peer.go:627-636 | the slot always fits |
| PeerTable.StepKeepsInv | lnd/server.go:1443-1588 | every handler keeps the direction maps a partition of the table and every watched peer current or ignored, never both |
| PeerTable.WatcherSparesSuccessor | lnd/server.go:1227-1280 | in every run a watcher removes its own peer or nothing |
| PeerTable.DuplicateMeansOpposite | lnd/server.go:1443-1500 | a connection is refused as duplicate exactly when the present one runs the other way |
| PeerTable.SimultaneousConnections | lnd/server.go:1433-1588 | of two nodes that dial each other, for stored requests or not, each keeps the connection it handles first, whatever the keys; one survives at both ends if and only if exactly one node handles its own dial first |
| PeerTable.Server.Add | lnd/server.go:1641-1672 | the peer enters the table and the map of its flag, and gets a watcher |
| PeerTable.Server.Remove | lnd/server.go:1692-1722 | the key leaves the table and the map of the peer's flag |
| PeerTable.Server.InboundPeerConnected | lnd/server.go:1433-1498 | refused when the present connection is one we dialed; an accepted one is replaced if our key is the greater and kept otherwise; a replaced peer's watcher stands down, requests for the key are cancelled, other keys are untouched |
| PeerTable.Server.OutboundPeerConnected | lnd/server.go:1503-1588 | refused when the present connection was accepted or the request was cancelled; a dialed one is replaced unless our key is the greater; the rest as for inbound |
| PeerTable.Server.Disconnect | lnd/server.go:1828-1860 | an unknown peer is an error; a known one goes, its watcher stands down, it is no longer persistent or requested, and other keys are untouched |
| PeerTable.WatcherOutcome | lnd/server.go:1260-1300 | the effect of a watcher read off the tables, for every valid table |
| PeerTable.InboundOutcome | lnd/server.go:1433-1498 | the same for inbound connections, with the tie-break by key |
| PeerTable.OutboundOutcome | lnd/server.go:1503-1588 | the same for outbound connections |
| PeerTable.Server.PeerTerminationWatcher | lnd/server.go:1260-1300 | a watcher told to stand down only forgets that; any other removes its peer and leaves a connection request pending exactly when there was one or the peer is persistent |
| FundingStages.StepKeepsInv | lnd/fundingmanager.go:1892-2087 | every step in order moves a stored stage by at most one and keeps the invariant |
| FundingStages.StepInOrderIff | lnd/fundingmanager.go:1892-2087 | a step skips no stage and keeps the order on the wire if and only if a public proof follows the graph step of its channel and no early stage is deleted |
| FundingStages.OpeningIsOrderedIff | lnd/fundingmanager.go:582-644 | the same for whole runs with crashes |
| FundingStages.OpeningIsOrdered | lnd/fundingmanager.go:582-644 | in particular for every run whose resumed workers see their own channel |
| FundingStages.ResumeSafeIff | lnd/fundingmanager.go:624-638 | resuming the last stage with the captured channel skips nothing and proves in order if and only if that channel has come as far, and finishes its own channel if and only if it captured that |
| FundingStages.WrongChannelAnnounced | lnd/fundingmanager.go:624-638 | a run that announces a channel before its graph step and its FundingLocked, and deletes its stage, while the resumed channel keeps its own |
| FundingManager.Manager.SendFundingLocked | lnd/fundingmanager.go:1865-1933 | the stage is saved if and only if some send succeeded, and after it |
| FundingManager.Manager.AddToRouterGraph | lnd/fundingmanager.go:1943-1993 | the stage is saved unless the router rejects one of the two announcements for a real reason |
| FundingManager.Manager.HandleFundingConfirmation | lnd/fundingmanager.go:1827-1860 | all three steps in order; the stage is gone exactly when all succeeded, and then FundingLocked, graph step and proof have happened |
| FundingManager.Manager.ResumeOpening | lnd/fundingmanager.go:582-644 | a restart goes on from the stored stage; on success its promise holds if and only if the last stage was not handed another channel, whose stage is the one deleted otherwise |
| FundingManager.Manager.AnnAfterSixConfs | lnd/fundingmanager.go:2004-2087 | the stage of the channel it was given is deleted after the proof of a public channel, or at once for a private one |
| FundingLocked.StepKeepsInv | lnd/fundingmanager.go:2111-2129 | every step keeps one handler per channel |
| FundingLocked.AtMostOnce | lnd/fundingmanager.go:2111-2192 | under every interleaving with crashes at most one handler is active per channel and InitNextRevocation succeeds at most once per channel |
| FundingLocked.MessageIsHandled | lnd/fundingmanager.go:2103-2192 | a message for a channel without a revocation point is handled to the end: the point is stored once and the channel is free again |

## Left out

- Integer widths: amounts, heights and fees are unbounded integers; int64 and uint32 wrap-around appears only in the byte formats.
- Signatures, scripts, witnesses, weights and fee estimation: a fee and a script are inputs of each transaction, and signing may fail.
- Bolt: buckets are maps, an Update is one step, and ForEach loops go over a snapshot.
- Sane: models the checks of CheckTransactionSanity that a sweep can fail (inputs, duplicates, value), not size limits.
- BabyRoundTrip: assumes that the transaction codec of btcd is self-delimiting.
- SignDescRoundTrip: keeps public keys as bytes; which of them ParsePubKey accepts is a parameter.
- reloadPreschool: which preschool outputs are registered again after a restart; confirmations may arrive at any time.
- Interleaving inside one nursery call: graduateClass and the confirmation handlers hold the nursery's mutex, so each call is one stretch; other calls interleave between the catch-up heights only in NurseryRun.
- Loop-variable aliasing in IncubateOutputs: outputs are passed by value.
- JusticeAfterRetries: takes the spender of each output as fixed by the chain; the notifier reports no other.
- Termination of the double-spend loop of exactRetribution: it depends on the notifier, so the attempts are an input.
- The totals that exactRetribution only logs.
- Shutdown paths, timers, logging, backoff and the connection manager.
- queueHandler: a plain first-in first-out list, which would only add an easy member.
- FundingLocked: modelled on values, without the wait for the local discovery signal and the hand-over to the peer.
- One worker per channel is assumed for the opening stages; MarkAsOpen and the first saved stage are one step.
- RPC, configuration, wallet start-up, invoices, the witness beacon, funding reservations and the switch.
