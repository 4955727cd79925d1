# Verified model of the consolidation engine

The program moves many small wallet balances to one exchange. What it must never get wrong is durable: a transaction sent
twice, a cost counted twice, a quota exceeded, a job dispatched twice. This project models those parts in Dafny and proves
what they keep, over whole runs and against arbitrary answers from wallets, providers and the network.

`dafny verify dfyconfig.toml` checks the whole project.

## What is modelled

- **Journal and broadcast protocol** — `JournalTables.dfy` holds the rows and what one transaction does to them, `Journal.dfy`
  the object that changes its tables in place, `JournalRuns.dfy` and `JournalRows.dfy` properties of whole runs and of single
  operations, `Reactivation.dfy` when a halted group may be taken up again. `Broadcast.dfy` interleaves the DeFi and Relay
  executors with crashes and all other journal operations, one transaction or network call at a time; `Executors.dfy` and
  `RelayExecution.dfy` are the executors as methods over the journal, `Withdrawal.dfy` and `RelayObservation.dfy` what their
  answers lead to.
- **Loss ledger** — `LossLedger.dfy`: counting each position's cost once, and adopting rows that older versions wrote;
  `Adoption.dfy`: the same told by what the rows prove.
- **Quota and leases** — `Quota.dfy`: the sliding window with its execution reserve, the provider's counter, cooldowns and
  pacing; `QuotaHistory.dfy`: every admission follows from the history of the bucket; `QuotaReach.dfy`: what its answers promise
  on the ledgers that runs reach. `QuoteJobs.dfy`: expiring claims with compare-and-set completion, shared by many owners;
  `QuoteJobsProgress.dfy`: when a job is free again.
- **Route trees and choice** — `RouteTree.dfy`: which nested costs are charged, and continuity of accepted routes;
  `RouteAcceptance.dfy`: exactly which routes are accepted. `RouteChoice.dfy` (with `Lexicographic.dfy`): valuation, selection, and
  the refine-and-prune search; `RouteValue.dfy`: what the values mean and what is therefore chosen.
- **Kernels** — `GasCycles.dfy` (mutually blocked gas owners), `PlanRecovery.dfy` and `RecoveryTimes.dfy` (retrying
  unresolved sources, and when),
  `ScanBuffer.dfy`, `ScanReplay.dfy`, `ScanViews.dfy`, `ScanHistory.dfy` and `ScanWorker.dfy` (the sealed scan buffer against the
  store: its operations, when replay equals direct calls, what the worker sees, what the store holds, the objects),
  `Checkpoints.dfy` and `SnapshotValues.dfy` (the snapshot codec, and what it leaves out), `Fees.dfy` and `FeePlans.dfy`
  (fee plans against the base-fee rule of EIP-1559, and exactly when there is one), `RelayReserve.dfy` (the two gas-reserve loops).

Each object or loop of the program is a class or method proved against a specification function; the theorems are about that
function, and each class with run theorems has a method `Perform` that makes any one call a step of those runs. Money and times
are exact (`real`), amounts are integers; every database transaction is atomic.

## Where the code does less than it promises

The code is modelled as it is, and the exact condition is proved.

- Retrying at the time `available_at` answers can be refused: when the provider's limit is at most the reserve, the answer is
  the provider's reset, and the local window may still be full (`RetryAdmittedIff`). It happens on the public `steps` bucket
  (`RetryCanBeRefused`); a bucket is free of it exactly when it ignores provider limits or reserves nothing from the purpose
  (`RetryReliableIff`). The answer can also be later than needed while a lowered limit is about to expire (`AnswerTooLate`,
  `AvailableIsEarliestIff`, and per bucket `EarliestReliableIff`).
- A provider limit below one is not only ignored: it also drops the lower limits that its window had reported before, so the limit
  in force is the least reported one exactly when none was below one (`LimitIsLeastIff`, `LimitForgotten`).
- `checkpoint_source_conversion` writes the position's state without looking at it, so it can reopen a completed position
  (`CompletedCanBeReopened`, `CompletedReopenedIff`).
- `fail` accepts a bad request as a quota wait, and then the job can be claimed again (`WaitingBadRequestIsClaimed`,
  `BadRequestFinalIffError`). Its caller stores waits only for request limits (`lifi.py` 429-442), and then every refused
  request is final (`RefusedIsFinal`).
- Pruning is safe for a choice exactly when its refinement is not cheaper than its quote; the code relies on it
  (`PruningSafeIff`).
- A replacement transaction raises its tip after the base-fee projection was added, so its maximum fee can fall short of base
  fee plus tip (`ReplacementCanFallShort`, `ReplacementCoversIff`). On Ethereum the factor 1.3 does not outlast two full blocks
  for base fees below 4 wei (`MainnetOutlastsTwoIff`).
- The snapshot codec loses a dict whose keys include one of its own markers (`RoundTripIff`), and it filters secret names in
  dicts and namespaces but not among record fields (`SecretsIffField`, `SecretFieldIsWritten`). None of the program's records
  has such a field (`RouteSnapshotsAreKeyFree`).
- A scan buffer looks rows up by asset alone. It is as good as the store exactly for sessions that name no asset on two
  networks (`ReplayIsDirectIff`); the scanner only names the buffer's own. A concrete session that does not keep to it records a
  result on the wrong row (`ForeignUpsertMixesRows`).

## Model

| member | source | states |
|---|---|---|
| `Broadcasts.SentAtMostOnce` | src/evm_inventory/executor.py:305-358 | Main safety theorem. Over every run of both executors, with crashes anywhere, restarts, repeated calls and any other journal operation in between: at most one send per position and step key, every sent hash is in the journal, and a send only happens after its hash was committed |
| `Broadcasts.SavedHashNeverResent` | src/evm_inventory/defi_execution.py:239-263 | Once a step holds a hash and the process has crashed, no later run sends for that position and key again: the set of sends for it is frozen |
| `Broadcasts.ActKeepsInvariant` | src/evm_inventory/journal.py:919-957 | Every single journal transaction, network call, crash or foreign operation keeps the protocol invariant |
| `Broadcasts.GuardMeansUnsent` | src/evm_inventory/journal.py:1055-1069 | A position that passes the executor's second guard has had nothing sent for its key |
| `Broadcasts.IntentBindsHash` | src/evm_inventory/journal.py:919-957 | Recording an intent binds the hash to the row of that position, key and nonce, and evolves the other rows only as allowed |
| `Executors.BroadcastDurable` | src/evm_inventory/executor.py:305-358 | The method leaves the tables, the log of sends and the reply of the durable broadcast: conflict, look-up of a saved hash, or one send after the attempt is recorded |
| `Executors.UninterruptedBroadcast` | src/evm_inventory/executor.py:326-358 | That method is the state machine's four actions run without interruption |
| `Executors.BroadcastIsSafe` | src/evm_inventory/executor.py:305-358 | A broadcast behind the guard keeps everything sent at most once and committed |
| `Executors.ExecuteDefiAction` | src/evm_inventory/defi_execution.py:239-297 | Tables, sends and result of one reviewed withdrawal: an earlier step is reported or observed, otherwise one transaction is bound, sent and confirmed |
| `Executors.DefiIsSafe` | src/evm_inventory/defi_execution.py:239-297 | Whatever is answered, a withdrawal keeps the safety property and a position that already has a step sends nothing |
| `Executors.FirstBroadcastSends` | src/evm_inventory/defi_execution.py:486-532 | Without an earlier step of its key a broadcast always sends, as exactly one new submitted step |
| `Executors.FreshWithdrawalIsRecorded` | src/evm_inventory/defi_execution.py:496-532 | A fresh withdrawal that is accepted and mined ends with exactly one confirmed step and one send |
| `Withdrawals.FirstWithdrawal` | src/evm_inventory/defi_execution.py:239-297 | Without an earlier step: sent once exactly when it could be prepared, and its one new step confirmed exactly when the network accepted that hash and mined it; every other result too |
| `Withdrawals.SavedWithdrawal` | src/evm_inventory/defi_execution.py:251-270 | With a saved hash: never sent again, and its own step confirmed exactly when the network knows the hash and has mined it |
| `Withdrawals.BareIntentStops` | src/evm_inventory/defi_execution.py:249-250 | A step without a hash stops the withdrawal and changes no step |
| `Withdrawals.UnminedIsNeverWithdrawn` | src/evm_inventory/defi_execution.py:266-297 | Nothing that was not mined counts as withdrawn or confirms a step |
| `Withdrawals.NewNonceSends` | src/evm_inventory/executor.py:326-358 | A transaction whose nonce has no row is sent as one new submitted step; what the caller learns from each answer |
| `Withdrawals.SavedNonceIsObserved` | src/evm_inventory/executor.py:326-358 | The same transaction again is only looked up; nothing is sent or changed |
| `Withdrawals.OtherHashIsRefused` | src/evm_inventory/journal.py:919-957 | Another transaction under the nonce of a saved one is refused |
| `Withdrawals.GuardsLetThrough` | src/evm_inventory/relay_execution.py:45-54 | The guards of both executors let a position through that was never tried |
| `Withdrawals.GuardsStop` | src/evm_inventory/relay_execution.py:45-54 | The guards stop a Relay position that is finished, under review, broadcast, or intended |
| `RelayExecutors.ExecuteRelayEntries` | src/evm_inventory/relay_execution.py:277-427 | Tables, sends and counts of a whole pass, including the exception that ends it early |
| `RelayExecutors.ExecuteRelayEntry` | src/evm_inventory/relay_execution.py:284-420 | One entry: skipped, blocked, observed, or prepared, bound and sent; then the handlers |
| `RelayExecutors.Observe` | src/evm_inventory/relay_execution.py:179-244 | What each stage of the observation records before it returns or raises |
| `RelayExecutors.PassIsSafe` | src/evm_inventory/relay_execution.py:247-427 | Any entries, known or repeated, any answers, even when the pass ends with an exception: at most one send per position and key, each committed |
| `RelayExecutors.TryIsSafe` | src/evm_inventory/relay_execution.py:45-54 | A position with a broadcast, or with an intent that has no hash, is never sent again |
| `RelayExecutors.CreditCompletesIff` | src/evm_inventory/relay_execution.py:231-244 | An observed credit completes the position exactly when the transition tables let its step be credited and the position completed |
| `RelayExecutors.OwnDepositCompletes` | src/evm_inventory/relay_execution.py:363-372 | For a position that this executor opened the observed credit is never refused |
| `RelayExecutors.FreshDepositCompletes` | src/evm_inventory/relay_execution.py:327-372 | A fresh deposit that is accepted, confirmed and credited sends once and completes its position in one pass |
| `RelayObservations.OnlyCreditCompletes` | src/evm_inventory/relay_execution.py:235-244 | Whatever the tables hold, only a credit that the exchange reports as made completes a position or credits a step |
| `RelayObservations.VerdictIff` | src/evm_inventory/relay_execution.py:179-244 | For every answer how the observation of a sent deposit ends: which answers are pending, which are losses and why, when it completes, and which exception it raises |
| `RelayObservations.ObservedRows` | src/evm_inventory/relay_execution.py:179-244 | For every answer the tables afterwards: the state of the one step, the state of the one position, the notes, and nothing else |
| `RelayObservations.EntrySendsIff` | src/evm_inventory/relay_execution.py:45-54 | An entry sends exactly when its wallet is known, its position open and never sent, its route ready, no announced wait running and a transaction signed; and then once |
| `RelayObservations.RetryIsKept` | src/evm_inventory/relay_execution.py:403-411 | A failure that names a retry time is remembered: the position keeps its state and no entry sends for it before that time |
| `RelayObservations.SentEntryEnds` | src/evm_inventory/relay_execution.py:365-420 | An entry for a deposit sent before sends nothing: waiting leaves it open and pending, a loss puts it before a person with the reason, a credit completes it, any other error leaves it open |
| `RelayObservations.ForeignBroadcastIsLeftAlone` | src/evm_inventory/relay_execution.py:302-318 | A broadcast that this executor did not make, or made for another recipient, is neither observed nor repeated |
| `RelayObservations.PassCounts` | src/evm_inventory/relay_execution.py:277-427 | In a pass that runs to its end every entry is counted once, submissions are at most the sends, and `completed` is the number of positions the pass completed |
| `JournalRuns.OpEvolvesSteps` | src/evm_inventory/journal.py:919-1006 | Every operation only adds rows, keeps each row's identity and bound hash, and moves its state along the table |
| `JournalRuns.StepsArePermanent` | src/evm_inventory/journal.py:125-145 | Over every run no step disappears or changes identity, a bound hash is never replaced, and a terminal state is never left |
| `JournalRuns.CreditedWasSubmitted` | src/evm_inventory/journal.py:1106-1120 | Every step that is credited, confirmed or timed out passed through submitted earlier in the run |
| `JournalRuns.LossNeverDecreases` | src/evm_inventory/journal.py:581-716 | Over every run, adoption included, no group's realised loss decreases |
| `JournalRuns.CompletedReopenedIff` | src/evm_inventory/journal.py:595-627 | A completed position is reopened by an operation exactly when that operation records a conversion the position can still take; no other operation does it |
| `JournalRuns.CompletedCanBeReopened` | src/evm_inventory/journal.py:615-627 | Concrete tables in which a completed position is written back to pending by a first conversion |
| `JournalRuns.CompletedStaysCompleted` | src/evm_inventory/journal.py:784-871 | Over every run without a conversion for it a completed position stays completed |
| `JournalRuns.TerminalGroupReopened` | src/evm_inventory/journal.py:386-579 | A group leaves a terminal state only by one of its own reactivations or by the bootstrap of its only member, and a state other than halted only by the two reactivations that repair a single member |
| `JournalRuns.ConversionTaken` | src/evm_inventory/journal.py:595-627 | When recording a conversion succeeds, and that it touches no other position |
| `JournalRows.GroupIdentity` | src/evm_inventory/journal.py:340-376 | A group is created empty, or found unchanged under the very same identity and budget, or refused |
| `JournalRows.PositionIdentity` | src/evm_inventory/journal.py:732-768 | A position is created planned, or found unchanged when what is given is what was saved, or refused |
| `JournalRows.StepStates` | src/evm_inventory/journal.py:125-145 | The final step states; what can be submitted, confirmed, reverted and credited, and from where |
| `JournalRows.PositionStates` | src/evm_inventory/journal.py:52-124 | The final position states; every open position can be put before a person and none is planned again |
| `JournalRows.FirstIntent` | src/evm_inventory/journal.py:919-957 | A first intent adds one row, submitted with its hash or planned without |
| `JournalRows.RepeatedIntent` | src/evm_inventory/journal.py:919-957 | A repeated intent changes nothing or binds the first hash; other digests, another hash and a finished step are refused |
| `JournalRows.AttemptRows` | src/evm_inventory/journal.py:988-995 | An attempt submits the step, counts it and binds the hash only when there was none |
| `JournalRows.SwapRequoteRows` | src/evm_inventory/journal.py:813-871 | Exactly when a requote after a swap is taken, and its event and row |
| `JournalRows.BridgeRequoteRows` | src/evm_inventory/journal.py:873-910 | Exactly when a requote after a bridge is taken, and its event |
| `JournalRows.RequotedAtMostOnce` | src/evm_inventory/journal.py:813-871 | Over every run a position is requoted after a swap at most once |
| `Journals.Journal.constructor` | src/evm_inventory/journal.py:149-280 | A new journal is empty |
| `Journals.Journal.Group` | src/evm_inventory/journal.py:340-376 | Creates the group or finds it; a saved identity that differs is refused |
| `Journals.Journal.Position` | src/evm_inventory/journal.py:732-768 | Creates the position or finds it; a saved identity that differs is refused |
| `Journals.Journal.SetGroupState` | src/evm_inventory/journal.py:718-730 | The group state follows the transition table, or nothing changes |
| `Journals.Journal.SetGroupRealizedLoss` | src/evm_inventory/journal.py:581-593 | The total is raised, never lowered, and only in an open group |
| `Journals.Journal.SetPositionState` | src/evm_inventory/journal.py:784-811 | The position state follows the transition table, or nothing changes |
| `Journals.Journal.RequoteSwap` | src/evm_inventory/journal.py:813-871 | At most one requote per position after a swap, with its event |
| `Journals.Journal.RequoteBridge` | src/evm_inventory/journal.py:873-910 | Every requote after a bridge is one event |
| `Journals.Journal.SetStepState` | src/evm_inventory/journal.py:1102-1120 | The step state follows the transition table, or nothing changes |
| `Journals.Journal.StepIntent` | src/evm_inventory/journal.py:919-957 | Inserts the intent once per nonce, refuses other digests or another hash, and binds the hash together with the submitted state |
| `Journals.Journal.BroadcastAttempt` | src/evm_inventory/journal.py:988-995 | Counts the attempt and keeps a hash that is already bound |
| `Journals.Journal.WriteCheckpoint` | src/evm_inventory/journal.py:1035-1044 | One payload per position and key, the last one written |
| `Journals.Journal.AdoptLegacySourceCost` | src/evm_inventory/journal.py:637-662 | The adopted tables, or nothing when the ledger is ambiguous |
| `Journals.Journal.AccountCumulativeLoss` | src/evm_inventory/journal.py:664-678 | Raises the position and its group by the same difference |
| `Journals.Journal.AccountSwappedLoss` | src/evm_inventory/journal.py:680-704 | Adopts an old row first; a transaction that fails half-way leaves the tables as they were |
| `Journals.Journal.AccountLoss` | src/evm_inventory/journal.py:680-716 | Counts a reported loss once |
| `Journals.Journal.ConvertSource` | src/evm_inventory/journal.py:595-627 | Stores a confirmed swap, its cost and its provenance together |
| `Journals.Journal.ReactivateKnownDirectDeposit` | src/evm_inventory/journal.py:386-411 | Tables after repairing a single known direct deposit |
| `Journals.Journal.ReactivateLegacyGasDeferral` | src/evm_inventory/journal.py:413-441 | Tables after repairing a single old gas deferral |
| `Journals.Journal.ReplanMembers` | src/evm_inventory/journal.py:474-490 | The row-by-row loop puts every unfinished member back to planned and touches nothing else |
| `Journals.Journal.ReactivateUnsignedGroup` | src/evm_inventory/journal.py:443-490 | Tables after reactivating a halted group whose members were never broadcast |
| `Journals.Journal.ReactivateUnsignedWeth` | src/evm_inventory/journal.py:528-579 | Tables after reactivating a halted group with one delivered WETH member |
| `Journals.Journal.Bootstrap` | src/evm_inventory/canonical_source_bootstrap.py:32-197 | Tables after the bootstrap of the only member of a group that was halted for gas; nothing changes when it is not eligible |
| `Journals.Journal.Perform` | src/evm_inventory/journal.py:340-1120 | Any operation called on the object leaves the tables of the run theorems |
| `Reactivations.UnsignedRetryIff` | src/evm_inventory/journal.py:443-473 | A halted group is taken up again as unsent exactly when it was halted for a passing reason, the keys name its members, some member is unfinished, each finished one has a credit bound to its deposit, and each other one was halted with the group and has no step but approvals |
| `Reactivations.UnsignedRetryRows` | src/evm_inventory/journal.py:474-490 | Then every unfinished member is planned again with a note, and the group is active; nothing else changes |
| `Reactivations.CreditVerifiedIff` | src/evm_inventory/journal.py:492-513 | A credit counts as bound exactly when hash, recipient, coin and chain are those of the saved deposit and its source transaction is the newest of its step |
| `Reactivations.DirectDepositIff` | src/evm_inventory/journal.py:386-411 | Exactly when a known direct deposit is repaired: the only member, under its key, with a hash that has not failed; and the two states it writes |
| `Reactivations.GasDeferralIff` | src/evm_inventory/journal.py:413-441 | Exactly when an old gas deferral is repaired: the only member, deferred for gas, with nothing broadcast; and the two states it writes |
| `Reactivations.WethContinuationIff` | src/evm_inventory/journal.py:528-579 | Exactly when the last WETH member is continued: all others finished, halted for gas and not accounted for, its proved cost within the rest of the budget; and what it writes |
| `Reactivations.BootstrapIff` | src/evm_inventory/canonical_source_bootstrap.py:32-197 | Exactly when the only member of a group is bootstrapped: halted for gas, without any step, as the entry says, with budget left; and what it writes |
| `Reactivations.BackToPlannedIsUnsent` | src/evm_inventory/journal.py:443-490 | Over all operations: only the unsigned retry and the bootstrap put a position back to planned, and only one under review without any step but approvals |
| `Reactivations.IntendedIsNeverReplanned` | src/evm_inventory/journal.py:468-474 | So over every run a position that has left planned with a step of its own, signed or sent, is never planned again |
| `LossLedger.LedgerStepConserves` | src/evm_inventory/journal.py:664-716 | Outside adoption one report leaves the part of a group's total that no member accounts for unchanged |
| `LossLedger.LedgerConserves` | src/evm_inventory/journal.py:595-716 | The same over every sequence of reports and conversions |
| `LossLedger.ReportsCount` | src/evm_inventory/journal.py:664-716 | After any reports each position accounts for the greatest value it had or was reported |
| `LossLedger.ReportOrderIrrelevant` | src/evm_inventory/journal.py:664-716 | Two lists of reports with the same greatest value for each position leave the same tables, in any order and with any repetition |
| `LossLedger.AdoptedIffUnambiguous` | src/evm_inventory/source_cost_provenance.py:77-144 | With readable rows of one wallet an old row is adopted exactly when one and only one decomposition explains the group's total |
| `LossLedger.OneFoundIffOneExists` | src/evm_inventory/source_cost_provenance.py:126-134 | The search over combinations finds one exactly when exactly one exists |
| `LossLedger.AdoptionUsesTheOnlyDecomposition` | src/evm_inventory/source_cost_provenance.py:126-144 | Adoption uses that decomposition and no other |
| `LossLedger.AdoptionSettlesTotal` | src/evm_inventory/source_cost_provenance.py:132-144 | Afterwards the total is siblings plus source plus remaining cost, and it rose by zero or by the source cost |
| `LossLedger.AdoptionBalancesGroup` | src/evm_inventory/journal.py:637-662 | Afterwards the group's realised loss is exactly the proved cost of all its members, the adopted one included; other groups are untouched |
| `LossLedger.AdoptedAtMostOnce` | src/evm_inventory/journal.py:637-662 | After adoption no sequence of reports and conversions makes the position adoptable again |
| `JournalRuns.AdoptedOnceInARun` | src/evm_inventory/journal.py:637-662 | The same over every journal run, with steps, states, requotes, reactivations and checkpoints in between, that does not write the provenance checkpoint by hand |
| `LossLedger.LegacyReportLands` | src/evm_inventory/journal.py:680-704 | Reporting the old remaining cost after adoption accounts for it on top of the source cost, whichever decomposition the ledger had |
| `Adoptions.SiblingCostIff` | src/evm_inventory/source_cost_provenance.py:51-74 | The cost of a sibling is the one its rows prove: what it accounted for, that plus an old swap when it is finished, nothing when untouched, or the credited deposit plus the swap when finished; and it is refused exactly when they prove none |
| `Adoptions.AdoptIff` | src/evm_inventory/source_cost_provenance.py:77-144 | An old swap cost is adopted exactly when the rows can be read, prove every other member, and leave one and only one explanation of what the group has paid |
| `Adoptions.AdoptedRows` | src/evm_inventory/journal.py:637-662 | The tables after adoption: what position and group account for, the restated deposit and the kept proof |
| `Adoptions.AdoptionBalancesRows` | src/evm_inventory/journal.py:637-662 | Afterwards the rows of every member prove a cost, and together they are exactly what the group has paid |
| `Adoptions.FirstReportStands` | src/evm_inventory/journal.py:690-716 | Without a swap the first reported cost stands over any reports, and the group pays for it once |
| `Adoptions.FirstConversionRows` | src/evm_inventory/journal.py:595-627 | What a first conversion stores in position, group, swap and provenance |
| `Adoptions.ConversionIsFinal` | src/evm_inventory/journal.py:595-627 | Storing the same conversion again changes nothing, and a different one is refused |
| `LifiQuota.WindowNeverOverflows` | src/evm_inventory/lifi_quota.py:141-189 | Over every run every half-open window of the bucket's length holds at most `limit` reservations |
| `LifiQuota.PlanningLeavesReserve` | src/evm_inventory/lifi_quota.py:89-123 | And at most `limit - reserve` of them are planning requests |
| `LifiQuota.TableCountsLog` | src/evm_inventory/lifi_quota.py:99-106 | The request table counts exactly the admitted requests of every window |
| `LifiQuota.AvailableNowIffAdmitted` | src/evm_inventory/lifi_quota.py:125-139 | `available_at` answers now exactly when an unpaced request would be admitted |
| `LifiQuota.RetryAdmittedIff` | src/evm_inventory/lifi_quota.py:155-168 | Retrying at the answered time is admitted exactly unless the provider's limit leaves no room, the local window is full, and its slot frees only after both the provider's reset and the cooldown |
| `LifiQuotaReach.RetryCanBeRefused` | src/evm_inventory/lifi_quota.py:125-139 | A run on the public `steps` bucket (47 requests, then a provider limit of three) whose retry at the answered time is refused |
| `LifiQuotaReach.RetryReliableIff` | src/evm_inventory/lifi_quota.py:125-168 | For every bucket rule and purpose: the retry is admitted on all reachable ledgers exactly when provider limits are ignored or nothing is reserved from the purpose |
| `LifiQuota.AvailableIsEarliestIff` | src/evm_inventory/lifi_quota.py:125-139 | The answered time is the earliest admissible one exactly unless it waits for a slot of the lowered limit although the limit is lifted, the cooldown over and the restored limit open before |
| `LifiQuotaReach.AnswerTooLate` | src/evm_inventory/lifi_quota.py:125-139 | For every rule with more than one slot a reachable run whose answer is later than needed |
| `LifiQuotaReach.EarliestReliableIff` | src/evm_inventory/lifi_quota.py:125-139 | For every bucket rule and purpose: the answer is the earliest time on all reachable ledgers exactly when provider limits are ignored or the purpose has a single slot |
| `LifiQuotaReach.StartsAreApart` | src/evm_inventory/lifi_quota.py:191-222 | Over every run of marks, of any buckets and clock readings, `k` starts later is at least `k` seconds later, and no start falls in its bucket's cooldown |
| `LifiQuotaHistory.AdmittedIffHistory` | src/evm_inventory/lifi_quota.py:89-168 | In every run exactly when a request is admitted, told by history alone: every time a refusal stated has come, the admitted requests of the window are fewer than the limit in force less the reserve, and what an open provider window leaves after later reservations exceeds the reserve |
| `LifiQuotaHistory.CooldownIsLatestStated` | src/evm_inventory/lifi_quota.py:288-304 | Over every run the cooldown is the latest time any refusal stated, and none without a refusal |
| `LifiQuotaHistory.RefusalHolds` | src/evm_inventory/lifi_quota.py:288-304 | After a refusal nothing of the bucket is admitted before the stated time, whatever arrives in between |
| `LifiQuotaHistory.LimitIsLeastIff` | src/evm_inventory/lifi_quota.py:264-285 | Over every run the limit in force while a provider window is open is the least reported in it exactly when none below one was reported |
| `LifiQuotaHistory.LimitForgotten` | src/evm_inventory/lifi_quota.py:264-285 | A concrete run: after a limit of five and one of a half no limit is in force |
| `LifiQuotaHistory.RefusedForAMinute` | src/evm_inventory/lifi_quota.py:288-304 | A concrete run on the public `routes` bucket: refused for a minute, the next request is not admitted |
| `LifiQuotaHistory.StartsWhenDue` | src/evm_inventory/lifi_quota.py:191-222 | A mark starts exactly when the last start is a second away and its bucket is not cooling down |
| `LifiQuota.ProviderRowIsHistory` | src/evm_inventory/lifi_quota.py:224-287 | While its reset has not passed the provider row equals the minimum over the full history of its window |
| `LifiQuota.ReservationTakesOne` | src/evm_inventory/lifi_quota.py:176-189 | A reservation lowers that minimum by exactly one |
| `LifiQuota.ResponseOrderIrrelevant` | src/evm_inventory/lifi_quota.py:224-287 | While a provider window is open, responses that arrive in another order or more than once leave the same counter |
| `LifiQuota.LifiQuotaStore.constructor` | src/evm_inventory/lifi_quota.py:36-67 | An empty store |
| `LifiQuota.LifiQuotaStore.Available` | src/evm_inventory/lifi_quota.py:125-139 | The answered time in terms of the tables, without changing them |
| `LifiQuota.LifiQuotaStore.Refusal` | src/evm_inventory/lifi_quota.py:141-168 | No refusal exactly when the bucket admits the request; otherwise which refusal and when to retry |
| `LifiQuota.LifiQuotaStore.ReserveRequest` | src/evm_inventory/lifi_quota.py:141-189 | Granted exactly when admitted and paced apart; the whole new state of every bucket |
| `LifiQuota.LifiQuotaStore.MarkStarted` | src/evm_inventory/lifi_quota.py:191-222 | Started exactly when known, not cooling down and a second after the last start; the whole new state |
| `LifiQuota.LifiQuotaStore.Observe` | src/evm_inventory/lifi_quota.py:224-308 | The merged provider row and cooldown of the bucket; other buckets keep theirs |
| `LifiQuota.LifiQuotaStore.Perform` | src/evm_inventory/lifi_quota.py:141-308 | Any event called on the object changes its bucket as one step of the runs above |
| `QuoteJobsModel.DispatchesNeverOverlap` | src/evm_inventory/quote_jobs.py:109-192 | Over every run with any number of owners the dispatches of one job never overlap, and every stored response came from a dispatch that was live |
| `QuoteJobsModel.ReadableIsStored` | src/evm_inventory/quote_jobs.py:84-107 | A stored response is readable exactly until its expiry and is the one its live dispatch stored |
| `QuoteJobsModel.DeadForever` | src/evm_inventory/quote_jobs.py:173-192 | A token that was replaced, ended or ran out of lease stays dead over every run, and no call with it changes the table |
| `QuoteJobsModel.BadRequestIsFinal` | src/evm_inventory/quote_jobs.py:109-140 | A row that failed as a bad request is never changed by any run |
| `QuoteJobsModel.BadRequestBlocksIffError` | src/evm_inventory/quote_jobs.py:238-265 | A row with a bad-request diagnostic is unclaimable for everyone at every time exactly when it is an error, not a wait |
| `QuoteJobsModel.BadRequestFinalIffError` | src/evm_inventory/quote_jobs.py:109-140 | In every run: a refused request whose failure is stored stays as it is over everything that follows exactly when it is stored as an error |
| `QuoteJobsModel.WaitingBadRequestIsClaimed` | src/evm_inventory/quote_jobs.py:238-265 | A concrete run that claims a job, stores a status 400 as a wait and claims the job again |
| `QuoteJobsModel.RefusedIsFinal` | src/evm_inventory/lifi.py:429-442 | With the caller's rule, waits only for requests that were not refused, every refused request is final whatever follows |
| `QuoteJobsProgress.StrangerClaimsIff` | src/evm_inventory/quote_jobs.py:109-171 | Another owner claims a job exactly when its row leaves it free: after the lease, the expiry or the retry time, and never after a bad request; the claim holds it for a minute |
| `QuoteJobsProgress.AbandonedIsClaimed` | src/evm_inventory/quote_jobs.py:126-171 | In every run a job whose owner died is claimed by the next stranger once its lease has ended, and by nobody before |
| `QuoteJobsProgress.EarlyRetryRefused` | src/evm_inventory/quote_jobs.py:138-147 | A failure is not asked again before its time, or the time of the recheck for a quota wait |
| `QuoteJobsProgress.FailedIsRemembered` | src/evm_inventory/quote_jobs.py:263-265 | Over its whole life an owner never claims a job again that it failed with an error |
| `QuoteJobsProgress.RowsSayTheirResults` | src/evm_inventory/quote_jobs.py:220-236 | In every run a row marked without routes holds a response without routes, a complete one a response with routes, and others none |
| `QuoteJobsProgress.FinishedIsServed` | src/evm_inventory/quote_jobs.py:220-236 | A finished job serves exactly the response until its expiry, and is free from then on |
| `QuoteJobsProgress.FinishTakenIff` | src/evm_inventory/quote_jobs.py:173-192 | A response is stored exactly when the token is the caller's own and names the dispatch that holds the row, within its lease |
| `QuoteJobsProgress.ForeignTokenRefused` | src/evm_inventory/quote_jobs.py:173-176 | With the token of another owner no call changes the table or is remembered |
| `QuoteJobsProgress.BadRequestIff` | src/evm_inventory/quote_jobs.py:247-252 | A bad request is an answer of the four hundreds that is not a rate limit, and nothing else |
| `QuoteJobsProgress.TriedErrorRefused` | src/evm_inventory/quote_jobs.py:134-140 | An owner that claimed a job once never takes it again after an error, whoever made it |
| `QuoteJobsModel.QuoteJobs.Read` | src/evm_inventory/quote_jobs.py:84-107 | The answer, and the expired mark that it writes |
| `QuoteJobsModel.QuoteJobs.Claim` | src/evm_inventory/quote_jobs.py:109-171 | Claimed exactly when allowed; the claimed row, the new token and the owner's memory |
| `QuoteJobsModel.QuoteJobs.Renew` | src/evm_inventory/quote_jobs.py:194-197 | The lease moves exactly when the token still holds the row |
| `QuoteJobsModel.QuoteJobs.Finish` | src/evm_inventory/quote_jobs.py:220-236 | The response is stored exactly when the token still holds the row |
| `QuoteJobsModel.QuoteJobs.Fail` | src/evm_inventory/quote_jobs.py:238-265 | The failure is stored exactly when the token still holds the row; what the owner remembers |
| `QuoteJobsModel.QuoteJobs.Perform` | src/evm_inventory/quote_jobs.py:84-265 | Any call on the object is one step of the runs above, for the table and the owner's memory |
| `RouteTree.ChargesDominateEveryCut` | src/evm_inventory/lifi.py:1286-1308 | With no omission reported the charged totals are at least those of every cut of the step tree, token by token |
| `RouteTree.ChargesAreACut` | src/evm_inventory/lifi.py:1286-1308 | The charged costs are themselves a cut: each branch is charged at one level |
| `RouteTree.ReportedIffDishonest` | src/evm_inventory/lifi.py:1305-1307 | An omission is reported exactly when some step's own costs fail to dominate a cut below it |
| `RouteTree.Totals` | src/evm_inventory/lifi.py:1276-1280 | The accumulated totals are the sums per token |
| `RouteTree.CostsCover` | src/evm_inventory/lifi.py:1273-1283 | Covering is per token over the totals |
| `RouteTree.HierarchicalCosts` | src/evm_inventory/lifi.py:1286-1308 | The accumulating loop computes the recursive definition, malformed input included |
| `RouteTree.AcceptedRouteIsOneChain` | src/evm_inventory/lifi.py:893-946 | The leaves of an accepted route, at any depth, form one chain from the expected asset and amount to the expected destination |
| `RouteTree.LeavesFlow` | src/evm_inventory/lifi.py:1380-1399 | A valid nested step carries its own asset and amounts through all its leaves |
| `RouteAcceptance.AcceptedIff` | src/evm_inventory/lifi.py:893-946 | A route is accepted exactly when its id and evidence are the expected ones, every step at every depth can be read and passes on what it takes in, and its steps deliver the input to the expected destination and recipient |
| `RouteAcceptance.ValidTreeIff` | src/evm_inventory/lifi.py:1344-1399 | Nested validation accepts exactly the trees in which everything flows through each step, at every depth |
| `RouteAcceptance.CostsReadIff` | src/evm_inventory/lifi.py:1286-1304 | Costs are refused exactly when some step at some depth cannot be read or is ambiguous |
| `RouteAcceptance.ParseAllAreTrees` | src/evm_inventory/lifi.py:1286-1304 | The costs read are those of the steps, nested as the steps are |
| `RouteAcceptance.CoversIff` | src/evm_inventory/lifi.py:1273-1283 | A parent covers its children exactly when it has at least as much of every token |
| `RouteAcceptance.LeavesAre` | src/evm_inventory/lifi.py:1344-1399 | The leaves of a valid list are the facts of exactly those steps, at any depth, that nest nothing |
| `RouteChoices.GasNeverLowersLoss` | src/evm_inventory/valuation.py:99-110 | Wallet-paid gas on unchanged endpoint values never lowers the loss percentage |
| `RouteChoices.ValuationIsWellValued` | src/evm_inventory/consolidation.py:123-197 | A valued candidate carries exactly the loss and percentage of its values |
| `RouteChoices.CombineIsWellValued` | src/evm_inventory/consolidation.py:385-439 | So does a combination of two |
| `RouteChoices.KeysTransitive` | src/evm_inventory/consolidation.py:532-544 | The ordering key compares transitively |
| `RouteChoices.SelectIsFirstLeast` | src/evm_inventory/consolidation.py:442-450 | The first valid candidate with the least key is selected |
| `RouteValues.CandidateIff` | src/evm_inventory/consolidation.py:123-197 | Exactly which quotes become valid candidates; their values times the decimals are raw amounts times prices, and their gas is the total of the quotes |
| `RouteValues.CombinedIff` | src/evm_inventory/consolidation.py:385-439 | Exactly when two candidates combine: the first hands its asset and amount to the second; the pair has the source of one, the destination of the other, and the gas of both |
| `RouteValues.ValueScales` | src/evm_inventory/valuation.py:119-127 | Ten times the raw amount at one more decimal is the same value |
| `RouteValues.GasConcatenates` | src/evm_inventory/valuation.py:99-106 | Gas adds up over steps |
| `RouteValues.DeliveringMoreLosesLess` | src/evm_inventory/valuation.py:107-110 | For the same source value and gas the candidate that delivers more does not lose more, and loses less when the other falls short |
| `RouteValues.KeyOrder` | src/evm_inventory/consolidation.py:532-544 | The order: percentage, loss, chain, contract, decimals, route ids |
| `RouteValues.SelectLosesLeast` | src/evm_inventory/consolidation.py:442-450 | The selected candidate loses the least percentage, and the least value among those |
| `RouteValues.SelectDeliversMost` | src/evm_inventory/consolidation.py:442-450 | Among candidates for one source value and gas nothing delivers more than the selected one, unless that one delivers the whole source |
| `RouteValues.RefinedCoversAllSteps` | src/evm_inventory/live_plan.py:1158-1206 | A refined choice covers all its steps: each could be prepared, and it has the routes and the gas of all |
| `RouteValues.ChosenIsComplete` | src/evm_inventory/consolidation.py:442-450 | Nothing is chosen that was rejected, has no loss, or has gas that is missing, incomplete or unpriced |
| `RouteValues.RejectionReason` | src/evm_inventory/consolidation.py:146-181 | Which reason a rejected quote gets |
| `RouteValues.SkippedAreCounted` | src/evm_inventory/live_plan.py:1153-1157 | Exactly the beaten choices are counted as skipped |
| `RouteChoices.PruningKeepsWinner` | src/evm_inventory/live_plan.py:1140-1217 | If no refinement is cheaper than its quote, skipping beaten choices finds the winner of the exhaustive search, ties included, for every order of the quotes |
| `RouteChoices.ZeroGasBoundIsSafe` | src/evm_inventory/live_plan.py:1140-1217 | Which holds for zero-gas quotes whose endpoint values the preparation leaves alone |
| `RouteChoices.PruningSafeIff` | src/evm_inventory/live_plan.py:1153-1157 | The condition is exact: a choice can be pruned safely against every competitor if and only if its refinement is not cheaper |
| `RouteChoices.Refine` | src/evm_inventory/live_plan.py:1158-1206 | Refining with the shared table of prepared candidates gives the same candidate as preparing each step anew |
| `RouteChoices.RefineAndPrune` | src/evm_inventory/live_plan.py:1151-1217 | The loop returns that winner and the number of choices it skipped |
| `GasCycles.Reachable` | src/evm_inventory/collection.py:438-445 | The worklist terminates with exactly the owners that a walk of dependencies reaches |
| `GasCycles.ComponentsPartition` | src/evm_inventory/collection.py:447-453 | Components are classes: a member has the same component |
| `GasCycles.ComponentIsCycle` | src/evm_inventory/collection.py:453-454 | An owner lies on a cycle exactly when its component has another member |
| `GasCycles.DependencyCycles` | src/evm_inventory/collection.py:447-460 | The reported cycles are pairwise disjoint whole components of several owners, and an owner is in one exactly when it lies on a cycle |
| `PlanRecovery.DueIsFirstWait` | src/evm_inventory/collection.py:181-204 | A source is due with its first retryable entry and never before the backoff |
| `PlanRecovery.MergedSource` | src/evm_inventory/collection.py:230-236 | A merged source has, whole, its fresh entries or its old ones |
| `PlanRecovery.RecoveryKeepsSources` | src/evm_inventory/collection.py:150-257 | Over any number of passes and answers the same sources stay covered, a finished source keeps exactly its entries, and no source mixes answers |
| `PlanRecovery.Recover` | src/evm_inventory/collection.py:166-257 | The retry loop leaves the plan and the number of attempts of those passes |
| `RecoveryTimes.BackoffDoubles` | src/evm_inventory/collection.py:181 | The backoff starts at a second and doubles, up to a minute |
| `RecoveryTimes.WaitIs` | src/evm_inventory/collection.py:186-202 | An entry that only waits for the provider waits at least until its first retry time; any other one only backs off |
| `RecoveryTimes.RetriedIff` | src/evm_inventory/collection.py:205-223 | After waiting for the first due source exactly those due by then are tried |
| `RecoveryTimes.PassDoes` | src/evm_inventory/collection.py:166-257 | One pass: it stops exactly when the deadline has come or nothing is due before it; else it counts one attempt and each tried source has its fresh entries whole |
| `RecoveryTimes.AttemptsAreCounted` | src/evm_inventory/collection.py:165-257 | A stopped recovery changes nothing more, and one that goes on made an attempt in every pass |
| `ScanReplay.ReplayIsDirect` | src/evm_inventory/scan_buffer.py:83-103 | For every sequence of calls that names no asset on two networks, whichever calls meet the deadline, replaying the buffer leaves the store exactly as the direct calls would, refuses nothing, and discovers the same rows |
| `ScanReplay.ReplayIsDirectIff` | src/evm_inventory/scan_buffer.py:29-103 | The condition is exact: for every session replay and direct calls agree under every continuation without upserts if and only if the session names no asset, listed or upserted, on two networks |
| `ScanViews.WorkerSawTheStore` | src/evm_inventory/scan_buffer.py:29-58 | Temporary ids stand one-to-one for real rows of their own networks; every buffered row shows the stored kind and metadata, and the stored state unless it is an earlier row of another network not yet recorded |
| `ScanViews.AlwaysShownIff` | src/evm_inventory/scan_buffer.py:29-58 | Every buffered row shows its stored row at every moment of the session exactly when no upsert names a row of another network that already has a state |
| `ScanViews.DiscoveryIsShown` | src/evm_inventory/scan_buffer.py:64-76 | In every session, whatever it names, the discovery state read back from the buffer is the stored one of the network written last |
| `ScanHistory.RowIsHistory` | src/evm_inventory/store.py:503-597 | After any session every row is told by the calls: its attempts count the recorded results, its state is the last one recorded, its kind and metadata are the last upserted |
| `ScanHistory.UpsertReturnsItsRow` | src/evm_inventory/store.py:503-537 | An upsert hands out the one row of its network and lower-case asset |
| `ScanHistory.LastWriteStands` | src/evm_inventory/store.py:631-685 | Discovery state and pass of each network are the last ones written, with defaults for what was not given |
| `ScanHistory.ReplayedRowIsHistory` | src/evm_inventory/scan_buffer.py:83-103 | So are the rows that the replay of a buffered session leaves |
| `ScanReplay.SealedIsFinal` | src/evm_inventory/scan_buffer.py:20-23 | Nothing attempted after sealing changes what is replayed |
| `ScanViews.ReplayKeepsOtherSnapshots` | src/evm_inventory/scanner.py:375-377 | Replaying a buffer whose session does not name another network leaves that network's snapshot valid, so several buffers can be replayed in any order |
| `ScanViews.OpenIsSnapshot` | src/evm_inventory/scanner.py:360-362 | A buffer opened on the store starts as its snapshot |
| `ScanViews.ForeignUpsertMixesRows` | src/evm_inventory/scan_buffer.py:29-48 | A concrete session that names another chain and records a result on the wrong row |
| `ScanWorkers.Store.UpsertAsset` | src/evm_inventory/store.py:503-537 | Updates the row of the unique key or adds one, and returns its id |
| `ScanWorkers.Store.RecordAsset` | src/evm_inventory/store.py:578-597 | Writes the row and counts the attempt, or refuses an unknown id |
| `ScanWorkers.Store.WriteDiscoveryState` | src/evm_inventory/store.py:631-660 | Replaces the whole state of the network, with the defaults for what is not given |
| `ScanWorkers.Store.SavePass` | src/evm_inventory/store.py:672-685 | Replaces the saved pass of the network |
| `ScanWorkers.Store.Perform` | src/evm_inventory/store.py:503-685 | Any attempt made directly on the object is one step of the direct session |
| `ScanWorkers.ScanBuffer.UpsertAsset` | src/evm_inventory/scan_buffer.py:29-48 | The buffered row and operation, or a refusal that changes nothing |
| `ScanWorkers.ScanBuffer.RecordAsset` | src/evm_inventory/scan_buffer.py:50-58 | The buffered result and operation, or a refusal that changes nothing |
| `ScanWorkers.ScanBuffer.WriteDiscoveryState` | src/evm_inventory/scan_buffer.py:64-76 | The buffered state and operation, or a refusal that changes nothing |
| `ScanWorkers.ScanBuffer.SavePass` | src/evm_inventory/scan_buffer.py:78-81 | The operation, or a refusal that changes nothing |
| `ScanWorkers.ScanBuffer.Perform` | src/evm_inventory/scan_buffer.py:20-81 | Any attempt made on the object is one step of the buffered session |
| `ScanWorkers.ScanBuffer.Persist` | src/evm_inventory/scan_buffer.py:83-103 | Seals, and leaves the store and the discovered ids of the replay |
| `RouteCheckpoints.RoundTripIff` | src/evm_inventory/route_checkpoints.py:18-65 | Whatever is encoded comes back as the value without callables and secrets exactly when no dict, namespace or record in it uses a marker as a key |
| `SnapshotValues.CleanKeepsIff` | src/evm_inventory/route_checkpoints.py:32-37 | A snapshot leaves a value as it is exactly when no dict or namespace in it holds a callable or a secret name |
| `SnapshotValues.DictKeeps` | src/evm_inventory/route_checkpoints.py:32-37 | A dict loses exactly its callables and secrets, and the rest is cleaned in turn |
| `SnapshotValues.PlainRoundTrip` | src/evm_inventory/route_checkpoints.py:18-65 | A plain value of supported kinds without a marker key comes back exactly as it was |
| `RouteCheckpoints.EncodesIffSupported` | src/evm_inventory/route_checkpoints.py:18-45 | The encoder raises exactly when something that survives cleaning is callable or unknown |
| `RouteCheckpoints.SecretsIffField` | src/evm_inventory/route_checkpoints.py:29-42 | A snapshot names a secret exactly when some record in it, at any depth that survives the cleaning, has a field with a secret's name |
| `RouteCheckpoints.SecretFieldIsWritten` | src/evm_inventory/route_checkpoints.py:32-37 | A concrete record whose secret is written |
| `RouteCheckpoints.RouteSnapshotsAreKeyFree` | src/evm_inventory/route_checkpoints.py:10-15 | No record class that the codec knows, the dataclasses of the four modules it reads, has such a field, so no route snapshot names a secret |
| `RouteCheckpoints.NoSecretIsWritten` | src/evm_inventory/route_checkpoints.py:29-42 | When no known record has such a field, no snapshot names a secret |
| `RouteCheckpoints.EncodedIsJson` | src/evm_inventory/route_checkpoints.py:18-45 | What is written is plain JSON |
| `Fees.PlanFees` | src/evm_inventory/fee_planner.py:116-240 | The step-by-step plan, loop included, gives exactly the planned fees or the error |
| `Fees.HorizonIsCovered` | src/evm_inventory/fee_planner.py:197-205 | Off Ethereum mainnet a planned maximum fee pays the base fee and the whole tip after any run of at most the horizon's blocks under the update rule in the Specification section of EIP-1559 |
| `Fees.OutlastsIff` | src/evm_inventory/fee_planner.py:197-205 | A fee outlasts every run of at most `n` blocks exactly when it reaches the base fee after `n` full blocks plus the tip |
| `Fees.ReplacementCoversIff` | src/evm_inventory/fee_planner.py:206-215 | A replacement covers its raised tip exactly when the raised fee reaches the worst base fee plus that tip |
| `Fees.ReplacementCanFallShort` | src/evm_inventory/fee_planner.py:206-215 | A concrete replacement whose maximum fee does not cover base fee and tip in the next blocks |
| `Fees.MainnetOutlastsTwoIff` | src/evm_inventory/fee_planner.py:192-196 | On Ethereum the 1.3 rule outlasts one block always and two full blocks exactly from a base fee of 4 wei |
| `Fees.ReplacementRaisesBoth` | src/evm_inventory/fee_planner.py:414-415 | A replacement raises the maximum fee, and the tip it offers, by at least an eighth |
| `Fees.PlanIsAffordable` | src/evm_inventory/fee_planner.py:127-138 | The gas limit exceeds the estimate within the ceiling, the fee is at least the tip, and the total is within the cap |
| `FeePlans.PlanIff` | src/evm_inventory/fee_planner.py:116-240 | Exactly when there is a plan: a sensible cap, an estimate within the ceiling, a price, a known fee to replace, a known layer-one fee, and a total within the cap |
| `FeePlans.NewFees` | src/evm_inventory/fee_planner.py:167-205 | The fees of a new transaction: the gas price without a tip; on Ethereum the least 1.3 times the base fee and the tip it leaves; elsewhere the projected base fee and the whole tip |
| `FeePlans.ReplacementFees` | src/evm_inventory/fee_planner.py:206-215 | A replacement pays the fees of a new transaction unless an eighth above the replaced ones is more, and never less than its tip |
| `FeePlans.FloorIsLeast` | src/evm_inventory/fee_planner.py:414-415 | The floor of a replacement is the least positive fee that is an eighth higher |
| `FeePlans.ProjectionRises` | src/evm_inventory/fee_planner.py:201-203 | Each projected block raises the base fee by the least amount that is at least an eighth |
| `RelayReserve.NativeQuote` | src/evm_inventory/relay.py:271-310 | The loop's outcome, the quoted amounts, and that an accepted amount is priced by its own quote |
| `RelayReserve.AcceptedQuoteFits` | src/evm_inventory/relay.py:271-310 | Against arbitrary fees an accepted quote has a positive input that fits the balance with its own fee, after at most three fees; what every other outcome means |
| `RelayReserve.SteadyFeeAcceptedIff` | src/evm_inventory/relay.py:271-310 | A steady fee is accepted, with the second quote, exactly when it is positive and below the balance |
| `RelayReserve.SmallRiseAccepted` | src/evm_inventory/relay.py:282-296 | When the padding fits, a second fee up to a fifth higher is accepted at once |
| `RelayReserve.Prepare` | src/evm_inventory/relay_execution.py:74-113 | The loop's outcome before signing |
| `RelayReserve.PreparedFits` | src/evm_inventory/relay_execution.py:74-113 | What is prepared never exceeds the plan, nor with its fee the balance; with automatic requoting the final check never fails |
| `RelayReserve.SteadyFeePreparedIff` | src/evm_inventory/relay_execution.py:74-113 | Exactly when a planned input with a steady fee is prepared |
| `RelayReserve.BadAmountIff` | src/evm_inventory/relay_execution.py:74-78 | Nothing is priced exactly when nothing could be sent |
| `RelayReserve.SmallRisePrepared` | src/evm_inventory/relay_execution.py:98-106 | When the padding fits, a second fee up to a fifth higher is accepted at once |

## Left out

- HTTP, RPC, proxies, signing, hashing and encodings: their answers are arbitrary parameters, and hashes and digests are opaque tokens.
- SQL schema, migrations, file locks and connections: each transaction is atomic, and locks serialise one executor of each kind.
- Text validation of digests, amounts and addresses, and texts that do not parse: a stored decimal that is not a non-negative number is absent.
- 80-digit decimal rounding and floating-point clocks: arithmetic is exact. The clock does not decrease where a theorem says so; the window bound needs no such assumption.
- Operations table, projections, balance baselines, receipt and timeout columns, counts for reports: they take no part in a decision modelled here.
- The `route_execution.py` executor and `workbook.py`: their journal calls are the arbitrary other operations of the state machine.
- Native-coin requoting in the route search (`prepare_native`): it changes the input, so the zero-gas bound does not apply to it.
- Building price books and candidates from raw routes, and admission of a group: expressions over the parts modelled here, with easy properties.
- The order of members in a reported gas cycle and the wallet copied into it: cycles and members are sets.
- Reading a balances file, progress callbacks and the summary of a recovered plan: a pass takes its answers as given.
- `Quota` scopes: a store holds the rows of one scope, and a provider row from an older database without a counter is not modelled.
- Parsing of response headers and diagnostics of a cooldown: headers are numbers or absent.
- Timestamps of store rows, JSON spelling, and the defensive copies of the buffer: values are immutable.
- Dict keys that are not texts, exact types of numbers, and constructors that refuse or change their fields: a snapshot's records are rebuilt as they were; durations are exact.
- Markers that the encoder did not write with a value of another kind: decoding them is treated as an error.
- The gas oracle calls for the layer-one fee: the fee is a parameter of the plan.
- `reserve_dispatch_time`, heartbeats as threads, and background observation: renewals are separate steps.
- Journals.Journal.ReactivateUnsignedWeth: the proof that the WETH was delivered is a parameter, because it reads receipts outside the journal.
- RouteChoices.ZeroGasBoundIsSafe: stated for quotes whose endpoint values the preparation leaves unchanged, which the code assumes and checks only for the source value.
- Executors.BroadcastDurable: the optional balance baseline of a step is not recorded, because nothing modelled reads it.
- Journals.Journal.Bootstrap: what it checks of the collection entry alone, the live balance and the identity with a prepared checkpoint are parameters; restoring the marker of an already bootstrapped entry changes no table.
- ScanReplay.ReplayIsDirectIff: the direct calls of a record use the id that the same worker was handed; a worker that invents ids is not modelled.
