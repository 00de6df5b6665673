# Order execution layer: a Dafny model

The backend places four-leg option boxes with two brokers and must never be wrong about what it owns,
what it has sent and what it can pay for. This project models the parts that decide this, and proves
what they keep on every input, every run and every interleaving.

| files | component |
|---|---|
| `BrokerOrders`, `ExecutionEvidence`, `OrderMerge`, `MergeOutcome`, `ZeroExposure`, `OrderRuns`, `OrderLabels` | The snapshot merge behind one cached order. Stream events merge atomically. A REST read captures the cached order, waits, projects the response with the captured (possibly old) prior and merges onto whatever is cached by then. |
| `PacerModel`, `PacerSafety`, `PacerOrder`, `PacerTiming`, `PacerChoice`, `BrokerPacing`, `TransportPacer` | The transport pacer: a transition system whose steps are the stretches of code between two yields, the class that implements each step, and what every run keeps. |
| `RateBudget`, `RateBudgetProofs`, `RateDecisions` | The rolling-window order budget: the class, and windows, sharing, pruning, reserve and cooldown over whole runs. |
| `BootOrdinals`, `ReadinessOrder` | Boot ordinals claimed from one database row, and clients that order delayed and duplicated decisions. |
| `QueueModel`, `BoundedQueue` | The bounded queue in its coalescing and its never-drop discipline. |
| `StageFunding` | Stage-by-stage funding of the hedge-first sequence, and the admission built on it. |
| `TickParser` | Binary tick frames: parser, encoder, truncation. |
| `TtlCache` | The TTL cache against a reader of the full history. |

`dafny verify dfyconfig.toml` checks all of it.

## What the code does that its documentation does not say

Each of these is a lemma with a concrete input, or a family of them, beside the exact condition.

- **A completed order can be asked for more.** A working-state row that raises the request of a
  COMPLETE order leaves COMPLETE above a short fill. `OrderMerge.RaisedRequestBreaksCoherence` shows
  it; `OrderMerge.MergeKeepsCoherence` proves that this is the only way a merge breaks label coherence.
- **A partial fill takes back a cancel request.** Working labels otherwise only advance, but a working
  row with a partial quantity turns CANCEL_REQUESTED into PARTIALLY_FILLED
  (`OrderMerge.WorkingLabelStepsBackIff`).
- **A merge forgets trade-book rows.** `verifyZeroBrokerExposure` says that a fill record must not be
  outvoted by an aggregate that reads zero, but a merge that accepts no cumulative quantity discards the
  records before the check sees them. `ZeroExposure.TradeRowsAreForgotten` shows a rejection that is
  refused alone and certified after a merge; `ZeroExposure.MergedCertificateIff` says exactly when a
  merged snapshot is certified, and fill records are not in it. With respect to cumulative quantities the
  certificate is sound on every run (`OrderRuns.CertificateMeansNoFillEver`).
- **A clock that stands still defeats the limiter.** Every pacing sleep that ends at the instant it
  began sends too early (`PacerTiming.FrozenClockBreaksSpacing`); a dispatch keeps the spacing exactly
  when no wait was owed (`PacerTiming.DispatchSpacedIffNothingOwed`).
- **The default recovery reserve is smaller than its comment claims.** The comment at
  `src/box/brokerPacing.ts:1386-1389` says that two slots of the ten-per-second window always cover a
  four-leg unwind. `RateBudgetProofs.FourLegUnwindCanExceedReserve` shows that they need not;
  `RateBudgetProofs.CancelsFitIffHeadroom` says exactly how many cancels fit.
- **A shared ordinal would split the clients.** `ReadinessOrder.PairAgreesIff` says exactly when two
  messages render alike in both orders; `BootOrdinals.OrdinalsAreDistinct` is why it does not happen.
- **A verdict's flag and its record disagree once.** A working row without a quantity, over held
  exposure without a price, is flagged complete and recorded pending
  (`ExecutionEvidence.FlagDisagreesIff`, exactly then). Only the record is carried on.
- **A negative capacity starts unflagged.** `QueueModel.OverloadIsExactIff`.

## Modelling decisions

- Quantities, milliseconds and money are integers (money in paise). Average prices and the reserve
  fraction are reals. A missing, null or non-finite field is `None`. Tick prices are feed units with a scale.
- One atomic stretch of code sees one clock reading. Deadlines are instants on the pacer's clock.
- The dispatch-time admission callback of the pacer is a boolean each dispatch is given; it does not
  re-enter the pacer. Clocks and deadlines do not throw.
- Run-level timing and fairness results assume a monotone clock, and spacing also assumes that every
  wait moves it. The safety results (`PacerSafety`) assume nothing about the clock.
- The ghost history of `TransportPacer` (`past`) records dispatches and settlements for the specification.
- The epoch row is an atomic counter; a query may fail before or after it commits. Instance ids are distinct.
- An order carries the fields the merge decides on. Tags, limit prices, pricing metadata, fill ids and
  reject texts are not among them; the reject family is.
- A local relabelling of an order (unknown, quarantine, cancel requested) is a step of its own: it
  merges an order captured earlier under a new label.
- Cache keys and values are opaque identities.

## Model

| member | source | states |
|---|---|---|
| `OrderMerge.AccumulateFilled` | src/box/brokerOrderMerge.ts:124-130 | The accumulating loop computes the total of the positive fill quantities. |
| `OrderMerge.BrokerIdIsSticky` | src/box/brokerOrderMerge.ts:211-222 | A learned broker id survives any merge, and a different one quarantines the order. |
| `OrderMerge.SettledIsAbsorbing` | src/box/brokerOrderMerge.ts:345-478 | A merge onto a terminal or quarantined order yields a terminal or quarantined order. |
| `OrderMerge.ResolvedStateFits` | src/box/brokerOrderMerge.ts:345-478 | Every resolved state fits the accepted quantity, if and only if it is not a COMPLETE order asked for more by a working row. |
| `OrderMerge.MergeKeepsCoherence` | src/box/brokerOrderMerge.ts:206-280 | Label coherence survives a merge if and only if the observation does not raise a completed request. |
| `OrderMerge.RaisedRequestBreaksCoherence` | src/box/brokerOrderMerge.ts:206-206 | The concrete raise that breaks coherence. |
| `OrderMerge.WorkingLabelStepsBackIff` | src/box/brokerOrderMerge.ts:443-478 | A working label steps back if and only if a current working row below PARTIALLY_FILLED brings a partial quantity to an order with a cancel requested. |
| `OrderMerge.UncertaintyFollowsTheNewer` | src/box/brokerOrderMerge.ts:449-470 | Between two open labels the result is UNKNOWN if and only if the newer of the two is. |
| `OrderMerge.FillsNeverExceedQuantity` | src/box/brokerOrderMerge.ts:542-578 | After a merge for one client id the fill records sum to at most the filled quantity. |
| `OrderMerge.UnpricedExposureIsNotFinal` | src/box/brokerOrderMerge.ts:488-533 | After a merge, exposure without a price is never final accounting. |
| `OrderMerge.ConfirmedExposureIsFinalIffPriced` | src/box/brokerOrderMerge.ts:488-533 | Confirmed exposure in a readable state is final accounting if and only if it is priced. |
| `OrderMerge.ChoosingAgainKeepsTotal` | src/box/brokerOrderMerge.ts:542-578 | Choosing again between the chosen fills and the same candidate keeps the total. |
| `OrderMerge.RepeatIsIdempotent` | src/box/brokerOrderMerge.ts:165-333 | Repeating an observation changes neither quantity, price nor fill total. |
| `MergeOutcome.OlderIffBehind` | src/box/brokerOrderMerge.ts:142-159 | An observation ranks behind if and only if it reported less than is held, or nothing over a fill. |
| `MergeOutcome.CompleteIff` | src/box/brokerOrderMerge.ts:345-442 | The merged order is COMPLETE if and only if a completion meets a non-terminal row, or the whole request executed under a completion or cancellation and neither side is rejected. |
| `MergeOutcome.CancelledIff` | src/box/brokerOrderMerge.ts:345-442 | It is CANCELLED if and only if a side cancelled with part of the request left, neither completed, and no rejection meets a fill. |
| `MergeOutcome.RejectedIff` | src/box/brokerOrderMerge.ts:345-442 | It is REJECTED if and only if a side rejected, nothing filled and neither side executed or cancelled. |
| `MergeOutcome.ReconciliationIff` | src/box/brokerOrderMerge.ts:345-450 | It awaits reconciliation if and only if a rejection meets a fill, a completion is short, or a quarantine meets no terminal label. |
| `MergeOutcome.WorkingOutcome` | src/box/brokerOrderMerge.ts:452-478 | Between working labels the newer leads: a partial fill makes an unstarted label PARTIALLY_FILLED, an older row changes nothing else, a newer one only advances, on the written-out order of labels. |
| `MergeOutcome.UncertainOutcome` | src/box/brokerOrderMerge.ts:452-478 | A newer unreadable row makes the order UNKNOWN, and a newer readable one ends it. |
| `MergeOutcome.TerminalRowSettles` | src/box/brokerOrderMerge.ts:357-442 | A terminal row settles the order, whatever is cached. |
| `MergeOutcome.ConflictIff` | src/box/brokerOrderMerge.ts:178-280 | Which contradiction is named, and that a row for another client order changes nothing. |
| `MergeOutcome.MergedRecord` | src/box/brokerOrderMerge.ts:297-328 | A broker id is learned once, pending is what is left, stamps only move forward and are one of the two. |
| `MergeOutcome.RejectFamilyIff` | src/box/brokerOrderMerge.ts:282-311 | A reject family is kept exactly on a rejection or a conflict, the newer side's first. |
| `MergeOutcome.FillsAreExactIff` | src/box/brokerOrderMerge.ts:542-578 | Fill records sum to the accepted quantity if and only if the detail kept does not lag; which array is kept in each case. |
| `MergeOutcome.EvidenceOutcome` | src/box/brokerOrderMerge.ts:488-533 | When merged evidence confirms, is unproven, is complete, and what it says of the price. |
| `MergeOutcome.MergedFlags` | src/box/brokerOrderMerge.ts:165-204 | The stale and advanced flags, and that a first snapshot is adopted verbatim. |
| `ExecutionEvidence.EvidenceIff` | src/box/brokerExecutionEvidence.ts:142-232 | An absent quantity moves nothing and supports any claim but a final or partial one; exposure is pending exactly while unpriced. |
| `ExecutionEvidence.FlagDisagreesIff` | src/box/brokerExecutionEvidence.ts:183-197 | The one case in which the verdict's flag and its recorded accounting disagree. |
| `ExecutionEvidence.UncertainIsNotFinal` | src/box/brokerExecutionEvidence.ts:247-256 | An uncertain order is never final, a recorded verdict decides, and without one only unpriced exposure is open. |
| `ZeroExposure.CertifiedIff` | src/box/brokerAdapter.ts:420-494 | A snapshot is certified if and only if it has a zero quantity, no positive record, state REJECTED and no missing evidence; which disproof is named. |
| `ZeroExposure.FirstSnapshotRespectsFillRecords` | src/box/brokerAdapter.ts:420-494 | A first snapshot, adopted verbatim, is certified only when it carries no positive fill record. |
| `ZeroExposure.MergedCertificateIgnoresFillRecords` | src/box/brokerAdapter.ts:553-561 | A certificate for a merged snapshot does not depend on the fill records the observation carried. |
| `ZeroExposure.MergedCertificateIff` | src/box/brokerAdapter.ts:420-494 | A merged snapshot is certified if and only if neither side has a fill, the rejection stands uncontradicted, and some side confirms the quantity or neither carries evidence. |
| `ZeroExposure.TradeRowsAreForgotten` | src/box/brokerOrderMerge.ts:549-549 | A rejection with a trade row, refused on its own, is certified after a merge. |
| `OrderRuns.StreamAbsorbs` | src/box/dhanBrokerAdapter.ts:466-538 | A stream event moves quantity to the larger of the two and takes the price that belongs to it. |
| `OrderRuns.ReadAbsorbs` | src/box/dhanBrokerAdapter.ts:1144-1172 | However old the captured prior, a REST response contributes only what it reported. |
| `OrderRuns.NextKeepsFaithful` | src/box/dhanBrokerAdapter.ts:1122-1142 | Every step keeps: quantity is the highest report, price is witnessed, captured priors lie below the cache. |
| `OrderRuns.FilledIsTheHighestReport` | src/box/brokerOrderMerge.ts:142-240 | On every interleaving the cached quantity is the maximum any observation reported. |
| `OrderRuns.PriceBelongsToTheQuantity` | src/box/brokerExecutionEvidence.ts:153-232 | On every interleaving exposure is priced if and only if an observation of exactly that quantity carried a price, and by such a price. |
| `OrderRuns.QuantityIgnoresOrder` | src/box/brokerOrderMerge.ts:142-240 | Two runs that heard the same reports in any order hold the same quantity. |
| `OrderRuns.CertificateMeansNoFillEver` | src/box/brokerAdapter.ts:553-561 | A certificate is issued only if no observation of the whole run reported a positive quantity. |
| `OrderRuns.AccountingStaysHonest` | src/box/brokerExecutionEvidence.ts:247-256 | On every run fill records stay within the quantity and unpriced exposure is never closed. |
| `OrderRuns.ClosedExactlyWhenPriced` | src/box/brokerExecutionEvidence.ts:153-232 | The same on every run, together with the quantity and price invariant. |
| `OrderRuns.SettledForever` | src/box/brokerOrderMerge.ts:345-478 | The settled states are absorbing over every run. |
| `OrderRuns.BrokerIdForever` | src/box/brokerOrderMerge.ts:211-222 | A broker id once learned never changes on any run. |
| `OrderRuns.LabelsStayCoherent` | src/box/brokerOrderMerge.ts:345-478 | With an unchanged positive request and a coherent first snapshot the label never contradicts the quantity on any run. |
| `OrderLabels.LabelMeans` | src/box/dhanBrokerAdapter.ts:211-242 | What every status label of both brokers claims, given the quantity and the request. |
| `OrderLabels.ProjectedLabel` | src/box/dhanBrokerAdapter.ts:1202-1243 | A REST row yields each state if and only if its label and the highest proven quantity say so; without a quantity a final or partial claim is quarantined. |
| `OrderLabels.StreamedLabel` | src/box/kiteBrokerAdapter.ts:1380-1421 | The same for a stream frame, which keeps the held label when it proves nothing. |
| `OrderLabels.ProjectedRecord` | src/box/dhanBrokerAdapter.ts:1245-1297 | What else a projected row carries: fills, price, stamps, reject family, evidence. |
| `OrderLabels.StreamedRecord` | src/box/dhanBrokerAdapter.ts:492-521 | What else a stream candidate carries. |
| `OrderLabels.RowTeachesId` | src/box/brokerOrderMerge.ts:211-222 | The broker id is learned from the first row that carries one. |
| `OrderLabels.FrameIgnoredIff` | src/box/dhanBrokerAdapter.ts:523-529 | A frame with a quantity is ignored if and only if it went back and changed neither label nor quantity. |
| `OrderLabels.EndedIsSettled` | src/box/brokerOrderMerge.ts:423-442 | With an unchanged request, once a row that ends the order was delivered the cache is settled on every continuation. |
| `OrderLabels.CompletionIsFinal` | src/box/brokerOrderMerge.ts:345-442 | Once such a row brought the whole request, the cache is COMPLETE or awaits reconciliation, whatever arrives later. |
| `PacerModel.SanitisedLimits` | src/box/brokerPacing.ts:578-613 | Valid settings are taken as given, others fall back to 4, 1 and 1, and the result always leaves a slot for non-recovery work and one for reads. |
| `PacerSafety.NextKeepsSafe` | src/box/brokerPacing.ts:879-977 | Every step keeps the identity books, the counters, the caps and the wake-up invariant. |
| `PacerSafety.RunKeepsSafe` | src/box/brokerPacing.ts:844-871 | So does every run. |
| `PacerSafety.WithdrawnIsNeverSent` | src/box/brokerPacing.ts:797-814 | Once `abandon` returned true the entry is never sent on any continuation, even if the loop slept for it, and is settled once. |
| `PacerSafety.RefusedWithdrawal` | src/box/brokerPacing.ts:800-800 | A refused withdrawal means the entry was sent once or settled unsent once. |
| `PacerSafety.EachEntryOnce` | src/box/brokerPacing.ts:1137-1210 | On every run each entry is invoked at most once and settled at most once, and created = queued + dispatched + abandoned + refused. |
| `PacerSafety.CapsOnEveryRun` | src/box/brokerPacing.ts:1092-1103 | On every run all three caps hold, and without recovery in flight a recovery call is admissible when the reserve is positive. |
| `PacerSafety.IdleMeansNothingAdmissible` | src/box/brokerPacing.ts:819-835 | No lost wake-up: an idle scheduler leaves no admissible entry. |
| `PacerOrder.PickIsForemost` | src/box/brokerPacing.ts:1024-1083 | The picked entry is the earliest of its tier, promoted by age or not. |
| `PacerOrder.TierIsFirstInFirstOut` | src/box/brokerPacing.ts:1024-1083 | On every run, within a tier, dispatch order is submission order. |
| `PacerOrder.StarvedIsNotOvertaken` | src/box/brokerPacing.ts:1059-1075 | A pass that sends while an aged admissible entry waits sends it or an earlier one. |
| `PacerOrder.StarvationIsBounded` | src/box/brokerPacing.ts:1059-1075 | While an aged entry waits, at most the entries submitted before it are sent. |
| `PacerChoice.AdmissibleIff` | src/box/brokerPacing.ts:1092-1103 | Capacity, counted on the calls in flight: a free slot, a read slot for a read, and the reserve left alone. |
| `PacerChoice.PickIff` | src/box/brokerPacing.ts:1024-1083 | The choice is exactly the earliest entry queued two seconds or more, and without one the most urgent (recovery, placement, read), earliest of its tier. |
| `PacerChoice.NoPriorityInversion` | src/box/brokerPacing.ts:1054-1075 | A pass never sends a call past a more urgent waiting one, unless it sends a starved call; what it sends was queued and is due. |
| `PacerChoice.UrgencyOnEveryRun` | src/box/brokerPacing.ts:1054-1075 | The same in every reachable state. |
| `PacerChoice.PassSends` | src/box/brokerPacing.ts:879-977 | With both gaps passed and a due admissible call waiting, a pass sends one call at that instant. |
| `PacerChoice.BackwardClockSendsNothing` | src/box/brokerPacing.ts:250-256 | A clock that stepped behind the last call sends nothing. |
| `PacerChoice.NothingSentLate` | src/box/brokerPacing.ts:971-976 | No call is sent at or after its deadline, on any run and under any clock. |
| `PacerChoice.SubmitOutcome` | src/box/brokerPacing.ts:766-783 | A spent deadline is refused at the door, anything else is queued last as given. |
| `PacerChoice.AbandonTakesOne` | src/box/brokerPacing.ts:797-814 | A withdrawal takes that entry and no other and sends nothing. |
| `PacerChoice.CountersOnEveryRun` | src/box/brokerPacing.ts:1166-1174 | On every run the call counters match the log class by class. |
| `PacerChoice.RefusalCountedIff` | src/box/brokerPacing.ts:1147-1156 | A dispatch-time refusal is counted if and only if a due entry leaves and its check said no. |
| `PacerTiming.FarEnoughIffNothingOwed` | src/box/brokerPacing.ts:241-258 | The wait computed from the watermarks is zero if and only if both spacings would hold. |
| `PacerTiming.DispatchSpacedIffNothingOwed` | src/box/brokerPacing.ts:887-909 | A dispatch keeps both spacings if and only if no wait was owed. |
| `PacerTiming.FrozenClockBreaksSpacing` | src/box/brokerPacing.ts:966-976 | Every sleep that ends at the instant it began breaks the spacing when it sends. |
| `PacerTiming.DispatchesAreSpaced` | src/box/brokerPacing.ts:879-977 | On every well-timed run consecutive calls are the order interval apart and general calls the general interval apart. |
| `PacerTiming.WindowsAreBounded` | src/box/brokerPacing.ts:879-977 | Any half-open window of length L holds at most ceil(L / interval) calls, for all calls and for general calls. |
| `BrokerPacing.Resolve` | src/box/brokerPacing.ts:152-199 | An override at or above the floor is taken, a positive one below it is raised to it, none gives the default; the general interval is taken, clipped at zero or 250 by default. |
| `BrokerPacing.AtMostTenPerSecond` | src/box/brokerPacing.ts:152-229 | Whatever is configured and however often the broker is switched, no second sees more than ten calls. |
| `TransportPacing.TransportPacer.constructor` | src/box/brokerPacing.ts:578-613 | A new pacer is the initial state with sanitised limits. |
| `TransportPacing.TransportPacer.Switch` | src/box/brokerPacing.ts:631-633 | Repointing changes the pacing alone. |
| `TransportPacing.TransportPacer.Submit` | src/box/brokerPacing.ts:701-784 | Submission is the submit step, with pre-admission refusal of a spent deadline. |
| `TransportPacing.TransportPacer.Abandon` | src/box/brokerPacing.ts:797-814 | Withdrawal is the abandon step and returns true if and only if the entry was queued. |
| `TransportPacing.TransportPacer.SplitExpired` | src/box/brokerPacing.ts:1105-1110 | Splicing entry by entry leaves exactly the live ones, in order, and removes exactly the overdue. |
| `TransportPacing.TransportPacer.RefuseExpired` | src/box/brokerPacing.ts:1119-1135 | One overdue entry leaves the queue, settled and unsent. |
| `TransportPacing.TransportPacer.PickNext` | src/box/brokerPacing.ts:1024-1083 | The single scan computes the choice specified tier by tier. |
| `TransportPacing.TransportPacer.Dispatch` | src/box/brokerPacing.ts:1137-1181 | Dispatch is the sending half of a step: refused unsent, or stamped, counted and in flight. |
| `TransportPacing.TransportPacer.DrainStep` | src/box/brokerPacing.ts:879-926 | One scheduling decision is the drain step, up to its sleep. |
| `TransportPacing.TransportPacer.WakeUp` | src/box/brokerPacing.ts:926-977 | What follows the sleep is the wake step, with the withdrawal re-check. |
| `TransportPacing.TransportPacer.FinishDraining` | src/box/brokerPacing.ts:819-835 | The loop's exit is the closing step and restarts for a late arrival. |
| `TransportPacing.TransportPacer.Release` | src/box/brokerPacing.ts:1185-1190 | A settled call frees its slot and restarts scheduling. |
| `RateBudget.ResolvePolicy` | src/box/brokerPacing.ts:1394-1407 | A valid worker count and a fraction in [0, 0.5] are taken as given, anything else gives one worker and 0.2. |
| `RateBudget.RateBudgetLedger.HorizonMs` | src/box/brokerPacing.ts:1510-1515 | The longest finite span, or a day. |
| `RateBudget.RateBudgetLedger.PruneHistory` | src/box/brokerPacing.ts:1517-1522 | Pruning shifts expired times off both histories. |
| `RateBudget.RateBudgetLedger.CountTimes` | src/box/brokerPacing.ts:1525-1531 | The loop counts the times inside the window. |
| `RateBudget.RateBudgetLedger.Oldest` | src/box/brokerPacing.ts:1591-1598 | The loop finds the oldest time inside the window. |
| `RateBudget.RateBudgetLedger.Check` | src/box/brokerPacing.ts:1552-1589 | The decision, and the pruning it does unless a cooldown or a data read answers first. |
| `RateBudget.RateBudgetLedger.FirstFull` | src/box/brokerPacing.ts:1566-1588 | The walk over the windows finds the first full one and its retry time. |
| `RateBudget.RateBudgetLedger.Record` | src/box/brokerPacing.ts:1607-1612 | An order request is recorded under its endpoint class and the history pruned. |
| `RateBudget.RateBudgetLedger.Penalize` | src/box/brokerPacing.ts:1619-1629 | The cooldown ends no earlier than before and no earlier than the hint, or one second window without a hint, from now. |
| `RateBudgetProofs.BindingIsAny` | src/box/brokerPacing.ts:1566-1589 | A check of the windows allows if and only if none is full, and a refusal names a full window. |
| `RateBudgetProofs.ReserveFits` | src/box/brokerPacing.ts:1449-1459 | The reserve lies inside the share, and placement ceiling plus reserve is the share. |
| `RateBudgetProofs.RetryIsALowerBound` | src/box/brokerPacing.ts:1582-1583 | Any check of the same kind before a refusal's retry time is refused too, whatever was recorded since. |
| `RateBudgetProofs.ForgettingIsInvisible` | src/box/brokerPacing.ts:1509-1531 | After any run the pruned history answers every check as the full history would. |
| `RateBudgetProofs.EveryWindowIsBounded` | src/box/brokerPacing.ts:1552-1612 | On every run every sliding window of every published span holds at most this worker's share. |
| `RateBudgetProofs.AccountLimitHolds` | src/box/brokerPacing.ts:1429-1461 | All declared workers together stay within the account limit in every window. |
| `RateBudgetProofs.ReserveSurvivesPlacement` | src/box/brokerPacing.ts:1429-1461 | Right after an admitted placement as many recovery mutations as the smallest reserve are all admitted, whenever they come. |
| `RateBudgetProofs.CancelsFitIffHeadroom` | src/box/brokerPacing.ts:1552-1589 | n cancels at one instant all pass if and only if every finite window has room for n. |
| `RateBudgetProofs.FourLegUnwindCanExceedReserve` | src/box/brokerPacing.ts:1384-1391 | The default reserve is two slots of the tightest window, and four cancels need not fit. |
| `RateDecisions.AllowedIff` | src/box/brokerPacing.ts:1552-1589 | In plain counts: outside a cooldown a cancel, a modify or a protective placement passes if and only if every finite window holds fewer requests than floor(limit / workers); another placement if and only if one more leaves the reserved fraction of that share. |
| `RateDecisions.RefusalNamesFirst` | src/box/brokerPacing.ts:1566-1584 | A refusal names the first window without room, from second to day. |
| `RateDecisions.RecordedByEndpoint` | src/box/brokerPacing.ts:1607-1612 | Cancels and modifies are remembered apart from placements; data reads not at all. |
| `RateDecisions.CheckAnswersFromHistory` | src/box/brokerPacing.ts:1552-1589 | After any run the object's decision is that of the plain counts over everything ever sent. |
| `RateDecisions.EverySendIsRemembered` | src/box/brokerPacing.ts:1607-1612 | Every request the object let out is remembered once with its time. |
| `RateDecisions.SendsStayWithinShare` | src/box/brokerPacing.ts:1552-1612 | No window of a published span sees more requests leave than floor(limit / workers). |
| `RateDecisions.RetryIsWhenRoomAppears` | src/box/brokerPacing.ts:1591-1598 | The retry time is exactly the instant from which the window holds fewer requests. |
| `RateDecisions.PruningForgets` | src/box/brokerPacing.ts:1510-1522 | Pruning leaves only requests younger than the longest finite window, or a day without one. |
| `BootOrdinals.BackendInstance.ResolveBootOrdinal` | src/box/backendInstance.ts:185-193 | A call issues a query if and only if none is settled and none is in flight. |
| `BootOrdinals.BackendInstance.ClaimSettled` | src/box/backendInstance.ts:204-258 | A row above zero is adopted and returned; no row or an unusable one is final without an ordinal; a failure leaves the claim as it was. |
| `BootOrdinals.OrdinalsAreDistinct` | src/box/backendInstance.ts:204-258 | Under any interleaving of retries and failures no two processes hold one ordinal. |
| `BootOrdinals.OrdinalIsPermanent` | src/box/backendInstance.ts:185-193 | A process keeps its ordinal on every continuation. |
| `BootOrdinals.LaterBootIsNewer` | src/box/backendInstance.ts:204-258 | A claim that commits after another process holds its ordinal gets a larger one. |
| `BootOrdinals.CommittedClaimIsHeld` | src/box/backendInstance.ts:204-245 | A claim that committed and was not lost gives the process the value of its own update for good, and its decisions can be ordered. |
| `BootOrdinals.FailureIsRetried` | src/box/backendInstance.ts:246-257 | After a failed attempt the next call issues a new query. |
| `BootOrdinals.EveryClientShowsNewest` | src/box/backendInstance.ts:315-396 | On every run of claims, decisions and deliveries each client shows the newest decision it received, and clients that received the same show the same. |
| `ReadinessOrder.ClientShowsNewest` | src/box/backendInstance.ts:315-396 | Any order, delay or duplication renders the lexicographic maximum of (ordinal, generation). |
| `ReadinessOrder.ClientsAgree` | src/box/backendInstance.ts:315-396 | Clients that received the same set of messages agree. |
| `ReadinessOrder.PairAgreesIff` | src/box/backendInstance.ts:315-396 | Exactly when two messages render alike in both orders. |
| `ReadinessOrder.VerdictIff` | src/box/backendInstance.ts:315-396 | Which of the four verdicts a message gets. |
| `QueueModel.EnqueueKeepsSound` | src/box/boundedQueue.ts:143-169 | Enqueue keeps index agreement, the size bound, the counter equation and the overload equivalence. |
| `QueueModel.DequeueKeepsSound` | src/box/boundedQueue.ts:175-185 | So does dequeue. |
| `QueueModel.NeverDropIsFifo` | src/box/boundedQueue.ts:166-169 | On every run never-drop delivers exactly what was put, in order, with nothing dropped or merged. |
| `QueueModel.CoalesceDeliversLatest` | src/box/boundedQueue.ts:143-164 | On every run coalescing stays within a positive capacity, its index agrees with the list, and every queued value is the latest for its key. |
| `QueueModel.EveryItemIsAccountedFor` | src/box/boundedQueue.ts:143-257 | On every run enqueued = processed + dropped + coalesced + depth, and overload is exactly pressure or an unseen drop. |
| `QueueModel.OverloadIsExactIff` | src/box/boundedQueue.ts:237-257 | The overload equivalence holds if and only if the capacity is not negative or an operation has looked. |
| `QueueModel.PutBelowCapacity` | src/box/boundedQueue.ts:156-164 | Below capacity a new key goes last and nothing moves, leaves or is counted as dropped. |
| `QueueModel.PutAtCapacity` | src/box/boundedQueue.ts:156-164 | At capacity exactly the head makes room, counted, flagged and latched. |
| `QueueModel.PutAgain` | src/box/boundedQueue.ts:147-155 | A repeated key keeps its slot and its enqueue time. |
| `QueueModel.PutNeverDrops` | src/box/boundedQueue.ts:166-169 | Never-drop appends whatever the depth. |
| `QueueModel.TakeOutcome` | src/box/boundedQueue.ts:175-185 | A take hands out the head and observes a latched drop; overload is then exactly pressure. |
| `QueueModel.DrainOutcome` | src/box/boundedQueue.ts:188-196 | A drain empties the queue and observes a latched drop. |
| `QueueModel.OverloadEventIffRaised` | src/box/boundedQueue.ts:237-261 | An overload event is counted if and only if the flag rises. |
| `QueueModel.PutIsQueuedOrDelivered` | src/box/boundedQueue.ts:143-185 | On every run a key put is still queued or was delivered since, unless a later new key met a full queue. |
| `BoundedQueues.BoundedQueue.Reassess` | src/box/boundedQueue.ts:237-249 | The overload latch moves as specified. |
| `BoundedQueues.BoundedQueue.Reindex` | src/box/boundedQueue.ts:230-235 | The rebuilt index is the one of the list. |
| `BoundedQueues.BoundedQueue.DropOldest` | src/box/boundedQueue.ts:219-228 | The head leaves, counted, and overload is forced on. |
| `BoundedQueues.BoundedQueue.Enqueue` | src/box/boundedQueue.ts:143-169 | Replace, evict and append, or append: the specified step, keeping the invariant. |
| `BoundedQueues.BoundedQueue.Dequeue` | src/box/boundedQueue.ts:175-185 | The head is returned and the specified state follows. |
| `BoundedQueues.BoundedQueue.DrainAll` | src/box/boundedQueue.ts:188-196 | All values are returned in order and the queue is empty. |
| `StageFunding.IsHedgeFirstSequence` | src/box/entrySubmissionOrder.ts:100-107 | The scan answers true if and only if no BUY comes after a SELL. |
| `StageFunding.EntrySubmissionOrder` | src/box/entrySubmissionOrder.ts:54-79 | The two sequences written out: role, side and rank of all four legs, hedge-first, canonical order inside each group. |
| `StageFunding.SortedByRank` | src/box/boxCapital.ts:606-606 | The transport order is sorted by rank. |
| `StageFunding.SortedIsPermutation` | src/box/boxCapital.ts:606-606 | It has exactly the given slots. |
| `StageFunding.SortedIsStable` | src/box/boxCapital.ts:606-606 | Slots of equal rank keep their order. |
| `StageFunding.PricedIff` | src/box/boxCapital.ts:605-623 | A leg is priced if and only if the last request for its role has a positive quantity and limit. |
| `StageFunding.PremiumAdds` | src/box/boxCapital.ts:620-626 | A BUY adds limit times quantity of its last request, anything else nothing. |
| `StageFunding.BuildStage` | src/box/boxCapital.ts:617-672 | One stage: the premium paid so far, the requirement, and which gap if and only if there is none. |
| `StageFunding.BuildFundingStages` | src/box/boxCapital.ts:596-695 | One stage per leg in transport order, a verdict equal to the independent oracle, and no gap if and only if hedge-first and all known. |
| `StageFunding.WorstStage` | src/box/boxCapital.ts:920-923 | The loop computes the greatest known requirement. |
| `StageFunding.Bind` | src/box/boxCapital.ts:1003-1016 | The binding figure exists if and only if every component does, and is their sum. |
| `StageFunding.BuildFundingPicture` | src/box/boxCapital.ts:837-1058 | The binding requirement exists if and only if the sequence has no gap, the margin is usable and every component is known, and is their sum. |
| `StageFunding.GrossEntryOrderNotional` | src/box/boxCapital.ts:106-151 | The gross total of the usable legs, complete if and only if every leg is usable and the count is right. |
| `StageFunding.GrossAdds` | src/box/boxCapital.ts:114-129 | A leg with a positive quantity and limit adds their product, any other nothing. |
| `StageFunding.WorstIsGreatest` | src/box/boxCapital.ts:920-923 | The worst stage bounds every stage and is one of them. |
| `StageFunding.AdmittedIff` | src/box/boxCapital.ts:1171-1324 | Admission passes if and only if every enabled control is satisfied; stage funding includes the funds comparison. |
| `StageFunding.ReasonsIff` | src/box/boxCapital.ts:1186-1324 | Each refusal reason is given if and only if its control fails in that way. |
| `StageFunding.NeedIs` | src/box/boxCapital.ts:1281-1306 | The binding stage requirement comes first, the broker margin second, nothing third. |
| `StageFunding.WorstCoversPrefixes` | src/box/boxCapital.ts:596-695 | The worst stage is the greatest of the final margin, the initial margin when there are several legs, and the whole BUY premium, and covers every prefix. |
| `StageFunding.AdmitEntry` | src/box/boxCapital.ts:1171-1345 | Under stage funding an entry is admitted if and only if the sequence is hedge-first, every stage is known, funds cover worst stage + charges + reserve (+ encumbrance when not netted), and the other controls pass. |
| `StageFunding.StagesKnownIff` | src/box/boxCapital.ts:639-672 | Every stage is known if and only if every leg is priced and the margins it needs are credible. |
| `TickParser.ReadPacket` | src/ticker.ts:287-339 | One packet is decoded from inside its own bytes. |
| `TickParser.ParseBinary` | src/ticker.ts:256-346 | Total on any bytes, every read inside the buffer, and equal to splitting and decoding. |
| `TickParser.TruncationIsPrefix` | src/ticker.ts:266-286 | Parsing any truncation yields a prefix of the ticks. |
| `TickParser.PacketRoundTrip` | src/ticker.ts:287-339 | Decoding an encoded packet of any kind and any length yields what it says, with the segment's price scale and the first quoted rows as bid and ask. |
| `TickParser.FrameRoundTrip` | src/ticker.ts:256-346 | Parsing an encoded frame yields exactly its packets' meanings, ignores what follows the declared count and stops at the first length that cannot be trusted. |
| `TtlCache.BoundedTtlCache.Lookup` | src/boundedCache.ts:43-44 | The entry under the key, if any. |
| `TtlCache.BoundedTtlCache.Get` | src/boundedCache.ts:42-50 | The fresh value or nothing, deleting an expired entry it finds. |
| `TtlCache.BoundedTtlCache.Evict` | src/boundedCache.ts:67-78 | The expired go first, then the oldest beyond the cap. |
| `TtlCache.BoundedTtlCache.Set` | src/boundedCache.ts:52-59 | The key moves to the end of the insertion order before eviction. |
| `TtlCache.SetKeepsMirror` | src/boundedCache.ts:52-78 | A set keeps the cache a mirror of the young part of the newest distinct keys. |
| `TtlCache.GetKeepsMirror` | src/boundedCache.ts:42-50 | So does a get. |
| `TtlCache.CacheAnswersFromHistory` | src/boundedCache.ts:41-78 | After any run a get hits if and only if the key was last set less than the TTL ago with fewer than the cap of other keys since, and returns that value. |
| `TtlCache.CacheIsBounded` | src/boundedCache.ts:67-78 | The cache never holds more than the cap. |
| `TtlCache.NothingExpiredAfterSet` | src/boundedCache.ts:67-72 | A set leaves nothing expired behind. |

## Left out

- The readers of raw broker fields (`readNonNegativeInteger`, `readPositivePrice`): payload fields arrive already read, absent or present.
- Placement, cancel and timeout flows of the two adapters beyond the merge, the projection and the relabelling they end in.
- Paper broker positions, the historical gate, the charge reconciler pool, the calibration buffer, the market calendar, degraded recovery and CSV splitting: they add members easier than these.
- `StagePipeline.drainStage`: the queue it drains is modelled, its asynchronous consumer is not.
- Scheduler fault containment for throwing clocks and deadlines, and the pacer's statistics.
- The length of a pacing sleep slice: a wake-up may come at any instant.
- Ageing of funds and margin evidence: a figure arrives with its provenance and its usability.
- `worstCaseEntryCost`, the premium credit column and the hedge premium figure of the funding picture: admission does not read them.
- Explicit `delete` and `clear` of the cache.
- HTTP, sessions, sockets, database access and log text.
- TransportPacing.TransportPacer.Release: the operation's own result is not modelled, only that it settled.
- PacerOrder.TierIsFirstInFirstOut: needs a monotone clock, because a clock that steps back can age a later entry before an earlier one.
- BootOrdinals.BackendInstance.ClaimSettled: the query itself is a step of the surrounding system, not of the method.
