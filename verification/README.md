# Verified model of the Hairlux back end

This project models the state machines, ledgers and interval arithmetic of the Hairlux services
in Dafny and proves what they keep. Database tables are sequences and maps, a single write or a
`$transaction` is one atomic step, money is a number of kobo or a real, an instant is a number of
milliseconds and a date a number of days since 1970-01-01. West Africa Time is UTC+1 all year.

Each service has a value model (`...Spec` functions over its tables), a class whose methods are
proved to do what the value model says, and, where the property is about more than one call, a run
module that folds arbitrary sequences of calls, with stops, retries or interleavings where the
service can meet them.

| modules | service |
|---|---|
| `Approval`, `ApprovalRuns`, `ApprovalRouting` | the staged approval engine, its log, its queues and whom it waits for |
| `Stock`, `StockRuns`, `StockEffects`, `StockAlerts` | stock buckets, movement log, requests through to their end, low-stock alerts |
| `ExecutionRuns`, `ExecutionExample`, `TransferRuns` | approvals that execute stock, with stops and retries |
| `Campaign`, `CampaignRuns`, `CampaignCompletion`, `CampaignSends` | the polled campaign sender; when a transition is closed, with how much of its sequence, and why each row is there |
| `AuditTrail` | the bounded merge of three logs |
| `WorkCalendar`, `AttendanceSummary`, `SalaryCalculator` | calendars, period summaries, period pay |
| `Attendance`, `AttendanceRuns`, `AttendanceCharges`, `AttendanceOutcomes` | clocking, leave, the nightly job; what a run leaves on a day, and what each operation answers |
| `PayrollCorrections` | correction chains |
| `InfluencerReward` | rewards under interleaving |
| `Recruitment`, `RecruitmentHistory` | the application pipeline |
| `WatTime`, `BranchFinance` | WAT days and the daily summary |
| `Base` | shared vocabulary |

`dafny verify dfyconfig.toml` checks the whole project.

## Where the code differs from its comments

The model follows the code. Each point names the exact condition and, where it has one, the lemma
that reaches the bad case from empty tables.

- A transition is marked processed after any attempted sequence step, so a sequence "completes" only
  while something else keeps the transition open: exactly when `CampaignCompletion.SequenceCompletesIff`
  says, and not in `CampaignCompletion.ProcessedWithAStepLeft`. A cooldown skip of step 1 is called
  terminal, yet step 2 can follow it: exactly when `CampaignCompletion.CooldownSkipEndsSequenceIff`
  says, as in `CampaignCompletion.CooldownSkipDoesNotStopTheSequence`.
- Stock is executed by the first successful approve call even if stages remain
  (`ExecutionRuns.ExecutesBeforeApprovalIff`, `ExecutionExample.StockMovesBeforeTheLastStage`), and a
  stop between two writes, or stock gone by then, can repeat or strand it
  (`ExecutionRuns.OnceIffOneApprovalLeft`, `ExecutionExample.StockMovesTwice`,
  `ExecutionRuns.ApprovalSucceedsOrSticks`, `TransferRuns.TransferSucceedsOrSticks`,
  `ExecutionExample.TransferStrandedReachable`).
- Asking for more information on a request takes it out of every queue for good, later stages
  included: `ApprovalRuns.InQueueIffNotAsked`, `ApprovalRuns.UnseenStageReachable`.
- NOT_SELECTED is terminal only in the status update: `Recruitment.NotSelectedCanBeLeftIff`,
  `Recruitment.NotSelectedLeftReachable`. One open application per person holds for submissions only:
  `Recruitment.OneOpenLostIff`, `Recruitment.TwoOpenApplicationsReachable`.
- A correction removed from a reopened period hides what it corrected: `PayrollCorrections.RemoveIsSafeIff`,
  `PayrollCorrections.RemovedCorrectionReachable`.
- The nightly job and leave approval leave earlier charges in place, and rounding leaves the first
  half minute of lateness free: `AttendanceCharges.ChargedTwiceIff`, `AttendanceCharges.ChargedTwiceReachable`,
  `AttendanceCharges.LeaveDayChargedIff`, `AttendanceCharges.ChargedLeaveReachable`,
  `AttendanceRuns.LateButFreeIff`, `AttendanceCharges.LateAndFreeReachable`.
- Approved leave days are not clipped to the period (`AttendanceSummary.LeaveDaysAreRightIff`,
  `AttendanceCharges.LeaveAcrossMonthsReachable`), and a leave day whose record the approval created counts as
  worked (`AttendanceCharges.LeaveDayView`, `AttendanceCharges.WorkedLeaveReachable`).
- The audit trail pages correctly up to page * limit = 1000 and, for full enough tables, not beyond:
  `AuditTrail.RightForAllTablesIff`.
- Overwriting a calendar with the company hours keeps an old alternation:
  `WorkCalendar.OverwriteRestoresDefaultIff`, `WorkCalendar.AlternationSurvivesOverwrite`.

## Model

| member | source | states |
|---|---|---|
| `Approval.ApprovalService.Create` | src/approval/approval.service.ts:89-124 | a new request starts PENDING, at its type's first stage if a chain is configured and with one approver otherwise; a SUBMITTED action is logged |
| `Approval.ApprovalService.Approve` | src/approval/approval.service.ts:183-216 | guards in order (not found, not open, not this actor's), then one stage forward, or APPROVED after the last; one log entry; on an error nothing changes |
| `Approval.ApprovalService.Reject` | src/approval/approval.service.ts:218-236 | an open request becomes REJECTED with one log entry; on an error nothing changes |
| `Approval.ApprovalService.Reassign` | src/approval/approval.service.ts:239-268 | only the named approver changes; the stage and status stay |
| `Approval.ApprovalService.RequestMoreInfo` | src/approval/approval.service.ts:270-288 | the status becomes MORE_INFO_REQUESTED; stage and approver stay |
| `Approval.ApprovalService.SetChainStages` | src/approval/approval.service.ts:345-358 | the type's old stages are replaced by stages 1..n in the order given |
| `ApprovalRuns.RunAdvances` | src/approval/approval.service.ts:183-288 | over any run, chain edits and role deletions included: the stage order only climbs, APPROVED and REJECTED are absorbing, and each approval logged climbs by at least one order, so approvals never exceed the climb, and nothing else moves the stage |
| `ApprovalRuns.ChainInvariantOverRuns` | src/approval/approval.service.ts:89-216 | with the type's chain left alone, every request of it stands at the stage its number of approvals gives |
| `ApprovalRuns.StageByStage` | src/approval/approval.service.ts:89-216 | with n stages kept, a request with k approvals waits at stage k+1 for that stage's role and is APPROVED exactly when k = n; reassigning and asking for information do not move it |
| `ApprovalRuns.RankOfSetStages` | src/approval/approval.service.ts:345-358 | the stages written by setChainStages are numbered 1..n without gaps |
| `ApprovalRuns.QueueIsWhatIsActionable` | src/approval/approval.service.ts:136-168 | a staff member's queue holds exactly the PENDING requests the actionability check lets them act on |
| `ApprovalRuns.QueueOldestFirst` | src/approval/approval.service.ts:136-168 | the queue lists them oldest first, once each |
| `ApprovalRuns.MoreInfoNeverPendingAgain` | src/approval/approval.service.ts:270-308 | once more information was asked for, no later stage puts the request back to PENDING, so it is in no queue again |
| `ApprovalRuns.PendingIffNotAsked` | src/approval/approval.service.ts:270-308 | in every run from empty tables, whatever the chains: an open request is PENDING if and only if no request for more information on it was logged |
| `ApprovalRuns.InQueueIffNotAsked` | src/approval/approval.service.ts:136-168 | in every run: a request somebody may act on is in their queue if and only if nobody asked for more information |
| `ApprovalRuns.UnseenStageReachable` | src/approval/approval.service.ts:136-308 | from empty tables: stage 1 asks and then approves; the holder of stage 2's role may act, and their queue is empty |
| `ApprovalRouting.NewRequestWaitsFor` | src/approval/approval.service.ts:74-124 | a new request can be acted on by exactly the holders of the lowest stage's role, or without a chain by the approver asked for, else the branch's manager, else an administrator |
| `ApprovalRouting.ReassignedWaitsFor` | src/approval/approval.service.ts:239-268 | after a reassignment exactly the new approver and the holders of the stage's role may act; unknown staff are refused; stage and status stay |
| `ApprovalRouting.CallsAreLogged` | src/approval/approval.service.ts:89-288 | each call that goes through logs one action by its caller, with both approvers of a reassignment; a refused call changes nothing |
| `ApprovalRouting.DecidedIsFinal` | src/approval/approval.service.ts:183-308 | after a rejection or the last approval nobody may act, elevated or not; any earlier approval moves to the next stage's order and role and keeps the status |
| `ApprovalRouting.AskingKeepsTheApprovers` | src/approval/approval.service.ts:270-308 | asking for information leaves exactly the same people able to act |
| `ApprovalRouting.RoleIsGone` | prisma/schema.prisma:3054-3110 | a deleted role leaves every chain and every waiting request, and nothing else changes |
| `Stock.InventoryService.CreateItem` | src/inventory/inventory.service.ts:76-108 | refuses a duplicate name in the branch and category, an unpriced sales item and a missing product master record; otherwise the initial stock goes to the store bucket |
| `Stock.InventoryService.ReceiveGoods` | src/inventory/inventory.service.ts:286-309 | the store bucket grows by the quantity and one RECEIVED movement says so |
| `Stock.InventoryService.TransferBetweenStockTypes` | src/inventory/inventory.service.ts:322-376 | the quantity leaves one bucket for another, with two movements; refused for equal buckets, non-positive quantity or too little stock |
| `Stock.InventoryService.DeductForSale` | src/inventory/inventory.service.ts:515-544 | the bucket shrinks by the quantity with one SOLD movement; refused when short |
| `Stock.InventoryService.RequestStockAdjustment` | src/inventory/inventory.service.ts:418-444 | an approval and a PENDING request are made; an elevated caller's is approved and applied at once |
| `Stock.InventoryService.ApproveStockAdjustment` | src/inventory/inventory.service.ts:446-463 | one approve call on the approval, then the movement, then the request's status; each error keeps what was written before it |
| `Stock.InventoryService.RejectStockAdjustment` | src/inventory/inventory.service.ts:465-478 | approval rejected, then the request; no stock moves |
| `Stock.InventoryService.RequestTransfer` | src/inventory/inventory.service.ts:717-746 | an approval and a PENDING transfer, if the source has the stock and another branch is named |
| `Stock.InventoryService.ApproveTransfer` | src/inventory/inventory.service.ts:748-842 | one approve call (none for legacy rows), stock checked again, then the whole transfer |
| `Stock.InventoryService.Execute` | src/inventory/inventory.service.ts:766-837 | source debited, destination item found or created and credited, both sides logged, transfer COMPLETED |
| `Stock.InventoryService.RejectTransfer` | src/inventory/inventory.service.ts:844-859 | approval rejected if there is one, then the transfer; no stock moves |
| `Stock.FindItem` | src/inventory/inventory.service.ts:768-775 | the item found has this branch, name and category, and finding none means that no item has them |
| `StockEffects.DirectCallsMove` | src/inventory/inventory.service.ts:76-544 | creating, receiving, reallocating and deducting change exactly the buckets their arguments name, by the amounts given, when admitted and not at all otherwise, under movements of their own kind |
| `StockEffects.AdjustmentRequested` | src/inventory/inventory.service.ts:418-444 | a request leaves stock alone and opens one PENDING row and one approval of its type, branch and submitter, which the branch's manager, else an administrator, may decide on |
| `StockEffects.AdjustmentCarriedOut` | src/inventory/inventory.service.ts:418-463 | requested and then approved: delta goes into the bucket of the item asked for and nowhere else, unless that would take it below nothing |
| `StockEffects.ElevatedRequestIsCarriedOut` | src/inventory/inventory.service.ts:418-444 | an elevated request does the same in one call |
| `StockEffects.AdjustmentRejected` | src/inventory/inventory.service.ts:418-478 | requested and then rejected: no stock moves, request and approval are REJECTED |
| `StockEffects.TransferRequested` | src/inventory/inventory.service.ts:717-746 | refused for an unknown item, its own branch or too little stock in the bucket; otherwise one row and one approval for the source branch |
| `StockEffects.RequestedTransferArrives` | src/inventory/inventory.service.ts:717-842 | requested and then approved: the quantity leaves the bucket asked for and arrives in the same bucket of the item of that name and category in the branch asked for, made if missing; nothing else held changes |
| `StockEffects.RequestedTransferRejected` | src/inventory/inventory.service.ts:717-859 | requested and then rejected: no stock moves, transfer and approval are rejected |
| `StockEffects.LegacyTransferNeedsNoApproval` | src/inventory/inventory.service.ts:748-859 | a transfer without an approval is carried out or rejected by anybody let in, and no approval is touched |
| `StockEffects.AdjustmentHandedOver` | src/inventory/inventory.service.ts:480-490 | whoever may decide on a PENDING adjustment can hand it to known staff, who may then decide; refused otherwise |
| `StockEffects.TransferHandedOver` | src/inventory/inventory.service.ts:861-874 | the same for transfers, legacy ones refused |
| `StockEffects.StoppedAdjustmentRequest` | src/inventory/inventory.service.ts:418-444 | a request that stops has written the approval row, its log entry and the request in this order, each as the complete call would have |
| `StockEffects.StoppedTransferRequest` | src/inventory/inventory.service.ts:717-746 | the same for a transfer request |
| `StockEffects.StoppedAdjustmentApproval` | src/inventory/inventory.service.ts:446-463 | an approval that stops has written approval row, log entry, item with movement, and status in this order, each as the complete call would have |
| `StockEffects.StoppedAdjustmentRejection` | src/inventory/inventory.service.ts:465-478 | the same for a rejection: approval row, log entry, status |
| `StockEffects.StoppedTransferApproval` | src/inventory/inventory.service.ts:748-842 | the same for a transfer's approval: approval row, log entry, the one transaction |
| `StockEffects.StoppedTransferRejection` | src/inventory/inventory.service.ts:844-859 | the same for a transfer's rejection |
| `StockRuns.ReallocationConserves` | src/inventory/inventory.service.ts:322-376 | moving stock between buckets leaves the total over all items unchanged |
| `StockRuns.TransferConserves` | src/inventory/inventory.service.ts:766-837 | a branch transfer leaves the total over all items unchanged, also when it creates the destination item |
| `StockRuns.LedgerOverRuns` | src/inventory/inventory.service.ts:286-410 | every call, wherever it stops, keeps the ledger balanced, stock non-negative and the total accounted for |
| `StockRuns.LedgerFromEmpty` | src/inventory/inventory.service.ts:286-544 | from empty tables: each bucket is non-negative and equals opening plus its movements; the grand total changes only by RECEIVED, SOLD and ADJUSTMENT |
| `ExecutionRuns.AtMostOncePerStage` | src/inventory/inventory.service.ts:446-463 | with n stages kept, one adjustment moves stock at most max(1, n) times over any run of calls, stops and retries |
| `ExecutionRuns.AtMostOnceWithoutChain` | src/inventory/inventory.service.ts:446-463 | with no chain: at most once; an APPROVED adjustment has exactly one movement under an APPROVED approval, a REJECTED one none |
| `ExecutionRuns.StuckForever` | src/inventory/inventory.service.ts:446-463 | once the approval is decided and the adjustment still PENDING, no later call finishes or moves it |
| `ExecutionRuns.ApprovalSucceedsOrSticks` | src/inventory/inventory.service.ts:446-463 | an unchained approval ends APPROVED exactly when stock covers it and the process survives all four writes; otherwise, once anything was written, it is PENDING for ever |
| `ExecutionRuns.ExecutesBeforeApprovalIff` | src/inventory/inventory.service.ts:453-462 | a complete approval call applies the stock at once; the approval is left open exactly when stages remain |
| `ExecutionExample.StockMovesBeforeTheLastStage` | src/inventory/inventory.service.ts:446-463 | from empty tables: a two-stage chain, a write-off, one approval: the write-off is APPROVED and the stock gone while the approval waits at stage 2 |
| `ExecutionRuns.RetriesReachTheBound` | src/inventory/inventory.service.ts:446-463 | stopped and retried calls move stock once for every approval left, as far as it covers them, for deltas of either sign: the bound is tight |
| `ExecutionRuns.EveryApprovalCanMoveStock` | src/inventory/inventory.service.ts:446-463 | from any state with a PENDING adjustment, some run brings in stock first and then moves it once for every approval left |
| `ExecutionRuns.OnceIffOneApprovalLeft` | src/inventory/inventory.service.ts:446-463 | for every delta: all runs move stock at most once more if and only if at most one approval is left |
| `ExecutionExample.StockMovesTwice` | src/inventory/inventory.service.ts:446-463 | from empty tables: two stages and two approvals stopped after the movement move the stock twice and leave the write-off PENDING for good |
| `ExecutionRuns.TransfersExecuteOnce` | src/inventory/inventory.service.ts:748-842 | a transfer debits its source at most once over any run, exactly when it is COMPLETED |
| `TransferRuns.TransferSucceedsOrSticks` | src/inventory/inventory.service.ts:748-842 | an unchained transfer is carried out exactly when stock covers it and the process survives the writes; if the approval was written and it was not, it stays PENDING for ever |
| `TransferRuns.StrandedForever` | src/inventory/inventory.service.ts:748-859 | a PENDING transfer whose approval is decided keeps its row and never moves stock, whatever calls follow |
| `ExecutionExample.TransferStrandedReachable` | src/inventory/inventory.service.ts:748-765 | from empty tables and with no call stopped: stock is sold between request and approval, the approval is APPROVED and the transfer stranded |
| `StockAlerts.AlertService.CheckAndTriggerLowStockAlert` | src/inventory/inventory.service.ts:546-563 | raises an alert only at or below the threshold and only if none is open for the item |
| `StockAlerts.AlertService.ResolveAlert` | src/inventory/inventory.service.ts:576-585 | resolves an open alert; not found and already resolved are errors |
| `StockAlerts.AlertService.EscalateOverdueAlerts` | src/inventory/inventory.service.ts:658-688 | exactly the open alerts below the last stage that waited six hours move up one stage |
| `StockAlerts.OneOpenAlertPerItem` | src/inventory/inventory.service.ts:546-563 | in every run: at most one open alert per item, and stage k no earlier than 6k hours after it was raised |
| `StockAlerts.EscalationLeavesNothingOverdue` | src/inventory/inventory.service.ts:658-688 | after an escalation run no alert is overdue and none has moved more than one stage |
| `StockAlerts.CheckOpensIff` | src/inventory/inventory.service.ts:546-563 | after a check the item has an open alert if and only if it had one or holds no more than its threshold; no other item is affected |
| `StockAlerts.ResolvedIsClosed` | src/inventory/inventory.service.ts:576-585 | resolving closes the item's only open alert, so the next low check raises a new one |
| `StockAlerts.ResolveRefusedIff` | src/inventory/inventory.service.ts:576-585 | only unknown and closed alerts are refused |
| `StockAlerts.EscalatesIff` | src/inventory/inventory.service.ts:658-688 | exactly the open alerts below management that waited six hours at their stage move one stage up |
| `Campaign.CampaignSender.FindLastSent` | src/crm/lifecycle-campaign-send.service.ts:369-376 | the latest SENT row of this template to this subject over all transitions |
| `Campaign.CampaignSender.AttemptSend` | src/crm/lifecycle-campaign-send.service.ts:348-424 | one attempt: push to a walk-in customer, cooldown, consent, contact, provider, in this order; one row, unless the call is cut short first |
| `Campaign.CampaignSender.AttemptSequenceStep` | src/crm/lifecycle-campaign-send.service.ts:281-332 | the same for a sequence step, without a cooldown |
| `Campaign.CampaignSender.HandleSequence` | src/crm/lifecycle-campaign-send.service.ts:207-279 | at most one step: no template, cooldown before step 1, delay and send time, then the attempt |
| `Campaign.CampaignSender.HandleTemplate` | src/crm/lifecycle-campaign-send.service.ts:156-178 | one template of the loop: skipped if not applicable or already sent, waiting if not due, attempted otherwise |
| `Campaign.CampaignSender.HandleTransition` | src/crm/lifecycle-campaign-send.service.ts:115-194 | all templates, then the sequence, then processed unless something waits |
| `Campaign.NextStep` | src/crm/lifecycle-campaign-send.service.ts:221-222 | the first step without a row |
| `CampaignRuns.AttemptWritesOneRow` | src/crm/lifecycle-campaign-send.service.ts:348-424 | an attempt that is not cut short writes exactly one row and touches no other |
| `CampaignRuns.InvariantOverRuns` | src/crm/lifecycle-campaign-send.service.ts:115-424 | the facts below hold in every state a run reaches |
| `CampaignRuns.CooldownKept` | src/crm/lifecycle-campaign-send.service.ts:369-384 | in every run: one row per transition and template; two SENT rows of a template to one subject at least its cooldown apart; none before the template's delay |
| `CampaignSends.AttemptOutcome` | src/crm/lifecycle-campaign-send.service.ts:348-424 | an attempt's one row is SENT if and only if no message of the template to the subject lies within the cooldown and consent, contact and provider allow it; each other outcome has its own condition |
| `CampaignSends.StepOutcome` | src/crm/lifecycle-campaign-send.service.ts:207-332 | the same for a sequence step's row |
| `CampaignSends.CooldownRunsIff` | src/crm/lifecycle-campaign-send.service.ts:238-242 | step 1 is held back exactly when a step of the lifecycle's sequence went out to the subject within the cooldown, on whatever transition |
| `CampaignSends.RowsExplained` | src/crm/lifecycle-campaign-send.service.ts:115-424 | in every run each template row comes from a call with the template enabled, meant for the subject's kind and tier and due; a SENT row of either table from an attempt with consent, contact and an accepting provider, at or after the send time |
| `CampaignCompletion.ProcessedIffAllHandled` | src/crm/lifecycle-campaign-send.service.ts:156-191 | without a sequence, a call that is not cut short marks the transition processed exactly when every template meant for its subject has its row |
| `CampaignCompletion.ProcessedMeansHandled` | src/crm/lifecycle-campaign-send.service.ts:156-191 | in every run, a processed transition was closed by one call of the run, and every template meant for its subject under the tier that call found has its row |
| `CampaignRuns.StepsInOrder` | src/crm/lifecycle-campaign-send.service.ts:216-228 | in every run, the steps with a row are a prefix of the sequence |
| `CampaignRuns.SequenceAddsAtMostOne` | src/crm/lifecycle-campaign-send.service.ts:207-279 | a call extends that prefix by at most one row |
| `CampaignRuns.StepDelayKept` | src/crm/lifecycle-campaign-send.service.ts:261-270 | in every run, a step with a template is created at least its delay after every earlier row of its transition, skipped or not |
| `CampaignRuns.SequenceCooldownKept` | src/crm/lifecycle-campaign-send.service.ts:238-258 | in every run, a sequence starts for a subject no sooner than its cooldown after its last message to them |
| `CampaignCompletion.ProcessedIff` | src/crm/lifecycle-campaign-send.service.ts:115-194 | a call closes a transition if and only if it is not cut short, every template meant for its subject has its row, and its sequence has no missing step that is not yet due |
| `CampaignCompletion.SequenceStopsAfterOneStep` | src/crm/lifecycle-campaign-send.service.ts:181-191 | with no enabled template for its lifecycle and no interruption, a transition has exactly one step row once closed and none before, however long its sequence |
| `CampaignCompletion.ProcessedWithAStepLeft` | src/crm/lifecycle-campaign-send.service.ts:181-191 | from empty tables: detected and handled once, a transition is processed with one of its two steps made |
| `CampaignCompletion.ClosingCompletesIff` | src/crm/lifecycle-campaign-send.service.ts:181-191 | the closing call leaves the sequence complete if and only if it found at most one step missing |
| `CampaignCompletion.WaitingIffEarly` | src/crm/lifecycle-campaign-send.service.ts:156-178 | the template loop waits if and only if some template meant for the subject had no row and was not yet due when it began |
| `CampaignCompletion.CompleteAttemptsRunThrough` | src/crm/lifecycle-campaign-send.service.ts:156-178 | the loop is cut short only by an attempt that stops or whose delivery goes unrecorded |
| `CampaignCompletion.KeptOpenIff` | src/crm/lifecycle-campaign-send.service.ts:181-191 | a call that takes a step leaves the transition open if and only if a template is early, the step goes out unrecorded, or the final write is lost, all told before the call |
| `CampaignCompletion.SequenceRowsExact` | src/crm/lifecycle-campaign-send.service.ts:181-191 | in every run, the step rows of a transition are as many as the calls that took a step while something kept it open, and one more if it was closed with a step missing |
| `CampaignCompletion.SequenceCompletesIff` | src/crm/lifecycle-campaign-send.service.ts:181-191 | a closed transition's sequence of n steps is complete if and only if n - 1 calls took a step while a template was early, or with their message sent unrecorded or their final write lost |
| `CampaignCompletion.NextStepCanComeIff` | src/crm/lifecycle-campaign-send.service.ts:115-279 | from any reachable state, a missing step can still be made by some continuation if and only if the transition is open |
| `CampaignCompletion.LaterStepsIgnoreCooldown` | src/crm/lifecycle-campaign-send.service.ts:238-242 | once a transition has a step row, the cooldown has no influence on its later steps |
| `CampaignCompletion.SkipsForCooldownIff` | src/crm/lifecycle-campaign-send.service.ts:238-258 | a call writes a SKIPPED_COOLDOWN step row if and only if it takes step 1 and a step was sent to the subject within the cooldown |
| `CampaignCompletion.CooldownSkipEndsSequenceIff` | src/crm/lifecycle-campaign-send.service.ts:238-258 | after a cooldown skip of step 1, step 2 can follow if and only if a template without a row was not yet due when the skipping call began, or that call's final write was lost |
| `CampaignCompletion.CooldownSkipDoesNotStopTheSequence` | src/crm/lifecycle-campaign-send.service.ts:238-258 | a concrete run where step 1 is skipped for the cooldown and step 2 still goes out at the next poll |
| `AuditTrail.FindAll` | src/audit-trail/audit-trail.service.ts:57-176 | the page fetched is the true page whenever page * limit is within the cap; total counts every matching row of every queried table |
| `AuditTrail.SortIsStable` | src/audit-trail/audit-trail.service.ts:167-167 | the sort gives newest first, the same entries, and equal instants in their original order |
| `AuditTrail.BoundedMerge` | src/audit-trail/audit-trail.service.ts:85-167 | merging the newest n of each table agrees with the whole trail on its newest n |
| `AuditTrail.BoundedFetchIsExact` | src/audit-trail/audit-trail.service.ts:57-176 | for every content and filter, page * limit within the cap gives exactly that page of the merged tables |
| `AuditTrail.RightForAllTablesIff` | src/audit-trail/audit-trail.service.ts:54-60 | for every filter: the page is right for all table contents if and only if page * limit is at most 1000 or the filters contradict each other |
| `AuditTrail.PagesListTheTrail` | src/audit-trail/audit-trail.service.ts:167-173 | consecutive pages list the trail from its newest entry, each entry once |
| `AuditTrail.TrailListsWhatIsAdmitted` | src/audit-trail/audit-trail.service.ts:57-173 | the trail lists an entry exactly as often as its log has rows with its columns if source, actor, type and dates given admit it, and not at all otherwise |
| `AuditTrail.PageShowsOnlyAdmitted` | src/audit-trail/audit-trail.service.ts:57-176 | on every page, past the cap too, each entry is admitted by the filters and tells a row of its log |
| `AuditTrail.DefaultPage` | src/audit-trail/audit-trail.service.ts:54-60 | without page and limit: the fifty newest admitted entries |
| `WorkCalendar.ParityFlips` | src/attendance/staff-work-calendar.service.ts:28-33 | week parity is 0 or 1 for every date, before the epoch too, and flips every week |
| `WorkCalendar.RepeatsEveryTwoWeeks` | src/attendance/staff-work-calendar.service.ts:181-219 | the effective day repeats every fourteen days, for all dates |
| `WorkCalendar.OneOfTwoWeeksIsPrimary` | src/attendance/staff-work-calendar.service.ts:199-211 | of two consecutive same weekdays exactly one takes an alternating row's own rule, if and only if its parity is 0 or 1 |
| `WorkCalendar.EveryFortnightIsAlike` | src/attendance/staff-work-calendar.service.ts:181-219 | any fourteen consecutive days have the same number of working days |
| `WorkCalendar.SetDayIsEffective` | src/attendance/staff-work-calendar.service.ts:85-219 | after a calendar is set each date of a weekday sent resolves to the last setting for it, in the alternate week to the alternate type without times |
| `WorkCalendar.UnsetDayStays` | src/attendance/staff-work-calendar.service.ts:85-129 | weekdays not sent resolve as before |
| `WorkCalendar.CompleteIff` | src/attendance/staff-work-calendar.service.ts:90-104 | a setting is complete exactly when its row has both times unless off, and alternates if it was to |
| `WorkCalendar.MissingDayFollowsCompany` | src/attendance/staff-work-calendar.service.ts:181-219 | a date without a row takes the company's times if open, is off if closed, and open if no hours are known |
| `WorkCalendar.FillingInKeepsRows` | src/attendance/staff-work-calendar.service.ts:138-172 | filling in leaves dates with a row as they were and lets the others follow the company |
| `WorkCalendar.OverwritingFollowsCompany` | src/attendance/staff-work-calendar.service.ts:138-172 | overwriting makes a date follow the company in type and times, but for the alternate week of an old row |
| `AttendanceSummary.PastFortnightsExpectAlike` | src/attendance/attendance-summary.service.ts:101-113 | any two windows of fourteen past days report the same expected days |
| `WorkCalendar.StaffWorkCalendarService.SetCalendar` | src/attendance/staff-work-calendar.service.ts:85-129 | incomplete days are refused before anything is written; otherwise each day sent replaces its row |
| `WorkCalendar.StaffWorkCalendarService.ApplyBusinessHoursDefault` | src/attendance/staff-work-calendar.service.ts:138-172 | company hours fill the missing days, or all days when overwriting |
| `WorkCalendar.OverwriteRestoresDefaultIff` | src/attendance/staff-work-calendar.service.ts:151-169 | overwriting does not clear an alternation: a date takes the company's day type exactly when the old row does not send it to a different alternate type |
| `WorkCalendar.AlternationSurvivesOverwrite` | src/attendance/staff-work-calendar.service.ts:151-169 | from an empty calendar: an alternating Saturday is set, then overwritten with open company hours, and its alternate week is still off |
| `AttendanceSummary.CollectLeaveDates` | src/attendance/attendance-summary.service.ts:94-99 | all days of all overlapping approved leave |
| `AttendanceSummary.TallyDays` | src/attendance/attendance-summary.service.ts:103-127 | the day loop with its early exit counts exactly the expected, worked, half and absent days of the range |
| `AttendanceSummary.GetMonthlySummary` | src/attendance/attendance-summary.service.ts:49-149 | each counter is the number of days of the range with its property |
| `AttendanceSummary.WorkedCountersAreTheirDays` | src/attendance/attendance-summary.service.ts:101-121 | expected, worked and half days are the sizes of the sets of dates asked for by the calendar, with a check-in, on full and half days |
| `AttendanceSummary.AbsentCountersAreTheirDays` | src/attendance/attendance-summary.service.ts:122-131 | absent days are the dates asked for without check-in, leave or closure; excused ones have one of the last two |
| `AttendanceSummary.StatusCounterIsItsDays` | src/attendance/attendance-summary.service.ts:128-131 | late arrivals and holidays worked are the dates whose record has that status |
| `AttendanceSummary.ExtraCounterIsItsDays` | src/attendance/attendance-summary.service.ts:75-90 | extra work days are the dates whose record is an extra work day decided that way |
| `AttendanceSummary.EarlyCounterIsItsDays` | src/attendance/attendance-summary.service.ts:129-130 | early departures are the dates whose record has early minutes |
| `AttendanceSummary.SummaryIsAdditive` | src/attendance/attendance-summary.service.ts:101-131 | every day counter is additive over adjacent ranges |
| `AttendanceSummary.ExpectedDaysAreAccountedFor` | src/attendance/attendance-summary.service.ts:109-127 | an expected day is worked, half worked, excused or absent, exactly one of them; so absent days never exceed expected ones |
| `AttendanceSummary.LeaveDaysAreRightIff` | src/attendance/attendance-summary.service.ts:94-99 | the reported leave days are the range's days on leave if and only if no approved leave reaches across an end of the range |
| `AttendanceSummary.LeaveCountedTwice` | src/attendance/attendance-summary.service.ts:94-99 | two days of leave across a month's end: both months report two |
| `SalaryCalculator.FollowingMonthStart` | src/payroll/payroll-salary-calculator.service.ts:103-106 | the following month starts one month length later, across new year and leap years |
| `SalaryCalculator.TransitionAfterHireIff` | src/payroll/payroll-salary-calculator.service.ts:98-106 | the switch is after the hire date if and only if the cutoff is at least the hire day minus the month's length |
| `SalaryCalculator.SalaryPhaseLength` | src/payroll/payroll-salary-calculator.service.ts:98-106 | the exact number of days from hire to switch |
| `SalaryCalculator.SplitPartitionsThePeriod` | src/payroll/payroll-salary-calculator.service.ts:108-122 | each day of a non-empty period is a salary day before the switch and a commission day from it on; ranges given are non-empty |
| `SalaryCalculator.NeverBackToSalary` | src/payroll/payroll-salary-calculator.service.ts:108-122 | after a period with commission days, no later period has salary days |
| `SalaryCalculator.WindowsMeet` | src/payroll/payroll-salary-calculator.service.ts:177-187 | every commission instant of a range falls in exactly one of two adjacent query windows |
| `SalaryCalculator.CommissionSplits` | src/payroll/payroll-salary-calculator.service.ts:177-187 | commission earned is additive over adjacent ranges |
| `SalaryCalculator.CommissionIndependentOfPeriods` | src/payroll/payroll-salary-calculator.service.ts:81-123 | cutting time into two periods neither loses nor doubles commission, wherever the switch falls |
| `SalaryCalculator.RangeWorkdayBreakdown` | src/payroll/payroll-salary-calculator.service.ts:159-168 | scheduled, missed and approved-extra counts of a range, and the days confirmed by them |
| `SalaryCalculator.CalculateForStaff` | src/payroll/payroll-salary-calculator.service.ts:197-413 | what each compensation type is paid: zero before hire, capped commission-only pay, salary at the full-month rate, the split period |
| `SalaryCalculator.SplitPay` | src/payroll/payroll-salary-calculator.service.ts:369-410 | the salary side and the commission side of a split period and the combined daily pay |
| `SalaryCalculator.AddSalary` | src/payroll/payroll-salary-calculator.service.ts:374-386 | the salary lines of one range at the daily rate |
| `SalaryCalculator.CommissionOnlyPay` | src/payroll/payroll-salary-calculator.service.ts:255-301 | commission spread over scheduled days, paid for payable days capped at the scheduled ones |
| `SalaryCalculator.PayIsBounded` | src/payroll/payroll-salary-calculator.service.ts:197-413 | 0 <= salary <= base + extra-day earnings for salaried types, 0 <= salary <= commission for commission-only, and in a split period both sides' confirmed days sum to the whole range's |
| `SalaryCalculator.CommissionCountsRow` | src/payroll/payroll-salary-calculator.service.ts:177-187 | a commission row adds its amount if it is approved and dated on a day this person earns commission, and nothing otherwise, wherever it stands; no rows, no commission |
| `SalaryCalculator.SalaryIsProRata` | src/payroll/payroll-salary-calculator.service.ts:303-410 | salary is the base in proportion to days worked out of the full month's, over the employment or up to the switch; the effective daily pay is the pay spread over the days worked |
| `SalaryCalculator.CommissionPayIsProRata` | src/payroll/payroll-salary-calculator.service.ts:255-301 | commission-only pay is the commission in proportion to days worked, at most all of it |
| `SalaryCalculator.CommissionDailyPay` | src/payroll/payroll-salary-calculator.service.ts:255-301 | its effective daily pay is the commission spread over the days paid |
| `SalaryCalculator.ApplicableIsEmployment` | src/payroll/payroll-salary-calculator.service.ts:197-254 | pay covers exactly the days of the period from the hire date on |
| `SalaryCalculator.DaysAreCounted` | src/payroll/payroll-salary-calculator.service.ts:98-106 | every date is one day after the one before it, from 1970-01-01 as day 0, with 2024-01-01 the biweekly epoch |
| `SalaryCalculator.CommissionOnlyPayIsBounded` | src/payroll/payroll-salary-calculator.service.ts:275-299 | commission-only pay is the whole commission when no more days were missed than made up |
| `SalaryCalculator.SplitDaysAddUp` | src/payroll/payroll-salary-calculator.service.ts:369-407 | confirmed days of the two sides sum to those of the applicable range |
| `PayrollCorrections.PayrollAdjustmentService.Create` | src/payroll/payroll-adjustment.service.ts:20-51 | a new ACTIVE row with no predecessor; unknown period or staff refused |
| `PayrollCorrections.PayrollAdjustmentService.Correct` | src/payroll/payroll-adjustment.service.ts:64-112 | the ACTIVE row becomes SUPERSEDED and gets an ACTIVE successor with the same terms; refused in DRAFT |
| `PayrollCorrections.PayrollAdjustmentService.Remove` | src/payroll/payroll-adjustment.service.ts:163-173 | only in DRAFT: the row goes and links to it are cleared |
| `PayrollCorrections.PayrollAdjustmentService.GetCorrectionHistory` | src/payroll/payroll-adjustment.service.ts:131-161 | both walks terminate and return the chain; the links they need hold in every run by `PayrollCorrections.LinksOverRuns` |
| `PayrollCorrections.LinksOverRuns` | src/payroll/payroll-adjustment.service.ts:20-173 | over every run, removals of any row included: links point to existing earlier rows, at most one to each, and none to an ACTIVE row |
| `PayrollCorrections.ChainsOverRuns` | src/payroll/payroll-adjustment.service.ts:20-112 | over any run whose removals hit rows that correct nothing, every chain ends in its one ACTIVE row |
| `PayrollCorrections.CreatedIsListed` | src/payroll/payroll-adjustment.service.ts:20-51 | a new adjustment is listed under its period with the amount given; unknown period or staff is refused |
| `PayrollCorrections.CorrectionTakesItsPlace` | src/payroll/payroll-adjustment.service.ts:64-112 | a correction takes the place of what it corrects in the listing, with the new amount and reason and the same terms; only an ACTIVE row outside a DRAFT period can be corrected |
| `PayrollCorrections.RemovedIsUnlisted` | src/payroll/payroll-adjustment.service.ts:163-173 | only a row of a DRAFT period can be removed; it leaves the listing and other rows lose at most a link to it |
| `PayrollCorrections.HistoryIsTheWholeChain` | src/payroll/payroll-adjustment.service.ts:131-161 | the same oldest-first chain from every link, with unchanged terms and only its last row ACTIVE |
| `PayrollCorrections.OneListedRowPerChain` | src/payroll/payroll-adjustment.service.ts:114-120 | the period listing holds exactly one row of each chain |
| `PayrollCorrections.RemoveIsSafeIff` | src/payroll/payroll-adjustment.service.ts:163-173 | a removal keeps all of this if and only if the row corrects nothing |
| `PayrollCorrections.RemovedCorrectionHidesTheChain` | src/payroll/payroll-adjustment.service.ts:163-173 | removing a correction leaves every earlier row of its chain SUPERSEDED, so the listing shows none of them |
| `PayrollCorrections.RemovedCorrectionReachable` | src/payroll/payroll-adjustment.service.ts:20-173 | from empty tables: create, correct, reopen to DRAFT and remove leaves a SUPERSEDED row that nothing corrects |
| `InfluencerReward.PercentageWithinDiscount` | src/discount/discount.service.ts:727-737 | a percentage reward, rounded to two decimals, never exceeds the discount given |
| `InfluencerReward.InvariantOverInterleavings` | src/discount/discount.service.ts:673-861 | every interleaving of reads, decisions and commits keeps credits, payments, rows and balances in step |
| `InfluencerReward.EachUsageCreditedAtMostOnce` | src/discount/discount.service.ts:773-820 | under any interleaving no two credits are for the same usage |
| `InfluencerReward.CreditsMatchRows` | src/discount/discount.service.ts:773-820 | each payment has one REWARDED row and one credit of the same positive amount, and the other way round |
| `InfluencerReward.WalletsHoldTheirCredits` | src/discount/discount.service.ts:816-819 | each wallet holds its other traffic plus its credits |
| `InfluencerReward.AloneCreditsIff` | src/discount/discount.service.ts:673-861 | a call on its own credits exactly the amount due, if and only if the usage is payable |
| `InfluencerReward.PayableIsCredited` | src/discount/discount.service.ts:673-861 | a payable usage brings one credit to its influencer's wallet: a pending row's amount, or to within half a kobo the fixed sum or the percentage of the discount capped at it; row, payment and balance agree |
| `InfluencerReward.UndisturbedCall` | src/discount/discount.service.ts:673-861 | the three interleavable steps, run without interruption, are that call |
| `InfluencerReward.DiscountService.ProcessInfluencerReward` | src/discount/discount.service.ts:673-861 | the service method has exactly that outcome |
| `Recruitment.ApplicationService.Submit` | src/application/application.service.ts:439-526 | refused while the person has an open application or is employed; a draft of theirs is reused |
| `Recruitment.ApplicationService.UpdateStatus` | src/application/application.service.ts:875-907 | only moves of the transition table, and never to EMPLOYED |
| `Recruitment.ApplicationService.ScheduleInterview` | src/application/application.service.ts:928-963 | from SHORTLISTED, or again from INTERVIEW_SCHEDULED |
| `Recruitment.ApplicationService.RecordInterviewOutcome` | src/application/application.service.ts:996-1049 | PASS, FAIL and HOLD with their next statuses |
| `Recruitment.ApplicationService.RecordEmploymentApproval` | src/application/application.service.ts:1051-1086 | once, and only after a PASS |
| `Recruitment.ApplicationService.GenerateOfferLetter` | src/application/application.service.ts:1088-1140 | once, after the approval, whatever the status |
| `Recruitment.ApplicationService.RespondToOffer` | src/application/application.service.ts:1164-1207 | a SENT offer is accepted, or declined and the application NOT_SELECTED |
| `Recruitment.ApplicationService.ConvertToStaff` | src/application/application.service.ts:1254-1425 | needs the approval, an accepted offer, no active staff of the same NIN and no staff record of the account |
| `Recruitment.EmployedMeansEarned` | src/application/application.service.ts:1262-1270 | in every run EMPLOYED implies PASS, approval and an ACCEPTED offer |
| `RecruitmentHistory.MarkedIffPut` | src/application/application.service.ts:996-1425 | in every run an application has a PASS, the approval, an offer, its acceptance, its refusal or the hire if and only if one call met that mark's conditions: none is taken back |
| `RecruitmentHistory.OneStatusAtATime` | src/application/application.service.ts:97-107 | up to the interview a call moves an application by one status, and interview, offer, hire and refusal come from their own calls only |
| `RecruitmentHistory.NextStatusIsOpen` | src/application/application.service.ts:875-1049 | each status takes exactly its next one when asked to, and can be left by NOT_SELECTED; FAIL and HOLD have their own results |
| `RecruitmentHistory.SubmissionTakenIff` | src/application/application.service.ts:439-526 | a submission is taken if and only if the person has no open application and is not employed; it opens their draft or a new one |
| `RecruitmentHistory.HiredAllTheWay` | src/application/application.service.ts:439-1425 | somebody unknown who passes every stage ends up employed, with one new active staff record of their email, linked; nothing else changes |
| `Recruitment.FinalStatesStay` | src/application/application.service.ts:97-107 | EMPLOYED and DECLINED freeze the application, DECLINED is NOT_SELECTED, and a PASS stays a PASS |
| `Recruitment.NotSelectedCanBeLeftIff` | src/application/application.service.ts:1102-1138 | NOT_SELECTED can be left if and only if the candidate passed and has no offer yet, or one not declined and no staff record under their account |
| `Recruitment.NotSelectedLeftReachable` | src/application/application.service.ts:875-1140 | from empty tables: a candidate who passed is turned down, then approved and offered the job |
| `Recruitment.OneStaffPerNinOverRuns` | src/application/application.service.ts:1272-1301 | no two applications of one NIN are linked to active staff, if staff are only ever deactivated |
| `Recruitment.InterruptedConversionSticks` | src/application/application.service.ts:1325-1421 | a conversion stopped after writing the staff record is refused at every retry |
| `Recruitment.OneOpenLostIff` | src/application/application.service.ts:439-450 | a step loses the one-open-application rule if and only if it submits a draft, first offers or converts a rejected application while another one is open |
| `Recruitment.TwoOpenApplicationsReachable` | src/application/application.service.ts:439-526 | from empty tables: a draft revived beside a submitted application, two open for one person |
| `WatTime.WatRoundTripIff` | src/branch-finance/branch-finance.service.ts:13-20 | the WAT day of the instant built from a date and a time is that date, if and only if the time is within the day |
| `BranchFinance.WindowIsDays` | src/branch-finance/branch-finance.service.ts:112-116 | an instant passes the query's window exactly when its WAT day is in the range |
| `BranchFinance.AddRecords` | src/branch-finance/branch-finance.service.ts:216-262 | each loop adds every record to its own day and only there |
| `BranchFinance.AddCounts` | src/branch-finance/branch-finance.service.ts:264-272 | each day shows the last cash count entered for it |
| `BranchFinance.FillGaps` | src/branch-finance/branch-finance.service.ts:280-284 | every day of the range appears, others unchanged |
| `BranchFinance.ColumnsOfItsKind` | src/branch-finance/branch-finance.service.ts:216-262 | each kind of record fills its own columns: revenue and count, the wallet's share, stock by its change or its size |
| `BranchFinance.RecordCounts` | src/branch-finance/branch-finance.service.ts:216-262 | one more record adds its columns to its own WAT day, told from its completion, last update or creation, and nothing to any other |
| `BranchFinance.LastCountIsShown` | src/branch-finance/branch-finance.service.ts:264-272 | the count shown for a day is the last one entered for it |
| `BranchFinance.DatesAskedFor` | src/branch-finance/branch-finance.service.ts:99-116 | one date asked for is that day, two are the days between them, none is all time |
| `BranchFinance.GetDailySummary` | src/branch-finance/branch-finance.service.ts:99-310 | every row tells its day's true figures, rows are in date order, they are exactly the range's dates (or all active days), and totals add the rows up |
| `BranchFinance.RangeRowsAreTheRange` | src/branch-finance/branch-finance.service.ts:280-293 | an explicit range gives exactly its dates, once each, in order |
| `BranchFinance.TotalsAreRawSums` | src/branch-finance/branch-finance.service.ts:286-308 | totals are the sums over the raw records in the window: the final filter loses nothing |
| `BranchFinance.TotalsAreAdditive` | src/branch-finance/branch-finance.service.ts:99-310 | totals are additive over adjacent ranges |
| `BranchFinance.ExpectedCashIsCash` | src/branch-finance/branch-finance.service.ts:289-290 | expected cash is what was not paid from a wallet |
| `BranchFinance.SubmissionWindowIff` | src/branch-finance/branch-finance.service.ts:323-338 | a day's cash count is accepted from the next WAT midnight until that day's deadline, and at no other time |
| `Attendance.AttendanceService.ClockIn` | src/attendance/attendance.service.ts:54-157 | the decision inlined in clockIn writes exactly what computeAttendanceOutcome computes |
| `Attendance.AttendanceService.ClockOut` | src/attendance/attendance.service.ts:218-321 | one check-out a day, before 22:00, not before closing time without permission; only check-out, overtime and early departure change |
| `Attendance.AttendanceService.MarkAbsencesForYesterday` | src/attendance/attendance.service.ts:535-627 | the loop over active staff has the result of the specified fold |
| `Attendance.LeaveService.Submit` | src/leave/leave.service.ts:29-63 | refused for unknown staff, reversed dates or an overlap with an open request |
| `Attendance.LeaveService.Approve` | src/leave/leave.service.ts:135-165 | a PENDING request is APPROVED and a day-type leave gets its records |
| `Attendance.LeaveService.CreateAttendanceRecordsForLeave` | src/leave/leave.service.ts:292-330 | one ON_LEAVE record per day of the leave: new ones checked in at midnight, existing ones keeping everything but the status |
| `Attendance.LeaveService.Reject` | src/leave/leave.service.ts:167-194 | a PENDING request is REJECTED |
| `AttendanceOutcomes.ClockInTakenIff` | src/attendance/attendance.service.ts:54-157 | a clock-in is taken exactly from known staff, on site, once a WAT day; its record holds the instant and its score |
| `AttendanceOutcomes.ArrivalStatus` | src/attendance/attendance.service.ts:90-141 | the score's status is told by the kind of day: closed, off, or scheduled |
| `AttendanceOutcomes.DeadlineMeaning` | src/attendance/attendance.service.ts:90-135 | the deadline is the opening minute, of the exception or the calendar, plus the grace minutes |
| `AttendanceOutcomes.ClockOutTakenIff` | src/attendance/attendance.service.ts:218-321 | a check-out is taken exactly once, on site, until 22:00 WAT, and before closing time only under a permission that has begun; overtime and early minutes are the nearest to the time from closing |
| `AttendanceOutcomes.NightlySettles` | src/attendance/attendance.service.ts:535-627 | after the job no visited record of the day is open, a day that should have been worked has a record, and other fields stay |
| `AttendanceOutcomes.ChargesAreRight` | src/attendance/attendance.service.ts:165-199 | in every run an absent fee is the day's scheduled minutes at the rate, and a late penalty the minutes past the deadline, to the nearest, at the rate |
| `AttendanceOutcomes.CorrectedRecord` | src/attendance/attendance.service.ts:411-452 | a correction writes what it names and keeps the rest, a named status stands, and fee and late minutes follow the resulting status |
| `AttendanceOutcomes.RequestTakenIff` | src/leave/leave.service.ts:29-63 | a leave request is taken exactly from known staff, with dates in order, sharing no day with an open request of theirs |
| `AttendanceOutcomes.RejectedFreesItsDays` | src/leave/leave.service.ts:167-194 | after a rejection the same days can be asked for again |
| `AttendanceOutcomes.ApprovedDays` | src/leave/leave.service.ts:135-330 | an approval puts exactly its days ON_LEAVE: existing records keep all else, new ones are checked in at midnight UTC and charged nothing |
| `AttendanceRuns.OpenLeavesAreDisjoint` | src/leave/leave.service.ts:29-48 | in every run, no two PENDING or APPROVED requests of one staff member share a day |
| `AttendanceRuns.ApprovedDaysStayOnLeave` | src/leave/leave.service.ts:292-330 | each day of a day-type approval that was carried through has its record, and it stays ON_LEAVE through every later clock-in, clock-out, approval and nightly run |
| `AttendanceRuns.NightlyIsPointwise` | src/attendance/attendance.service.ts:545-620 | each active staff member's day becomes the per-staff rule applied to what it was; everything else stays |
| `AttendanceRuns.NightlyTwiceIsOnce` | src/attendance/attendance.service.ts:535-627 | running the job twice equals running it once |
| `AttendanceRuns.NightlyOrderIrrelevant` | src/attendance/attendance.service.ts:535-627 | the order of the loop does not matter |
| `AttendanceRuns.NightlyKeepsLatePenalty` | src/attendance/attendance.service.ts:563-567 | the job adds the absent fee without clearing the late penalty |
| `AttendanceCharges.MarkedIffWritten` | src/attendance/attendance.service.ts:54-627 | in every run a record has a late penalty, an absent fee, no check-in or the status ON_LEAVE if and only if one call of the run met the conditions for writing it: nothing takes them off |
| `AttendanceCharges.PenaltyIff` | src/attendance/attendance.service.ts:90-173 | a clock-in is charged if and only if penalties are on, there is no permission, the day is scored and the arrival is at least half a minute past the grace deadline |
| `AttendanceCharges.ChargedTwiceIff` | src/attendance/attendance.service.ts:54-627 | in every run a day carries both charges if and only if the absence has a price, a penalised clock-in happened, and a later nightly job found it without check-out |
| `AttendanceCharges.ChargedTwiceReachable` | src/attendance/attendance.service.ts:54-627 | from empty tables, for every configuration with a deadline and a price: a clock-in half a minute late and the night's job charge the day twice |
| `AttendanceCharges.LateAndFreeReachable` | src/attendance/attendance.service.ts:108-173 | from empty tables: a clock-in less than half a minute late is LATE without a penalty |
| `AttendanceCharges.LeaveDayChargedIff` | src/leave/leave.service.ts:292-330 | in every run an ON_LEAVE day carries an absent fee if and only if the nightly job charged it before the approval reached it |
| `AttendanceCharges.BeforeTheLeave` | src/attendance/attendance.service.ts:545-620 | the job charges a day or writes a no-show row for it only before a leave reaches it |
| `AttendanceCharges.ChargedLeaveReachable` | src/leave/leave.service.ts:322-327 | from empty tables, on any priced working day: the nightly job, a request and its approval leave the day ON_LEAVE and charged |
| `AttendanceCharges.SameLeaveDays` | src/attendance/attendance-summary.service.ts:57-99 | the summary and the nightly job agree on which days are approved leave |
| `AttendanceCharges.LeaveDayView` | src/attendance/attendance-summary.service.ts:109-127 | a day of a carried-through leave counts as checked in if and only if no nightly job had written a no-show row for it, and as excused otherwise |
| `AttendanceCharges.LeaveDaysCountAsWorked` | src/attendance/attendance-summary.service.ts:101-131 | over any range inside a carried-through leave: worked and half days are the expected days without a no-show row, excused days those with one, absent days none |
| `AttendanceCharges.LeaveIsOnlyExcusedIff` | src/attendance/attendance-summary.service.ts:101-131 | such a range adds nothing to the days worked if and only if every expected day of it had a no-show row |
| `AttendanceCharges.LeaveAcrossMonthsReachable` | src/attendance/attendance-summary.service.ts:94-99 | from empty tables: a two-day leave across a month's end is approved, and both months report two |
| `AttendanceCharges.WorkedLeaveReachable` | src/leave/leave.service.ts:292-330 | from empty tables: a leave approved in advance makes its working day count as worked |
| `AttendanceRuns.LateIff` | src/attendance/attendance.service.ts:108-135 | LATE exactly when strictly past the grace deadline of a scored day without permission |
| `AttendanceRuns.PenalizedWithinHalfAMinute` | src/attendance/attendance.service.ts:165-173 | the minutes charged are the time past the deadline to within half a minute, and never negative |
| `AttendanceRuns.LateButFreeIff` | src/attendance/attendance.service.ts:165-173 | LATE costs nothing if and only if penalties are off or the arrival is less than half a minute past the deadline |
| `AttendanceRuns.PenaltyMonotone` | src/attendance/attendance.service.ts:165-173 | for one day and rate, arriving later never costs less |
| `AttendanceRuns.CorrectionEndsLeave` | src/attendance/attendance.service.ts:420-440 | a correction naming no status takes a leave day off leave |
| `AttendanceRuns.CorrectedTwiceChargedIff` | src/attendance/attendance.service.ts:420-452 | after a correction both charges stand if and only if the record was ABSENT with a penalty and no status was named |
| `AttendanceRuns.EmptyCorrectionKeepsScore` | src/attendance/attendance.service.ts:369-409 | correcting a fresh record without changing anything reproduces it |

## Left out

- Recruitment.InterruptedConversionSticks: the account and role writes before the staff record are not modelled, because only the staff record decides a retry.
- Recruitment.OneStaffPerNinOverRuns: assumes staff are deactivated but not reactivated by other services, because those services are not modelled here.
- AttendanceRuns.ApprovedDaysStayOnLeave: says nothing of an approval whose process stopped part way through its records, because its later days have none and a retry is refused.
- CampaignCompletion.SequenceCompletesIff: whether the template loop before a step is cut short is the environment's doing and part of what "takes a step" means; `CampaignCompletion.CompleteAttemptsRunThrough` bounds it.
- StockEffects.RequestedTransferArrives: requests whose type has a chain are covered stage by stage in `ApprovalRuns` and `ExecutionRuns`, because only the approval differs.
- AttendanceOutcomes.ChargesAreRight: runs contain no manual corrections; `AttendanceOutcomes.CorrectedRecord` says what one correction charges.
- AttendanceCharges.MarkedIffWritten: runs contain no manual corrections, which can set any of the marks; one correction is covered by `AttendanceRuns.CorrectedTwiceChargedIff` and `AttendanceRuns.CorrectionEndsLeave`.
- AttendanceRuns.NightlyIsPointwise: the staff list is read once, and configuration does not change while the job runs.
- ApprovalRuns.StageByStage: each approval write and its log entry are one step; only `ExecutionRuns` lets a call stop between them.
- InfluencerReward.EachUsageCreditedAtMostOnce: the booking-payment service's own reward path is not part of this model; PENDING rows and other wallet traffic come from the environment.
- CampaignRuns.CooldownKept: two polls overlapping in time are not modelled, because transitions are handled one call at a time; a message delivered just before a stop leaves no row and is invisible to the rows the theorem is about.
- Row identifiers are positions or counters instead of UUIDs; creation order is identifier order.
- Floating-point rounding: division and percentages are exact reals, rounded only where the source rounds.
- Ties in a database ordering: rows of equal instants keep table order, where PostgreSQL promises none.
- Concurrent stock operations: bucket quantities are read and written as absolute values outside one transaction, so each stock operation is atomic here except for stops between its writes.
- History variables (opening quantities, the request a movement was written for, wallet credits, whether an approval was carried through) are part of the model, not of the tables.
- Names, notes, prices, units, before/after payloads and other columns no decision reads.
- Mail, SMS, push, S3, QoreID and payment providers: a send is an outcome chosen by the environment.
- GPS distance is a Boolean, OTP and NIN verification happen outside, and branch filters are applied before `BranchFinance` starts.
- Cursor paging of pending transitions, template rendering, pagination metadata other than totals.
- Expiry alerts, calendars' read view, extra-work-day decisions, manual attendance records, the compensation backfill and the CRUD services: easy members only.
- Payslip generation and payroll release; period statuses are set by the environment.
