# Reimbursement pipeline: a verified model

A reimbursement enters as a batch on `POST /api/v1/reimbursement`. The API splices the body into an envelope on the
`Request` topic. The publisher inserts one `pending` row per item, publishes the row's uuid on the `Reimbursement` topic,
and compensates, requeues or escalates when something fails. The agent reads the row back, runs a decision graph and
writes the decision. Reviewers approve or reject rows concurrently. No transaction spans any two of these stores, so what
the system promises rests on four mechanisms working together: the unique key, the status-gated delete, the comparison of
`published_at` with `updated_at`, and the retry ceiling. This project models that pipeline and proves what they give.

## How it is organised

- **The protocol** (`models`, `repository`, `protocol`, `effects`, `invariants`) is one transition system whose events are
  the awaits of the code: a commit, a publish verdict, a read, an offset commit, a crash. Every fault is part of the event,
  so a run is a list of events and "for every run" quantifies over all faults, crashes, redeliveries and interleavings. A
  publish has three outcomes: delivered, lost, and delivered although the caller saw `PublishFailed`; `producer` derives
  them. `effects` spells every event out: when it can happen, and the whole state it leaves.
- **What runs guarantee**: `no_loss`, `linear_token`, `orphans`, `redelivery`, `termination`, `history_shape`, `ledgers`,
  and `limits` with concrete runs showing where each guarantee stops.
- **The handlers** (`services`) are the publisher's and the agent's code in imperative form, one field update at a time.
  Each is proved to be exactly the protocol run that its faults select when nothing interrupts it (`uninterrupted` says what
  that leaves behind); `handling` says what a handling guarantees with anything happening between its steps.
- **Smaller cores**: the decision graph (`decision_graph`), interleaved review transactions (`review`), the batch fan-out
  (`fan_out`, and `fan_out_runs`, which maps its schedules to protocol runs), the consume loops (`consumer`).
- **Texts and bytes**: the grammar of RFC 8259, unpaired surrogates aside, as derivations (`json_grammar`), a parser
  proved to be exactly that grammar (`json`), Python's printer proved to stay inside it (`json_printer`, `decimal`, `utf8`), the envelope splice
  (`envelope_splice`), the history a reviewer reads (`history_printer`), the failure record (`failure_log`), and the size
  and correlation-id rules (`payload`). `sums` holds the arithmetic of weighted sums.

A uuid is an index into the table; deleted rows leave their slot empty for ever, so uuids are never reused. The clock
ticks once per event. A row's key is the stripped request id with the lower-cased submitter. `valid` on an item stands for
acceptance by the request model that the API and the publisher share.

## What the proofs found

Where the code and its own documentation differ, the model follows the code.

- `docs/RISKS.md:95-108` says an orphaned pending row is possible only between a publish failure and the compensating
  delete, and that it is logged. A crash between the insert's commit and the publish orphans a row as well, silently and
  for ever (`Orphans.CrashBeforePublishOrphansForEver`); `Orphans.CrashOrphansExactlyTheWindow` gives the exact condition.
- `apply_decision` labels every transition `pending` on the ground that only pending rows are ever decided. That is true
  of every crash-free run (`Ledgers.LabelsAreTrue`) and false after an agent crash, in three ways: a read that fails on a
  decided row is republished with a new `published_at` (`Limits.RestampingCanOverwriteAnApproval`); over the retry ceiling
  nothing compares stamps at all (`Limits.OverCeilingCanOverwriteADecision`); and two messages of one pending row can be
  in work together (`Limits.TwoHandsCanOverwriteADecision`; one sequential agent rules this out). The three together are
  the exact condition: without them no agent write hits a decided row (`Limits.HeedingRunsAreClean`), and each of them is
  such a write or makes one reachable (`Limits.NotHeedingIsHarmful`).
- Compensation and decision can race: when a publish is reported as failed although it reached the agent, a delete that
  works can find the row decided (`Limits.DeleteCanComeTooLate`), and a decision can find its row deleted
  (`Limits.DecisionCanComeTooLate`). Neither leaves a record. `Handling.CompensationUndoesTheInsert` and
  `Handling.RowGetsThePolicysDecision` give the exact conditions; the publisher goes on to requeue the item in both cases.
- The failure log does not always name its item: the request model strips an id before it measures it, the log cuts the raw
  text. A record keeps the id exactly when the raw text fits the limit (`FailureLog.RecordNamesItsItem`); an id padded with
  enough blanks is valid and lost (`FailureLog.PaddedIdIsLost`).
- The fan-out itself would settle nothing with a concurrency of zero (`FanOut.NeverBlocksIffAPermitExists`), and
  `check_startup_config` does not refuse one; what keeps it from being met is the producer, whose thread pool is sized by
  the same setting when the process starts.
- The publisher's loop commits a message whose handler raised, so "committed" means "completed" exactly as long as that
  does not happen (`ConsumeLoop.CommittedMeansCompletedIff`); the agent's loop never does it.
- A review whose re-read fails after its commit stands and is audited, but is never counted: the one way the transition
  counter drifts from the rows in a crash-free run (`Ledgers.FlowBreaksExactlyAtUncountedReviews`).
- Not everything the policy decides can be stored: an infinite amount, one of 10^12 or more, a currency that is not three
  capitals and a receipt dated in the future pass the graph and are refused by the columns; such requests end with a
  human (`DecisionGraph.GuardedValueFitsIff`, `Handling.RowGetsThePolicysDecision`).
- The splice is safe only because the body was parsed before: an unparsed body can overwrite the retry count
  (`EnvelopeSplice.UnvalidatedBodyCanOverwriteTheRetryCount`). `EnvelopeSplice.SpliceIsExact` gives the exact condition.
- Because a message's own timeout (8 s) is shorter than the wait for its verdict (10 s), a publish never returns with its own
  message still queued, so the three outcomes are all there are (`SharedProducer.PublishIsThreeValued`).

## Model

| member | source | states |
|---|---|---|
| Repository.StatementsKeepKeysUnique | packages/shared/src/shared/reimbursement/repository.py:18-132 | Of all statements only an insert can break the unique key, and it does so exactly when the key is taken |
| Repository.StatementsKeepReceipts | packages/shared/src/shared/reimbursement/repository.py:34-118 | Decisions and reviews store every receipts column they are given, keep the ones they are not given, and never empty one |
| Invariants.InvAlways | packages/shared/src/shared/reimbursement/use_cases/publish_pending.py:68-130 | In every state of every run: a handler between insert and compensation has its row in the table, alone, under its key, an unpublished row is pending and unknown to the agent, no stamp is ahead of the clock, no message for a pending row is older than the row, keys are unique |
| Invariants.RowsMoveOnly | packages/shared/src/shared/reimbursement/repository.py:18-132 | One event inserts at most one fresh row, deletes only a pending row held by its own handler, reviews only an eligible row, and otherwise only an agent write changes a row, never to a human status |
| Invariants.HoldersMoveOnly | packages/shared/src/shared/reimbursement/use_cases/publish_pending.py:68-84 | A handler comes to hold a row only by its own insert and keeps holding the same one until it settles |
| Invariants.ReimbsMoveOnly | packages/reimbursement/src/reimbursement/validation.py:246-276 | The Reimbursement topic only grows, by a publisher's first message at retry 0 or by a republication at retry + 1 of a message within the ceiling |
| NoLoss.NoAcceptedRequestIsLost | packages/publisher/src/publisher/processing.py:200-222 | In every run, with a crash at any step and any redelivery, each accepted key has a row, an uncommitted Request message or a failure-log record |
| NoLoss.NoAnsweredItemIsLost | packages/api/src/api/reimbursement/create/route.py:77-93 | The law over events: for every item of every batch ever answered 201, at any later point of any run, a row has its key, or a failure record carries it, or an uncommitted Request message does |
| NoLoss.EveryAnsweredItemIsAccepted | packages/api/src/api/reimbursement/create/route.py:77-93 | A 201 answer accepts the key of every item of the batch |
| NoLoss.RowStaysCovered | packages/shared/src/shared/reimbursement/use_cases/publish_pending.py:87-130 | A row that compensation removes leaves its owner still owing an outcome for the same key, so a duplicate dropped against that row stays covered |
| NoLoss.OpenStaysCovered | packages/publisher/src/publisher/processing.py:322-371 | Whatever outcome settles an item, its key is left with a row, a record or a new uncommitted message |
| NoLoss.DrainedTopicHasSettledEverything | packages/publisher/src/publisher/consumer.py:92-120 | Once every Request offset is committed, each accepted key is in the table or in the failure log |
| NoLoss.DrainedTopicHasSettledEveryAnswer | packages/publisher/src/publisher/consumer.py:92-120 | Once the Request topic is drained, every item of every batch answered 201 is in the table or in the failure log |
| LinearToken.AtMostOneLiveMessage | packages/reimbursement/src/reimbursement/validation.py:157-187 | In crash-free runs, ambiguous publishes included, a uuid has at most one live message, and none once its row has left pending |
| LinearToken.DecisionsOnlyHitPendingRows | packages/shared/src/shared/reimbursement/repository.py:34-43 | In crash-free runs the unguarded UPDATE, over-ceiling escalation included, only ever hits pending rows |
| LinearToken.ApprovalIsFinal | packages/shared/src/shared/reimbursement/use_cases/review_reimbursement.py:34 | human-approved and auto-approved are absorbing: the whole row stays as it was approved |
| LinearToken.ApprovedRowsNeverChange | packages/reimbursement/src/reimbursement/validation.py:103-105 | The same from an empty system: a row approved by a crash-free run is never changed by what follows |
| Orphans.PendingRowsAreNeverForgotten | packages/shared/src/shared/reimbursement/use_cases/publish_pending.py:68-116 | Unless the publisher crashes while a handler holds a row, every pending row is in a handler's hands, has a live message or is named in the failure log; the agent may crash at any time |
| Orphans.HandledMessageEvent | packages/reimbursement/src/reimbursement/validation.py:129-187 | An event on a live message for a row that stays pending leaves that message live, or a live successor of it, or a new record naming the row: it is never dropped as stale |
| Orphans.CrashOrphansExactlyTheWindow | packages/shared/src/shared/reimbursement/use_cases/publish_pending.py:68-84 | Whatever crashes came before, a publisher crash orphans a pending row that was still accounted for if and only if a handler of the crashed message held it and no live message or record speaks for it |
| Orphans.ForgottenForEver | packages/shared/src/shared/reimbursement/repository.py:132 | A pending row with no message, handler or record stays so in every later state of every run |
| Orphans.CrashBeforePublishOrphansForEver | packages/shared/src/shared/reimbursement/use_cases/publish_pending.py:68-80 | A crash after the insert's commit and before its publish leaves a row pending for ever, with no message, handler or record |
| Redelivery.MessagesForDecidedRowsAreStale | packages/reimbursement/src/reimbursement/validation.py:161-185 | As long as no message is taken up while another for the same pending row is in work, and no read fails on a decided row, every message for a decided row is older than its last change, with any crashes of either service |
| Redelivery.GuardedIffAllowed | packages/reimbursement/src/reimbursement/validation.py:157-187 | Those two hypotheses are exact: of all events, precisely the ones that meet them keep the staleness invariant |
| Redelivery.OneAgentHasNoTwin | packages/reimbursement/src/reimbursement/consumer.py:61-88 | An agent that has one message in hand at a time meets the first hypothesis |
| Redelivery.OneAgentRunsAreAllowed | packages/reimbursement/src/reimbursement/consumer.py:61-88 | Every run of an agent that takes a message up only with nothing in hand, and meets no failed read on a decided row, meets both hypotheses throughout, with crashes of either service |
| Redelivery.GraphRunsIffPending | packages/reimbursement/src/reimbursement/validation.py:176-185 | Under the staleness invariant a read lets the graph run exactly when the row is pending |
| Redelivery.FirstDecisionStands | packages/shared/src/shared/reimbursement/repository.py:34-43 | A decided row changes at an event if and only if the event is a review of that row or a successful over-ceiling escalation of it |
| Redelivery.FirstDecisionSurvives | packages/reimbursement/src/reimbursement/consumer.py:61-88 | Over whole runs with crashes before any offset commit and any events about other rows, a decided row is unchanged at the end if and only if no event of the run reviewed it or escalated it past the ceiling |
| Limits.RestampingCanOverwriteAnApproval | packages/reimbursement/src/reimbursement/validation.py:257-259 | A run from an empty system in which a redelivered message whose read failed is restamped and overwrites a human approval |
| Limits.RestampedReadsAreFresh | packages/reimbursement/src/reimbursement/validation.py:253-276 | For every state: below the ceiling, a failed read on any existing row, republished and read again, passes the staleness check and is about to be decided |
| Limits.OverCeilingCanOverwriteADecision | packages/reimbursement/src/reimbursement/validation.py:103-104 | A run from an empty system in which an over-ceiling escalation drags an auto-approved row back to human review |
| Limits.OverCeilingIgnoresStatusAndStamp | packages/reimbursement/src/reimbursement/validation.py:103-104 | For every state, a successful over-ceiling escalation puts its row at human-review whatever its status, and counts it as leaving pending |
| Limits.TwoHandsCanOverwriteADecision | packages/reimbursement/src/reimbursement/validation.py:157-187 | A run from an empty system, with no failed read of a decided row and nothing over the ceiling, in which two messages of one pending row are in work together and the second overwrites the decision of the first |
| Limits.DeleteCanComeTooLate | packages/shared/src/shared/reimbursement/use_cases/publish_pending.py:87-130 | A crash-free run from an empty system in which a publish reported as failed has reached the agent: the compensating delete works, the row stays auto-approved, and the failure log is empty |
| Limits.DecisionCanComeTooLate | packages/reimbursement/src/reimbursement/validation.py:183-241 | A crash-free run from an empty system in which the delete falls between the read and the write: the message is resolved, the row is gone, the failure log is empty |
| Limits.UncountedReviewBreaksTheCounter | packages/api/src/api/reimbursement/update/route.py:101-122 | A crash-free run from an empty system after which the transition counter no longer accounts for the rows |
| Limits.HeedingRunsAreClean | packages/shared/src/shared/reimbursement/use_cases/apply_decision.py:26-41 | If no event of a run is a failed read on a decided row, an over-ceiling escalation of one, or the taking up of a second message of a pending row, then no agent write of the run hits a decided row |
| Limits.FailedReadOfADecidedRowIsHarmful | packages/reimbursement/src/reimbursement/validation.py:246-276 | For every reachable state and any retry: after a read that fails on a decided row a continuation exists whose next event is an agent write on a decided row |
| Limits.TwinsAreHarmful | packages/reimbursement/src/reimbursement/validation.py:157-187 | For every reachable state: while two messages of one pending row are in work, wherever their handlers stand, a continuation exists whose next event is an agent write on a decided row |
| Limits.NotHeedingIsHarmful | packages/reimbursement/src/reimbursement/validation.py:98-187 | The condition is exact: an event that does not meet it is itself an agent write on a decided row or makes one reachable |
| Termination.AtMost25HandlingsPerItem | packages/publisher/src/publisher/processing.py:130 | For every key, in crash-free API traffic: items of that key settled plus messages handled for rows inserted under it never exceed 25 per item submitted with that key, however the faults fall |
| Termination.SettledItemsAreCounted | packages/publisher/src/publisher/processing.py:200-222 | An item event adds one handling exactly if it settles an item one looks at |
| Termination.HandledMessagesAreCounted | packages/reimbursement/src/reimbursement/validation.py:98-107 | A message event adds one handling exactly if it ends the handling of a message one looks at |
| Termination.ArrivalsAreCounted | packages/api/src/api/reimbursement/create/route.py:77-93 | What a post submits is the number of its items with the key, unless the publish was lost |
| Termination.CreditStep | packages/publisher/src/publisher/processing.py:337-348 | No crash-free event increases what is still owed to the items one looks at, beyond 25 per such item newly submitted, as long as their messages belong to them |
| Termination.EventBurnsFuel | packages/reimbursement/src/reimbursement/validation.py:253-259 | Every crash-free internal event strictly decreases a weight in which a retry is worth less than its original |
| Termination.RunsAreFinite | packages/shared/src/shared/config.py:17 | A crash-free run without new input is no longer than the weight it started with |
| Termination.NeverStuck | packages/publisher/src/publisher/processing.py:200-266 | While any offset is uncommitted some crash-free internal event is possible |
| Termination.UnfedRunsDrain | packages/publisher/src/publisher/processing.py:200-266 | A crash-free run without new input has at most as many events as its fuel, and if it can go no further both topics are drained |
| Termination.DrainedPendingRowsAreNamed | packages/shared/src/shared/reimbursement/use_cases/publish_pending.py:68-116 | Once both topics are drained, every row still pending is named in the failure log, unless a publisher crash killed a handler that held a row |
| HistoryShape.HistoriesKeepTheirShape | packages/shared/src/shared/reimbursement/use_cases/publish_pending.py:71-77 | In every run of API traffic: errors = retry on Request, retry + base with base <= 3 on Reimbursement, attempts numbered 1..n; a row escalated by the publisher shows four publisher stages, one escalated by the agent over the ceiling up to three of them and four resolves, one whose decision failed ends in decide, and the agent's two only if a message was ever published for the row |
| HistoryShape.RowsInReviewAreExplained | packages/shared/src/shared/reimbursement/use_cases/send_human_review.py:66-83 | In every run of API traffic every row at human-review says why: a rule, or attempts numbered from 1 that are four failures of the publisher for a row never published, at most three of them and four failed reads, or at most three of each and the one failed decision |
| HistoryShape.DecideEndsTheHistory | packages/reimbursement/src/reimbursement/validation.py:239 | A decision failure adds exactly one last entry, stage decide, numbered one past the entries before it |
| Ledgers.LedgersAreHonest | packages/shared/src/shared/reimbursement/use_cases/apply_decision.py:26-41 | In every state of every crash-free run the audit trail agrees with every row, and if every committed review was counted, rows = inserted there + transitions in - transitions out for every non-pending status |
| Ledgers.FlowBreaksExactlyAtUncountedReviews | packages/api/src/api/reimbursement/update/route.py:101-122 | A crash-free event breaks that balance if and only if it is a committed review whose re-read failed, so that it is never counted, and that moved the row between statuses |
| Ledgers.FlowIsACount | packages/shared/src/shared/reimbursement/use_cases/apply_decision.py:26-41 | The counter's law in numbers: rows at a status and transitions that left it are as many as transitions to it and rows inserted there |
| Ledgers.LabelsAreTrue | packages/shared/src/shared/reimbursement/use_cases/apply_decision.py:37-40 | In crash-free runs the hardcoded pending label, and the label a review reports, is always the row's true previous status |
| Ledgers.AuditStep | packages/shared/src/shared/reimbursement/use_cases/review_reimbursement.py:57-96 | One event keeps: each row's history is rejected* approved?, its human status matches the last entry, approved rows have all receipts columns |
| Ledgers.ReceiptsAreNeverErased | packages/shared/src/shared/reimbursement/repository.py:34-118 | In every run, crashes included, a receipts column once filled stays filled while its row exists |
| Ledgers.DeletedForEver | packages/shared/src/shared/reimbursement/repository.py:132 | A deleted uuid never names a row again |
| Services.Pipeline.PublishPending | packages/shared/src/shared/reimbursement/use_cases/publish_pending.py:26-84 | The handler takes exactly the protocol steps its faults select and raises exactly the exception that ends them |
| Services.Pipeline.Compensate | packages/shared/src/shared/reimbursement/use_cases/publish_pending.py:87-130 | Deletes the row only if still pending; a failed delete is a record naming uuid and item; never raises |
| Services.Pipeline.ProcessItem | packages/publisher/src/publisher/processing.py:200-222 | Every failure becomes an outcome, and the state reached is the run its faults select |
| Services.Pipeline.EscalateItem | packages/publisher/src/publisher/processing.py:225-266 | Past the ceiling an item is inserted at human-review with the envelope's whole history, dropped as duplicate or logged; nothing is published or requeued |
| Services.Pipeline.HandleItem | packages/publisher/src/publisher/processing.py:127-131 | The envelope's retry selects the handler, and each comes to the outcome and the run that its faults select |
| Services.Pipeline.Requeue | packages/publisher/src/publisher/processing.py:322-371 | Appends one envelope at retry + 1 with the error appended and this item alone, or a record if that publish fails too |
| Services.Pipeline.EscalateRow | packages/reimbursement/src/reimbursement/validation.py:117-154 | Write failure and ghost both end in a record naming the uuid; success puts the row at human-review; never raises |
| Services.Pipeline.ReadAndGuard | packages/reimbursement/src/reimbursement/validation.py:160-187 | Ghost if the row is absent, stale if published before the row's last update, otherwise on to the decision; nothing is written |
| Services.Pipeline.RequeueMessage | packages/reimbursement/src/reimbursement/validation.py:246-276 | Republishes the uuid at retry + 1, restamped, with one resolve entry appended, or logs |
| Services.Pipeline.DecideRow | packages/reimbursement/src/reimbursement/validation.py:190-243 | Runs the decision graph on the oracle the table determines; its one decision is written whole, or the failure is logged and escalated at once |
| Services.Pipeline.HandleMessage | packages/reimbursement/src/reimbursement/validation.py:98-107 | Any message is handled to an outcome by exactly the run its faults select |
| Effects.EscalateItemDoes | packages/publisher/src/publisher/processing.py:225-266 | After the publisher's escalation the table is the old one and one row with the item's key, at human-review, whose reason is the envelope's whole history; or a record carries the item |
| Effects.DecideDoes | packages/shared/src/shared/reimbursement/repository.py:34-43 | A decision sets status, reason and stamp, stores the columns it has over those the row had, is counted once, and does nothing when the row is gone |
| Effects.ReviewRowDoes | packages/shared/src/shared/reimbursement/repository.py:90-130 | A review is possible exactly at the three eligible statuses with the columns an approval needs; the row then carries the reviewer's words, and the transition its true previous status |
| Effects.RequeueItemDoes | packages/publisher/src/publisher/processing.py:322-371 | A requeue is one envelope at retry + 1 with this item alone and the failure appended, and a record of the item unless it was acknowledged |
| Uninterrupted.ItemComesTo | packages/publisher/src/publisher/processing.py:200-266 | What one item comes to for every combination of faults, on either side of the retry ceiling |
| Handling.FailedDecisionReachesAHuman | packages/reimbursement/src/reimbursement/validation.py:190-243 | Once a decision has failed, whatever else happens before the escalation: the handling ends, a record names the uuid, and the row is at human-review with a history ending in stage decide and its receipts untouched, or the escalation failed or the row is gone, the table is unchanged and a second record names the uuid |
| Handling.NoPartialDecisionIsStored | packages/reimbursement/src/reimbursement/validation.py:157-243 | Over any run without an agent crash on the message, everything else included, its handler changes the table at most once, and that change is one complete decision or one explained escalation of its row |
| Handling.RowGetsThePolicysDecision | packages/reimbursement/src/reimbursement/validation.py:183-241 | In crash-free runs, whatever happens between the read and the write: the row is as it was read or has been compensated away; if there, it gets the status and reason the policy prescribes with every extracted column stored if and only if payload, model calls and database work and the columns take the values; if gone and they work, nothing is written and the message is resolved; otherwise the decision has failed |
| Handling.ExtractedColumnsAreStored | packages/reimbursement/src/reimbursement/agent/nodes/apply_policies.py:79-100 | When the decision is stored, the row has the extracted amount if it is finite and not negative, the extracted date and the extracted currency, and keeps its own where there is none |
| Handling.DecidesIff | packages/reimbursement/src/reimbursement/validation.py:190-243 | The decision is stored exactly if the payload is read, the extraction came, the database works, the columns take the values, and a verdict came if the amount is NaN or between 200 and 2000 on a receipt no older than 90 days |
| Handling.HandlingIsAccountedFor | packages/reimbursement/src/reimbursement/validation.py:190-243 | In crash-free runs, with anything happening before the graph raises and before the escalation: the row ends at human-review with the columns it had when it was read, or a record says that it could not be escalated |
| Handling.RowWaits | packages/reimbursement/src/reimbursement/validation.py:157-187 | Without crashes the row of a message in work stays as it is until its own handler writes, or a compensating delete removes it |
| Handling.CompensationUndoesTheInsert | packages/shared/src/shared/reimbursement/use_cases/publish_pending.py:68-130 | Whatever happens between the insert and the delete: the inserted row is removed if and only if the delete works and no agent write reached the row first; a failed delete leaves the row and a record naming it; a delete that works too late leaves the decided row and no record |
| Handling.PendingIffUnreached | packages/shared/src/shared/reimbursement/repository.py:132 | Over any run, a pending row that is still there at the end is still pending if and only if no agent write reached it |
| DecisionGraph.Run | packages/reimbursement/src/reimbursement/agent/agent.py:81-101 | For every extraction, date, verdict and write result the wired graph ends, never reads an unset key, decides once, calls apply_decision once with the policy's status, reason and guarded columns, and consults the guardrail exactly in its zone |
| DecisionGraph.EveryWalkEnds | packages/reimbursement/src/reimbursement/agent/agent.py:81-101 | Every walk along the wired edges, conditional ones included, has at most seven nodes, and until it is at END it can go on: END is reached from every node on every path |
| DecisionGraph.EnteredOnlyFrom | packages/reimbursement/src/reimbursement/agent/agent.py:81-101 | The edges into the write node come from validation and judgment alone, into judgment from the policies alone, into END from the policies and the write node; whatever a router answers is in its path map |
| DecisionGraph.RunValidate | packages/reimbursement/src/reimbursement/agent/nodes/validate.py:16-36 | Reports exactly the missing required fields, in order, and decides human-review if there are any |
| DecisionGraph.RunApplyPolicies | packages/reimbursement/src/reimbursement/agent/nodes/apply_policies.py:33-112 | At most one rule fires, rejection first; it writes once with the guarded value, or asks for judgment and writes nothing |
| DecisionGraph.PolicyBoundaries | packages/reimbursement/src/reimbursement/agent/nodes/apply_policies.py:49-75 | Rejected if and only if older than 90 days; NaN is always judged; nothing above 2000 is auto-approved; between the thresholds only a verdict approves |
| DecisionGraph.PolicyInNumbers | packages/reimbursement/src/reimbursement/agent/nodes/apply_policies.py:49-75 | For every amount, infinities and NaN included: older than 90 days is rejected with its age, up to 200 approved, above 2000 held, and exactly what lies between, with NaN, is judged |
| DecisionGraph.IncompleteIsHeld | packages/reimbursement/src/reimbursement/agent/nodes/validate.py:16-36 | Without an amount or a date the request is held for exactly the fields that are not there, and never judged |
| DecisionGraph.GraphFailsIff | packages/reimbursement/src/reimbursement/agent/agent.py:177-200 | The graph raises exactly if the extraction did not come, or a verdict it needs did not, or the database fails, or the row is there and its columns refuse the values |
| DecisionGraph.GuardedValueFitsIff | packages/reimbursement/src/reimbursement/agent/nodes/apply_policies.py:79-84 | The guarded value is one NUMERIC(14,2) takes if and only if it is not plus infinity and not an amount that rounds to 10^12 or more |
| ReviewTransactions.ReviewService.Review | packages/shared/src/shared/reimbursement/use_cases/review_reimbursement.py:37-96 | Both writes or neither; refusals tell an unknown row from an ineligible one |
| ReviewTransactions.ReviewService.Put | packages/api/src/api/reimbursement/update/route.py:60-122 | The answer is determined: mismatch, unknown row, ineligible row, failed write, committed but unread, or the true previous status and the new one; a refusal changes and counts nothing, an unexpected failure is logged, a success is counted unless the re-read fails |
| ReviewTransactions.CommitIsOneAtomicReview | packages/shared/src/shared/reimbursement/use_cases/review_reimbursement.py:57-70 | Interleaved transactions refine the atomic one: a commit is exactly one eligibility-gated review of the committed table, and no other step shows |
| ReviewTransactions.UndisturbedReviewCommits | packages/shared/src/shared/reimbursement/use_cases/review_reimbursement.py:57-96 | A transaction that meets an unlocked, eligible row and no fault commits, and leaves the reviewer's status, words, stamp and columns on the row and one entry on the trail |
| ReviewTransactions.LateUpdatesRollBack | packages/shared/src/shared/reimbursement/use_cases/review_reimbursement.py:11-16 | An UPDATE that finds its row approved, pending or gone rolls back and changes nothing |
| ReviewTransactions.TrailAgreesUnderAnyInterleaving | packages/shared/src/shared/reimbursement/repository.py:90-130 | Over every interleaving with rollbacks the committed history of a row is rejected* approved?, matches its status, and approved rows have all receipts columns |
| ReviewTransactions.AtMostOneApprovalCommits | packages/shared/src/shared/reimbursement/use_cases/review_reimbursement.py:11-16 | Of any concurrent approvals of one row at most one commits |
| FanOut.ScheduleIndependent | packages/publisher/src/publisher/processing.py:180-197 | For distinct keys and fixed faults, invalid items and either handler included, every complete schedule leaves the same rows, messages, requeues, records and payload-ordered outcomes |
| FanOut.EachItemLeaves | packages/publisher/src/publisher/processing.py:180-222 | After any complete schedule of distinct keys, by each item's own faults: whether its key is in the table, its message out, it was requeued, and a record written |
| FanOut.ExactlyOneWinsPerNewKey | packages/publisher/src/publisher/processing.py:200-222 | Fault-free with repeated keys, each new key of a valid item is published, or over the ceiling escalated, by exactly one item; every other valid item is a DUPLICATE and every invalid one is INVALID |
| FanOut.ConnectionsNeverExceedConcurrency | packages/publisher/src/publisher/processing.py:185-189 | Connections held never exceed the semaphore's limit, and every permit is back at the end |
| FanOut.ConnectionsAreCounted | packages/publisher/src/publisher/processing.py:185-189 | At most as many handlers as the limit are inserting, publishing or undoing at once |
| FanOut.NeverBlocksIffAPermitExists | packages/publisher/src/publisher/processing.py:185-189 | The fan-out can always go on until all items settle if and only if its semaphore has a permit to give or the batch is empty |
| FanOut.SchedulesAreFinite | packages/publisher/src/publisher/processing.py:180-197 | Each item runs once: every schedule is bounded by the awaits its handlers have left |
| FanOutRuns.MoveIsARun | packages/publisher/src/publisher/processing.py:180-222 | One move of one handler is one event of the pipeline, or none when it gets its permit: outcomes, keys in the table, keys published, requeued and recorded agree again afterwards |
| FanOutRuns.ScheduleIsARun | packages/publisher/src/publisher/processing.py:180-197 | Every schedule of a batch is a run of the pipeline in which only that batch's handlers move |
| FanOutRuns.SchedulesEndAlike | packages/publisher/src/publisher/processing.py:180-266 | From any reachable state, for distinct keys and fixed faults, any two complete schedules are runs that end with the same outcomes in payload order, the same keys in the table, and messages, requeues and records for the same keys |
| ConsumeLoop.Consumer.Run | packages/publisher/src/publisher/consumer.py:74-120 | The loop of either service is the session its polls, crashes and stop flag select |
| ConsumeLoop.OrdinaryTurnsDoTheWork | packages/publisher/src/publisher/consumer.py:85-120 | k messages in k ordinary turns are all handled, completed and committed, each once and in log order, by either loop |
| ConsumeLoop.GuardedTurnsGoOn | packages/publisher/src/publisher/consumer.py:100-120 | k messages whose handlers all raise are handled and committed by the guarded loop, and none is completed |
| ConsumeLoop.TurnDoes | packages/reimbursement/src/reimbursement/consumer.py:61-88 | Every turn, by what it meets: nothing after the flag or without a message; a death before the handler ends leaves no trace, one after it leaves the message uncommitted, and so does an exception in the unguarded loop |
| ConsumeLoop.RestartRedelivers | packages/publisher/src/publisher/consumer.py:74-120 | A restarted process takes up whatever was not committed |
| ConsumeLoop.Consumer.RunSessions | packages/publisher/src/publisher/consumer.py:74-120 | Any number of processes in succession, each resuming at the committed offset, keep: every committed offset was handled to an end, in log order |
| ConsumeLoop.CommittedMeansHandled | packages/reimbursement/src/reimbursement/consumer.py:61-88 | Over any succession of processes of either loop the handler of every message below the committed offset came to an end at least once, by returning or by raising, in log order |
| ConsumeLoop.CommittedMeansCompletedIff | packages/publisher/src/publisher/consumer.py:100-120 | Every committed message was handled without an exception if and only if no turn committed one whose handler raised and that no earlier delivery had completed |
| ConsumeLoop.PublisherLoopCanSwallow | packages/publisher/src/publisher/consumer.py:100-120 | One message whose handler raises: the publisher commits it uncompleted, the agent does not |
| ConsumeLoop.UnguardedLoopsCompleteWhatTheyCommit | packages/reimbursement/src/reimbursement/consumer.py:61-88 | The agent's loop, which does not absorb exceptions, commits only what completed |
| ConsumeLoop.NothingAfterTheStopFlag | packages/publisher/src/publisher/consumer.py:74-89 | Once the loop sees the stop flag nothing is consumed, handled or committed, whatever would have come |
| ConsumeLoop.CheckPublisher | packages/publisher/src/publisher/consumer.py:32-48 | The publisher boots exactly with a database and a pool no smaller than its concurrency |
| Json.ValueExtends | packages/api/src/api/reimbursement/create/producer.py:15-19 | A value read from a text is read unchanged whatever is appended that cannot prolong a number; this is why splicing is safe |
| JsonGrammar.ParserIsTheGrammar | packages/api/src/api/reimbursement/create/producer.py:15-19 | A text parses to a value if and only if the grammar derives that text with that meaning |
| JsonGrammar.TerminalsAre | packages/api/src/api/reimbursement/create/validation.py:25-31 | The characters and numbers the grammar allows, by the ranges and alternatives of RFC 8259 |
| JsonGrammar.DerivationsParse | packages/api/src/api/reimbursement/create/validation.py:25-31 | Whatever the grammar derives, white space, escapes, paired surrogates and numbers of every form included, is read with the derivation's meaning |
| JsonGrammar.DeriveValue | packages/api/src/api/reimbursement/create/validation.py:25-31 | Whatever is read has a derivation with the same meaning |
| JsonPrinter.DumpsDerives | packages/api/src/api/reimbursement/create/producer.py:25 | Whatever json.dumps prints is a text of the grammar and means the value printed |
| JsonPrinter.DocumentRoundTrip | packages/shared/src/shared/failure_log.py:56-59 | json.loads after json.dumps is the identity on every value that has a text |
| EnvelopeSplice.SpliceRoundTrip | packages/api/src/api/reimbursement/create/producer.py:14-33 | For every well-formed body, stamp and optional id the envelope parses to exactly five members: retry 0, the stamp, that id or null, no errors, the parse of the body |
| EnvelopeSplice.SpliceIsExact | packages/api/src/api/reimbursement/create/producer.py:14-33 | The envelope is a well-formed text meaning those five members with payload x if and only if the body is a well-formed text meaning x |
| EnvelopeSplice.ConsumerReadsWhatTheApiAccepted | packages/shared/src/shared/models.py:90-108 | RequestEnvelope reads back retry 0, the same id, empty errors and the body's own items |
| EnvelopeSplice.EachFieldIsRead | packages/shared/src/shared/models.py:90-108 | An envelope of any attempt is read field by field: retry, stamp, id or none, errors and items |
| EnvelopeSplice.PayloadMemberIsTheBody | packages/api/src/api/reimbursement/create/producer.py:15-19 | For every well-formed body the envelope has a derivation with five members whose fifth is named payload and whose value's text is the body, character for character |
| EnvelopeSplice.UnvalidatedBodyCanOverwriteTheRetryCount | packages/api/src/api/reimbursement/create/route.py:66-85 | Without prior validation a body exists that is read as a fifth attempt with no items |
| HistoryPrinter.OneLineKeepsTheWords | packages/shared/src/shared/reimbursement/use_cases/send_human_review.py:15-23 | Flattening keeps every word in order, leaves no line break, and is idempotent |
| HistoryPrinter.AttemptLineReads | packages/shared/src/shared/reimbursement/use_cases/send_human_review.py:46-51 | Whatever its error's text, a line reads back as the attempt's number, time and stage |
| HistoryPrinter.HistoryCannotBeForged | packages/shared/src/shared/reimbursement/use_cases/send_human_review.py:26-52 | The text has exactly one title and one line per attempt, which reads back as its number, time and stage and ends with its error type and the whole flattened message, or the first characters of it that fit the limit |
| HistoryPrinter.OwnWords | packages/shared/src/shared/reimbursement/use_cases/send_human_review.py:26-45 | The four stage names, both titles with their count and the sentence without a history, word for word |
| HistoryPrinter.WordsFallApart | packages/shared/src/shared/reimbursement/use_cases/send_human_review.py:15-23 | At any white character a text falls apart into the words before it and the words after it |
| HistoryPrinter.NoHistoryNoAttempts | packages/shared/src/shared/reimbursement/use_cases/send_human_review.py:43-44 | Without errors the sentence is one line and reads as no attempt |
| HistoryPrinter.ReviewersReadTheWholeHistory | packages/shared/src/shared/reimbursement/use_cases/send_human_review.py:66-83 | In every run of API traffic a row at human-review that no rule sent there has a history, which splits into its title and attempts 1..n in order, n at most seven |
| FailureLog.TruncationIsAProjection | packages/shared/src/shared/failure_log.py:23-38 | Idempotent; its fixed points are exactly the values whose strings, keys and depth fit |
| FailureLog.CutValueByValue | packages/shared/src/shared/failure_log.py:23-38 | A text is cut to its first characters, an array element by element, and whatever is below the tenth level becomes the marker |
| FailureLog.FittingIsShallow | packages/shared/src/shared/failure_log.py:24-25 | A truncated value nests at most eleven levels |
| FailureLog.ShortKeysKeepTheirValue | packages/shared/src/shared/failure_log.py:28-35 | A key shorter than the limit finds its own value after the cut: no longer key can take its place |
| FailureLog.KeysAtTheLimitCollide | packages/shared/src/shared/failure_log.py:32-35 | At a key exactly as long as the limit a longer key overwrites it |
| FailureLog.RecordNamesItsItem | packages/publisher/src/publisher/processing.py:136-147 | A record names its item by the raw id cut to the limit, hence exactly if and only if the raw id fits |
| FailureLog.RecordCarries | packages/publisher/src/publisher/processing.py:136-147 | A record carries the event, the index, the id or null, the item and the errors, each under its name |
| FailureLog.WrittenLineReadsBack | packages/shared/src/shared/failure_log.py:56-59 | The one line written reads back as the truncated record |
| FailureLog.BareIdsSurvive | packages/shared/src/shared/models.py:54-59 | An id sent without padding is always logged in full |
| FailureLog.PaddedIdIsLost | packages/shared/src/shared/models.py:54-59 | A valid id padded past the limit is logged as blanks |
| Payload.ReadCapped | packages/api/src/api/reimbursement/create/payload.py:6-24 | The whole body exactly when within the ceiling; never more than the ceiling is buffered, and the chunk that crosses it is the last one read |
| Payload.ExtractOrGenerate | packages/api/src/api/middleware.py:28-39 | Only the first correlation header counts, cut to 128 characters before it is judged; otherwise the generated id |
| Payload.FirstHeaderDecides | packages/api/src/api/middleware.py:28-39 | The first x-request-id header in any case decides: its first 128 characters are the id if not empty and free of line ends, and otherwise, or without such a header, the generated id is |
| Payload.EveryIdIsSafe | packages/api/src/api/middleware.py:28-56 | Every id is non-empty, at most 128 Latin-1 characters and free of line ends |
| Payload.SplicingBytesIsSplicingText | packages/api/src/api/reimbursement/create/producer.py:24-33 | Splicing bytes and encoding in UTF-8 commute |
| Payload.AcceptedBodiesFitTheBroker | packages/shared/src/shared/config.py:15-16 | Every accepted body under every id makes a message below the broker's limit, at most 872 bytes over the body |
| Payload.TheBoundIsReached | packages/api/src/api/reimbursement/create/producer.py:24-33 | 872 is exact |
| Payload.AcceptedBodiesReadBack | packages/api/src/api/reimbursement/create/route.py:65-93 | From the client's chunks to the consumer a valid body is read back item for item |
| SharedProducer.VerdictMeansSettled | packages/shared/src/shared/producer.py:64-77 | When publish returns its own message is stored or refused, never queued; success if and only if not refused and nothing is pending, and success means stored |
| SharedProducer.PublishIsThreeValued | packages/reimbursement/src/reimbursement/validation.py:260-274 | Every publish is delivered, lost, or delivered and reported failed: on the topic exactly when it reached, raising exactly when not acknowledged |
| SharedProducer.DeliveredWhenAcknowledged | packages/shared/src/shared/producer.py:64-77 | A stored and acknowledged message with nobody else waiting is delivered |
| SharedProducer.LostWhenNothingIsHeard | packages/shared/src/shared/config.py:117-118 | Without a word from the broker the message times out before its caller does: refused and not on the topic |
| SharedProducer.Producer.ProduceAndFlush | packages/shared/src/shared/producer.py:64-77 | The call is one produce and one flush of the queue all callers share, and its verdict counts every pending message |
| SharedProducer.DeliveredYetRefused | packages/shared/src/shared/producer.py:67-77 | A stored message whose acknowledgement is lost is reported failed |
| SharedProducer.DeliveredYetOthersPending | packages/shared/src/shared/producer.py:73-75 | A stored and acknowledged message is reported failed when another caller's message is pending at the deadline |

## Left out

- Model calls, prompts and LangFuse: a model returns an extraction or a verdict, or raises.
- Kafka and Postgres internals: a write is atomic with a known outcome, the unique index and the CHECK constraints are its preconditions; a commit whose outcome the client never learns is not modelled.
- A record the broker appends after the client has already given up on it: in the protocol a delivery happens at the publish or not at all.
- Exceptions of a requeue other than `PublishFailed`, which nothing in the handlers catches.
- HTTP routing, error bodies, email and date validation: one flag per item says whether the request model accepts it.
- Malformed, empty and null messages on either topic: each is one branch that logs and returns.
- Request messages not written by the API are in the protocol (event `Foreign`), Reimbursement messages not written by this system are not.
- Logging, tracing, histograms, the status gauge and its throttle; of the metrics only the transition counter is kept.
- Listing, fetching, pagination and the migration runner.
- The accuracy of `from_status` under two concurrent reviews of one row: the counter laws take reviews one at a time.
- The date the graph reads and the date the database checks a receipt against are taken to be the same day.
- The rounding of amounts to two decimals, and decimal against binary fractions: amounts are reals, with NaN and infinities kept apart.
- Wording of rule reasons: a reason is kept as its parts and only the error history is rendered to text.
- The 64-character CHECK on `request_id`: such an item's insert fails every time and takes the modelled path of a failing insert.
- JSON texts with lone surrogates and Python's NaN and Infinity extensions are refused by the parser here; pydantic's lax coercions, its nesting limit and the model of a single AttemptError are not modelled.
- Payload.SplicingBytesIsSplicingText: UTF-8 is only written, not read, so a body's bytes are given as the encoding of a text.
- Values in a failure record that are not JSON values, and the fallback logger.
- An exception that escapes a handler: the item handlers and the message handler of the protocol always end in an outcome, as documented; only the consume loops model an exception escaping from one.
- An exception raised after a decision write has committed, for example on giving the connection back: the escalation that follows would then hit a decided row even in a crash-free run. A write here either commits and returns or does neither.
- `updated_at` is the time a review's transaction began; a review here is one step and is stamped when it commits.
- FanOut.ScheduleIndependent: no agent is at work while a batch is fanned out, so its delete always finds the row pending; the fan-out is a transition system over the handlers' awaits rather than a loop, because its order is chosen by the event loop; aliasing of the shared pool and producer is not captured.
- The graph library's own state merging: a node returns its whole next state.
