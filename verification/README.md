# Verified model of the outbox-to-consumer pipeline

A Dafny model of how an HTTP request becomes exactly one stored message: the gateway's
transactional outbox, the fenced relays that publish outbox rows, the broker and its topology, the idempotent
consumer with its durable retry budget, and the messaging service's own outbox. `dafny verify
dfyconfig.toml` checks everything.

## How it is organised

Each half of the pipeline is a state machine whose steps are single SQL statements and single
broker interactions, so any number of relays, overlapping ticks, concurrent handlers, crashes
and operator actions interleave freely. Main results hold in every reachable state or over
every run. Code that works in place is modelled as classes whose methods follow the source's
control flow; separate lemmas show that those methods are runs of the state machines.

| file | part |
|---|---|
| `OutboxTable.dfy` | one outbox table and its statements (both services run the same SQL) |
| `RelayProtocol.dfy`, `RelayTheorems.dfy`, `RelayRecovery.dfy` | the relay state machine, its invariant, its theorems |
| `OutboxRelay.dfy`, `DrainBound.dfy` | one relay's tick as a loop, its refinement, drain speed |
| `RetryPolicy.dfy`, `Topology.dfy` | back-off arithmetic; exchanges, queues, routing |
| `SchemaVersion.dfy`, `Contracts.dfy`, `ContractDispatch.dfy` | version resolution, validation, upcast |
| `ConsumerProtocol.dfy`, `ConsumerInvariants.dfy`, `ConsumerBudget.dfy`, `ConsumerTheorems.dfy` | the consumer state machine |
| `ErrorClassifier.dfy`, `IdempotentTransaction.dfy`, `MessagingController.dfy`, `HandlerRefinement.dfy` | the handler and its services as classes, and their refinement |
| `GatewayAcceptance.dfy` | the acceptance of a request as classes |
| `Pipeline.dfy`, `PipelineTheorems.dfy`, `PipelineEffects.dfy`, `PipelineRecovery.dfy` | the composition and the end-to-end theorems |
| `HandlerPersists.dfy` | the handler class as a run of the whole pipeline |
| `LifecycleSubscriber.dfy` | the test-support subscriber: waiters against the record log |

## Where code and prose disagree, and what is false

* The gateway may publish before the messaging service has declared the topology. Between the
  declaration of the main exchange and the binding of the work queue
  (apps/messaging/src/reliability/topology.service.ts:75-117) a publish is confirmed and dropped,
  and its row becomes `sent`. So "an accepted event is never lost" is false on a new broker:
  `PipelineTheorems.LostExactlyWhen` says exactly when a sent event is lost,
  `PipelineRecovery.CanTakeEffectExactly` exactly when an accepted event is beyond help, and
  `PipelineRecovery.StrandedRun` is the failing run. In runs in which every publish finds the
  queue bound nothing is lost (`PipelineTheorems.NeverLost`), and once the topology stands
  nothing more is dropped (`StandingTopologyDropsNothing`).
* `markSent` compares only the token. If it takes effect and its reply is lost, the same
  claimant then records a failure and takes the row out of `sent` again. So "sent is final"
  is false in general: `RelayTheorems.SentUndoneExactlyWhen` is the exact condition for a step,
  `SentIsFinalExactly` for all runs in which no further such reply is lost, and
  `LostAckUndoesSent` with `ConfirmedClaimReachable` the failing run.
* A row's lock columns decide nothing: `claimBatch` reads neither, and the reaper does not
  touch the token (`RelayTheorems.LocksUnobservable`, `ReaperIsRedundant`).
* With a batch size of zero or less nothing is ever published; a row is recoverable in every
  reachable state if and only if the batch size is at least one
  (`RelayRecovery.RecoverableIffBatches`).
* `clearAttempts` runs inside the handler's `try`, after the commit, and a redelivery of a
  processed event opens a transaction like any other. So "processed" and "dead-lettered" do not
  exclude each other: `MessagingController.DeadLetteredThoughProcessed` is the exact condition on
  the faults of a delivery, `ProcessedAndDeadLettered` and `RedeliveryDeadLetters` two inputs.
* A transaction that reports an exception may have committed; one whose connection release
  throws after the commit does (`IdempotentTransaction.ResultTellsEffect`).
* A version 1 event is refused by the consumer exactly when a header (or its own field) claims
  version 2 (`ContractDispatch.V1ConsumedExactlyWhen`). Comments at
  apps/gateway/src/app.controller.ts:235-240 say that the relay derives `x-schema-version`
  from the event type; `publishOne` sets no such header, and the model follows it.
* The dead-letter exchange is bound to the dead-letter queue only
  (apps/messaging/src/reliability/topology.service.ts:124); the diagram at
  libs/contracts/src/topology/topology.ts:21-23 shows it feeding the work queue.
* A lifecycle record whose content is the literal `null` is logged, and makes later `waitFor`
  calls throw unless a match comes before it (`LifecycleSubscriber.FindRaisesExactly`). It also
  makes the timeout message raise: a call whose timer fires is rejected if and only if no record
  so far is null, and otherwise is off the list and never settled
  (`LifecycleSubscriber.TimerDecides`, `NullRecordAbandonsACall`).

## Assumptions

* The clock is monotone within each service. Row ids, event ids, times and relay names are
  inputs; fresh ids are fresh.
* `dataSource.query` returns the RETURNING rows, as the source declares. RETURNING gives the
  claimed rows in no particular order, so a claim's selection is a property of a set.
* The broker keeps confirmed messages it has put into a queue, and dead-letters atomically. A
  publish whose local call failed may still have reached it. It confirms and drops what no queue
  is bound for; a publish to an exchange that does not exist closes the channel.
* The topology only grows, from nothing to what is declared, in any order and as far as it gets.
  The messaging service handles messages once it stands (apps/messaging/src/main.ts:48-54).
* Lifecycle publishing swallows its failures
  (libs/contracts/src/lifecycle/event-lifecycle-publisher.ts:76-114), so it changes no outcome.
* A claim whose reply is lost is one whose publishes are abandoned.
* JSON encoding is the identity. The UUID and date-time syntax checks are arbitrary predicates.
* Postgres makes a second insert of an event id wait for, or fail on, the first.

## Model

| member | source | states |
|---|---|---|
| OutboxTable.ClaimSelectionExists | apps/messaging/src/outbox/outbox-relay.service.ts:238-258 | whatever rows other statements hold, a selection of at most the limit, earliest-due first and complete if it fits, exists |
| OutboxTable.Table.Insert | apps/gateway/src/outbox/gateway-outbox-transaction.service.ts:147-162 | refused exactly when another row has the event id; a new row is pending, due now, without attempts, token, lock, error or sent time |
| OutboxTable.Table.ClaimBatch | apps/messaging/src/outbox/outbox-relay.service.ts:234-267 | only pending due rows, earliest first, all of them if they fit; each gets the next token, lock time and owner and nothing else, and the snapshot carries its new token and its attempts |
| OutboxTable.Table.MarkSent | apps/messaging/src/outbox/outbox-relay.service.ts:421-435 | with the current token the row is sent and unlocked, its token, event, attempts and due time kept; otherwise, and for every other row, nothing changes |
| OutboxTable.Table.MarkFailedAttempt | apps/messaging/src/outbox/outbox-relay.service.ts:451-478 | with the current token one attempt more than the snapshot, failed exactly when that uses up the budget, else pending and due after the back-off; otherwise, and for every other row, nothing changes |
| OutboxTable.Table.ReapStaleLocks | apps/messaging/src/outbox/outbox-relay.service.ts:517-530 | unlocks exactly the pending rows locked for longer than the limit; no status, attempts, due time or token changes |
| OutboxTable.Table.Replay | apps/messaging/src/outbox/outbox-admin.service.ts:65-147 | exactly the failed rows asked for become pending, due now, with no attempts and no lock, and keep event and token |
| RetryPolicy.OutcomeFollowsBudget | libs/contracts/src/outbox/outbox-retry-policy.ts:44-60 | a failure dead-letters exactly when it uses up the budget max(1, max_attempts), and never exceeds it |
| RetryPolicy.DelayCurve | libs/contracts/src/topology/topology.ts:131-136 | the delay doubles from 2 s up to the fourth attempt and is 30 s from the fifth on |
| RetryPolicy.DelayForAnyAttempt | libs/contracts/src/topology/topology.ts:131-136 | for every whole attempt number, zero and negative included, the delay is positive, capped, and doubles up to the fourth attempt |
| RetryPolicy.TotalDelayClosedForm | libs/contracts/src/topology/topology.ts:119-136 | the summed delays in closed form for any number of attempts |
| RelayProtocol.RowMoves | apps/messaging/src/outbox/outbox-relay.service.ts:234-530 | a step changes a row's stage only as a replay of a failed row or as the close of the claim holding its token; only a claim of a due row issues a token |
| RelayProtocol.FencedKept | apps/messaging/src/outbox/outbox-relay.service.ts:385-478 | the fencing invariant over outstanding claims is inductive for any interleaving |
| RelayProtocol.ReachableInv | apps/messaging/src/outbox/outbox-relay.service.ts:185-530 | fencing, failure counting, confirmed delivery, back-off spacing and unique event ids hold in every reachable state |
| RelayTheorems.TokensFence | apps/messaging/src/outbox/outbox-relay.service.ts:234-267 | outstanding tokens of a row are distinct and issued, at most one is current, none is once the row failed, and one on a sent row only after its own lost reply |
| RelayTheorems.StaleClaimantInert | apps/messaging/src/outbox/outbox-relay.service.ts:362-385 | a claimant with an old token changes no row by any step it can take |
| RelayTheorems.SnapshotWriteIsIncrement | apps/messaging/src/outbox/outbox-relay.service.ts:451-478 | writing the snapshot's count plus one equals incrementing the stored count, and fails the row exactly at its budget |
| RelayTheorems.AttemptsCountFailures | libs/contracts/src/outbox/outbox-retry-policy.ts:44-60 | attempts is the number of failures recorded since the last replay; failed if and only if it equals the budget |
| RelayTheorems.SentMeansConfirmed | apps/messaging/src/outbox/outbox-relay.service.ts:307-377 | a sent row's token was confirmed by the broker, which received the row's event under it |
| RelayTheorems.SentMeansConfirmedInRun | apps/messaging/src/outbox/outbox-relay.service.ts:307-377 | every run that ends with a row sent has the step in which the broker receives the row's event under the row's final token, and the step in which it confirms it |
| RelayTheorems.CopiesAgree | apps/messaging/src/outbox/outbox-admin.service.ts:66-79 | all copies of a row ever published carry the same event; copies of one event id come from one row |
| RelayTheorems.SentUndoneExactlyWhen | apps/messaging/src/outbox/outbox-relay.service.ts:362-385 | a step changes a sent row if and only if it is the failure record of a claim whose effective markSent threw |
| RelayTheorems.SentIsFinal | apps/messaging/src/outbox/outbox-relay.service.ts:421-435 | over every run without a lost effective reply, a sent row never changes |
| RelayTheorems.SentIsFinalExactly | apps/messaging/src/outbox/outbox-relay.service.ts:362-385 | in every reachable state some run without a further lost reply changes a sent row if and only if its own markSent reply was lost and its claimant has yet to react |
| RelayTheorems.LostAckUndoesSent | apps/messaging/src/outbox/outbox-relay.service.ts:362-385 | from any confirmed current claim, a lost reply followed by the failure record takes the row out of sent |
| RelayTheorems.ConfirmedClaimReachable | apps/messaging/src/outbox/outbox-relay.service.ts:234-377 | such a claim is reachable for any event |
| RelayTheorems.FailuresAreSpaced | apps/messaging/src/outbox/outbox-relay.service.ts:246-247 | the k-th and the next recorded failure are at least the k-th delay apart |
| RelayTheorems.RetryDueExactly | apps/messaging/src/outbox/outbox-relay.service.ts:451-478 | a pending row with failures is due exactly its delay after the latest one |
| RelayTheorems.DeadLetterTakes | libs/contracts/src/outbox/outbox-retry-policy.ts:44-60 | a dead-lettered row took at least 2000*(2^(m-1)-1) ms (m up to 5), 30000*(m-4) ms (m from 5) since its first failure |
| RelayTheorems.LocksUnobservable | apps/messaging/src/outbox/outbox-relay.service.ts:237-264 | states equal up to the lock columns enable the same steps and stay equal up to them: a bisimulation |
| RelayTheorems.ReaperIsRedundant | apps/messaging/src/outbox/outbox-relay.service.ts:517-530 | a run is possible if and only if it is without its reaps, with the same outcome up to the lock columns |
| RelayRecovery.EveryRowCanBeSent | apps/messaging/src/outbox/outbox-relay.service.ts:185-267 | from every state with any row there is a continuation that sends it, publishing it once more if it was not sent, although other due rows may fill earlier batches |
| RelayRecovery.RecoverableIffBatches | apps/messaging/src/outbox/outbox-relay.service.ts:234-258 | all rows of all reachable states are recoverable if and only if the batch size is at least one |
| OutboxRelay.TickRowByRow | apps/messaging/src/outbox/outbox-relay.service.ts:185-206 | after part of a batch, done rows are settled by their own attempt, the rest stay claimed, others are untouched |
| OutboxRelay.TickIsRun | apps/messaging/src/outbox/outbox-relay.service.ts:185-385 | an undisturbed tick, with any faults, is a run of the interleaved protocol: same rows, same copies |
| OutboxRelay.OutboxRelay.PublishOne | apps/messaging/src/outbox/outbox-relay.service.ts:307-387 | throws exactly if something went wrong and recording the failure throws; the copy is the row's event; a stale claim changes nothing, a current one its own row only, sent or with one failure more or as it was, by the faults |
| OutboxRelay.OutboxRelay.RunRelayTick | apps/gateway/src/outbox/gateway-outbox-relay.service.ts:179-200 | goes through the whole batch whatever publishes fail, unless recording a failure throws, and then stops right there; a claim that throws ends the tick, with or without effect |
| DrainBound.FineTickConfirms | apps/messaging/src/outbox/outbox-relay.service.ts:185-206 | with a confirming broker a tick sends its batch, each row published once, and touches nothing else |
| DrainBound.BacklogAfter | apps/messaging/src/outbox/outbox-relay.service.ts:185-267 | after k ticks exactly max(0, N - k*batchSize) of N due rows are pending |
| DrainBound.PublishedOnce | apps/messaging/src/outbox/outbox-relay.service.ts:185-267 | a row has left the backlog if and only if it was in one of the batches, and it is in at most one |
| DrainBound.EarliestFirst | apps/messaging/src/outbox/outbox-relay.service.ts:246-249 | rows in an earlier batch were due no later than rows in a later one |
| Topology.Channel.AssertTopology | apps/messaging/src/reliability/topology.service.ts:60-147 | succeeds if and only if the broker does not contradict the declarations, and then adds exactly them |
| Topology.AssertTopologyIsIdempotent | apps/messaging/src/reliability/topology.service.ts:60-147 | asserting twice is asserting once |
| Topology.PublishTargets | libs/contracts/src/topology/topology.ts:155-194 | every routed publish reaches exactly one queue: commands work, all else audit; retries the retry queue |
| Topology.RoutesByName | libs/contracts/src/topology/topology.ts:155-194 | CreateMessageEvent.v1 and CreateMessageEvent.v2 reach the work queue, every other type the audit queue |
| Topology.DeadLetterHops | apps/messaging/src/reliability/topology.service.ts:76-125 | work dead-letters only to the DLQ, retry only to work, the other two nowhere, for any key |
| Topology.RoutingIsolation | libs/contracts/src/topology/topology.ts:155-194 | no number of dead-letter hops carries a domain event to a command queue or a command to the audit queue |
| SchemaVersion.SuffixExactly | libs/contracts/src/events/dispatch-schema-version.ts:104-120 | the regex scan yields version N exactly when the string ends in ".vN", for every string |
| SchemaVersion.TrimExactly | libs/contracts/src/events/dispatch-schema-version.ts:73-96 | trimming gives a text exactly if the input is that text between white space |
| SchemaVersion.CoercesExactly | libs/contracts/src/events/dispatch-schema-version.ts:73-96 | a field or header claims a version exactly if it is text, or bytes of text, that is the digit up to white space, or the number itself |
| SchemaVersion.HeaderDecides | libs/contracts/src/events/dispatch-schema-version.ts:174-197 | an event without a version field goes by a header that claims one, whatever its type says |
| SchemaVersion.ResolvesToV2Exactly | libs/contracts/src/events/dispatch-schema-version.ts:174-197 | the four sources are consulted in strict precedence: version 2 if and only if the first that speaks says so |
| Contracts.JsLengthExactly | libs/contracts/src/events/v2/create-message.event.ts:45-56 | every character adds one to the length the bounds count, and one more outside the basic plane |
| Contracts.V1RoundTrip | libs/contracts/src/events/v1/create-message.event.ts:14-29 | a version 1 event within bounds survives serialising and validating unchanged |
| Contracts.V2RoundTrip | libs/contracts/src/events/v2/create-message.event.ts:48-107 | the same for version 2, metadata bounds and priority included |
| Contracts.V1Reads | libs/contracts/src/events/v1/create-message.event.ts:14-29 | version 1 validation yields an event if and only if the value says it, field by field, type and bounds included |
| Contracts.V2Reads | libs/contracts/src/events/v2/create-message.event.ts:48-107 | the same for version 2; a missing priority is normal, missing metadata empty, any other priority text refused |
| ContractDispatch.ParsedV1IsGood | libs/contracts/src/events/validate-event.ts:23-61 | whatever version 1 validation accepts is within all bounds |
| ContractDispatch.ParsedV2IsGood | libs/contracts/src/events/validate-event.ts:23-61 | whatever version 2 validation accepts is within all bounds |
| ContractDispatch.UpcastExactly | libs/contracts/src/events/upcast/upcast-create-message-event.ts:73-92 | the upcast of a valid event is total, keeps identity and content and adds only the defaults |
| ContractDispatch.UpcastIsValidV2 | libs/contracts/src/events/upcast/upcast-create-message-event.ts:73-92 | its result is a fixed point of the version 2 parser |
| ContractDispatch.UpcastInjective | libs/contracts/src/events/upcast/upcast-create-message-event.ts:73-92 | events with the same upcast differ at most in schemaVersion |
| ContractDispatch.V2ResolvesToV2 | libs/contracts/src/events/dispatch-schema-version.ts:174-197 | a version 2 event resolves to version 2 under every header |
| ContractDispatch.V1ConsumedExactlyWhen | apps/messaging/src/messaging.controller.ts:174-245 | a valid version 1 event is consumed if and only if nothing on it claims version 2 |
| ContractDispatch.V2AlwaysConsumed | apps/messaging/src/messaging.controller.ts:174-245 | a valid version 2 event is consumed unchanged whatever the header |
| ContractDispatch.ConsumesExactly | apps/messaging/src/messaging.controller.ts:174-245 | the consumer makes an event of a body if and only if the body says it in the version it resolves to |
| ContractDispatch.AcceptedV1IsConsumed | libs/contracts/src/events/build-create-message-event.ts:19-62 | every version 1 event the gateway builds and validates is consumed under its own id, unless a header says 2 |
| ContractDispatch.AcceptedV2IsConsumed | libs/contracts/src/events/build-create-message-event.ts:70-84 | the same for version 2, under any header |
| ErrorClassifier.ClassifiedExactly | apps/messaging/src/reliability/error-classifier.ts:60-102 | transient if and only if an Error has a transient code of its own or a transient Postgres code of its driver |
| ErrorClassifier.UniqueViolationIsPermanent | apps/messaging/src/outbox/outbox-transaction.service.ts:237-246 | a unique violation is never retryable when wrapper and driver agree on the code |
| IdempotentTransaction.ResultTellsEffect | apps/messaging/src/outbox/outbox-transaction.service.ts:141-194 | first means committed, duplicate means nothing written; the exact cases in which a commit is reported as an exception |
| IdempotentTransaction.ResultExactly | apps/messaging/src/outbox/outbox-transaction.service.ts:141-194 | which exception comes out, or which result, for every combination of faults: opening, then release, then rollback, then the first statement that raised |
| IdempotentTransaction.CommitsExactly | apps/messaging/src/outbox/outbox-transaction.service.ts:149-181 | the transaction takes effect if and only if every statement goes through and the commit is answered or took effect |
| IdempotentTransaction.RetryAttemptTracker.RecordAttempt | apps/messaging/src/reliability/retry-attempt-tracker.service.ts:70-92 | atomic increment returning the new count, the first being 1 |
| IdempotentTransaction.RetryAttemptTracker.ClearAttempts | apps/messaging/src/reliability/retry-attempt-tracker.service.ts:118-120 | if it returns the event has no counter any more; no other event's counter changes in any case |
| IdempotentTransaction.OutboxTransaction.InsertOutboxEvents | apps/messaging/src/outbox/outbox-transaction.service.ts:198-227 | one row per event in order, or the first failing insert's exception |
| IdempotentTransaction.OutboxTransaction.RunIdempotentWithOutboxEvents | apps/messaging/src/outbox/outbox-transaction.service.ts:141-194 | ledger row, message and outbox rows appear all together with their content, or not at all, with the result the faults determine |
| MessagingController.MessagingService.HandleMessageCreationIdempotent | apps/messaging/src/messaging.service.ts:108-140 | one message with the event's subject and content and one MessagePersisted row titled by the subject, or no change |
| MessagingController.RetryPublisher.PublishToRetry | apps/messaging/src/reliability/retry-publisher.service.ts:75-118 | if it returns, the broker has the copy; it throws if and only if the channel, the local write or the confirmation fails, and the broker then has the copy at most once, and only if it straggled in |
| MessagingController.MessagingController.HandleMessage | apps/messaging/src/messaging.controller.ts:159-506 | tables, rows written, disposition and retry copy for every message and every fault, rejected messages included |
| MessagingController.EndingExactly | apps/messaging/src/messaging.controller.ts:278-505 | how every delivery ends, on the faults: unsettled, acked, requeued or dead-lettered, each if and only if; retried exactly if the deciding exception is transient and fewer than five attempts are counted |
| MessagingController.RejectedExactly | apps/messaging/src/messaging.controller.ts:188-230 | a message that says no event in its version is acked away: nothing counted, stored or published |
| MessagingController.RetryCopyExactly | apps/messaging/src/messaging.controller.ts:413-432 | every header of a retry copy: count plus one, first error and failure time kept if present and else this error and this time, class TRANSIENT, the event's correlation id; the rest as it was |
| MessagingController.CounterExactly | apps/messaging/src/messaging.controller.ts:278-373 | the attempt counter after every delivery: one more, unchanged or gone, and no other event's counter touched |
| MessagingController.EndingsJustified | apps/messaging/src/messaging.controller.ts:326-505 | an acked valid delivery is processed or has a confirmed successor; a dead-lettered one failed for good or used its attempts; a requeued one could not schedule its retry |
| MessagingController.EndingsAtomic | apps/messaging/src/messaging.controller.ts:326-336 | one delivery adds the three rows of its event together, once, with the event's subject, content and correlation id, or none |
| MessagingController.ProcessedYetFailed | apps/messaging/src/messaging.controller.ts:373-380 | a delivery that has just processed its event still enters the error path if and only if commit, release or clearing raised |
| MessagingController.DeadLetteredThoughProcessed | apps/messaging/src/messaging.controller.ts:326-501 | for every delivery: dead-lettered with its event processed if and only if counted, processed before or committed now, and the deciding exception is not transient or the attempts are used up |
| MessagingController.CulpritDecides | apps/messaging/src/outbox/outbox-transaction.service.ts:141-194 | which exception decides a delivery, for every delivery: opening, release, rollback, ledger insert, rollback of a duplicate, message, outbox row, commit, clearing, in this order |
| MessagingController.ProcessedAndDeadLettered | apps/messaging/src/messaging.controller.ts:373-501 | a clearing that raises an unclassified error dead-letters the processed event |
| MessagingController.RedeliveryDeadLetters | apps/messaging/src/messaging.controller.ts:326-501 | a redelivery of a processed event whose transaction cannot be opened, with an unclassified error, is dead-lettered |
| HandlerRefinement.DeliveryIsRun | apps/messaging/src/messaging.controller.ts:159-506 | an undisturbed delivery, with any faults, is a run of the interleaved consumer protocol with the same tables, disposition and copies |
| HandlerPersists.DeliveryIsPipelineRun | apps/messaging/src/messaging.controller.ts:326-505 | an undisturbed delivery is a run of the whole pipeline, whose messaging outbox gains exactly the row the handler wrote |
| ConsumerInvariants.IsolatedKept | apps/messaging/src/migrations/003_CreateProcessedEventsTable.ts:49 | open transactions hold disjoint keys, none of them committed, and write only their own event |
| ConsumerInvariants.ConservedKept | apps/messaging/src/messaging.controller.ts:428-476 | a copy of a valid event is acked only once the event is processed or a later copy of it exists |
| ConsumerInvariants.RoutedKept | apps/messaging/src/reliability/topology.service.ts:60-147 | every step keeps command copies off the audit queue and all others on it |
| ConsumerBudget.BudgetedKept | apps/messaging/src/messaging.controller.ts:409-446 | for unprocessed events the counter, the runs' distinct attempt numbers and the retry calls stay in step |
| ConsumerBudget.TalliedKept | apps/messaging/src/reliability/retry-publisher.service.ts:74-118 | every copy of an event is accounted for by one arrival, re-injection or retry call |
| ConsumerTheorems.AtMostOnce | apps/messaging/src/outbox/outbox-transaction.service.ts:141-194 | ledger, message and MessagePersisted rows of an event are equal in number and at most one; duplicate: false is returned at most once |
| ConsumerTheorems.AtMostOnceOverRuns | apps/messaging/src/outbox/outbox-transaction.service.ts:141-194 | in every run at most one transaction commits for an event, and each table holds as many rows of it |
| ConsumerTheorems.NothingLost | apps/messaging/src/messaging.controller.ts:326-505 | an event the broker ever had a copy of is processed, or a copy is queued, with a handler, or dead-lettered |
| ConsumerTheorems.RoutingIsolated | libs/contracts/src/topology/topology.ts:155-194 | in every reachable state the audit queue holds exactly the non-command copies, and handlers only see commands |
| ConsumerTheorems.RetryBudget | apps/messaging/src/messaging.controller.ts:278-446 | until processed: counter equals recordAttempt executions, at most 4 retry calls, at most 4 runs ending in retry or requeue, at most 4 copies beyond those published and re-injected |
| ConsumerTheorems.RetryBudgetOverRuns | apps/messaging/src/messaging.controller.ts:278-446 | the same counted on the steps of every run: recordAttempt executions, publishToRetry calls, runs ending in retry or requeue |
| ConsumerTheorems.CounterNeverFalls | apps/messaging/src/messaging.controller.ts:486-501 | over every run that leaves the event unprocessed its counter does not go down |
| ConsumerTheorems.ReplayProofCap | apps/messaging/src/reliability/retry-attempt-tracker.service.ts:9-53 | once the count is used up, any later run dead-letters or ends with the event processed, whatever headers its message carries |
| ConsumerTheorems.HopsKeepTheEvent | apps/messaging/src/messaging.controller.ts:413-426 | over any number of retry hops version, event and first error stay, the header counts the hops, class and correlation id are the latest |
| GatewayAcceptance.GatewayOutboxTransaction.RunWithOutboxEvent | apps/gateway/src/outbox/gateway-outbox-transaction.service.ts:107-137 | the row is stored exactly if nothing before the commit raises, the event id is free and the commit takes effect; reported exactly if also answered and released; which exception comes out otherwise |
| GatewayAcceptance.AppController.Send | apps/gateway/src/app.controller.ts:101-359 | a payload the builder raises on is a server error, a built event that does not validate a bad request, neither leaves a trace; an accepted one is in the outbox, pending, due now, and says what was requested field by field |
| GatewayAcceptance.RowSaysRequest | libs/contracts/src/events/build-create-message-event.ts:19-84 | the row of an accepted request, field by field: ids, time, source, trace, type, version, subject, content, recipient, priority and metadata with their defaults, budget five |
| GatewayAcceptance.AcceptedExactly | libs/contracts/src/events/validate-event.ts:23-61 | a request is accepted if and only if its ids and time are well formed and its payload within the bounds of its version |
| PipelineTheorems.Projections | apps/gateway/src/outbox/gateway-outbox-relay.service.ts:266-330 | every step of the composed system is a step or a pause of each part |
| PipelineTheorems.ReadFromRow | apps/messaging/src/messaging.controller.ts:174-245 | a message read as an event carries the payload and type of that event's gateway row, one of whose publishes found a queue |
| PipelineTheorems.NeverLost | apps/gateway/src/outbox/gateway-outbox-relay.service.ts:266-330 | in every run in which each publish finds a queue bound: an accepted event's row is pending or failed, or the event is processed, or a copy is in work, retry, with a handler, or dead-lettered |
| PipelineTheorems.StandingTopologyDropsNothing | apps/messaging/src/reliability/topology.service.ts:60-147 | from a standing topology on every run is such a run |
| PipelineTheorems.SafeExactlyWhenRouted | apps/gateway/src/outbox/gateway-outbox-relay.service.ts:266-330 | in every run an event is processed, underway or dead-lettered if and only if some publish of its row found the work queue bound |
| PipelineTheorems.LostExactlyWhen | apps/messaging/src/reliability/topology.service.ts:75-117 | in every reachable state a sent event is lost if and only if every publish of its row came before the binding |
| PipelineTheorems.AtMostOneEffect | apps/messaging/src/outbox/outbox-transaction.service.ts:141-194 | at most one effect per event, and processed events correspond one-to-one to rows of the messaging outbox |
| PipelineTheorems.OnlyAcceptedTakeEffect | apps/gateway/src/app.controller.ts:132-179 | every processed event was accepted, as exactly one gateway row |
| PipelineEffects.CopiesBounded | apps/messaging/src/messaging.controller.ts:409-446 | until processed, copies of an event never exceed the relay publishes that found a queue plus re-injections plus 4 |
| PipelineEffects.EffectsAreFaithful | apps/messaging/src/messaging.service.ts:108-140 | every MessagePersisted row reports a processed event, with the subject and correlation id requested for it |
| PipelineEffects.RowsAreAsRequested | apps/gateway/src/app.controller.ts:101-359 | in every reachable state every gateway row says what its request says |
| PipelineEffects.CopiesReadAsRequested | apps/messaging/src/messaging.controller.ts:174-245 | whatever a handler makes of any copy, retried and re-injected ones included, is what was requested |
| PipelineEffects.StoredAsRequested | apps/messaging/src/messaging.service.ts:108-140 | whatever a handler stores in any reachable state under any faults has the requested subject and content |
| PipelineRecovery.EveryAcceptedEventCanTakeEffect | apps/messaging/src/outbox/outbox-admin.service.ts:65-90 | after every run that drops nothing some continuation makes an accepted event take effect |
| PipelineRecovery.CanTakeEffectExactly | apps/messaging/src/outbox/outbox-admin.service.ts:65-90 | in every reachable state an accepted event can still take effect if and only if a batch can hold a row and its row is not stranded: sent before the binding with no relay left to publish it |
| PipelineRecovery.StrandedRun | apps/messaging/src/reliability/topology.service.ts:75-117 | for every valid request a run that strands it: published between exchange and binding, confirmed, marked sent |
| PipelineRecovery.AcceptedRequestCanTakeEffect | apps/gateway/src/app.controller.ts:101-229 | every request that validates can be accepted, with any part of the topology in place, and an effect is then reachable |
| LifecycleSubscriber.FirstMatchIsEarliest | libs/contracts/src/lifecycle/event-lifecycle-subscriber.ts:98-104 | the first match is the matching record with nothing matching before it |
| LifecycleSubscriber.FindRaisesExactly | libs/contracts/src/lifecycle/event-lifecycle-subscriber.ts:98-101 | looking through the log throws if and only if a null record precedes every match |
| LifecycleSubscriber.UnmatchedKeeps | libs/contracts/src/lifecycle/event-lifecycle-subscriber.ts:69-76 | the filter the splice loop computes keeps exactly the waiters that do not match |
| LifecycleSubscriber.UnmatchedInParts | libs/contracts/src/lifecycle/event-lifecycle-subscriber.ts:69-76 | it works part by part, so the order stays |
| LifecycleSubscriber.AgreesWithLog | libs/contracts/src/lifecycle/event-lifecycle-subscriber.ts:69-131 | a resolved call holds the earliest record with its event id and stage, and no record has those of a registered waiter |
| LifecycleSubscriber.LookedExactly | libs/contracts/src/lifecycle/event-lifecycle-subscriber.ts:90-103 | how a new call stands, in the fields of the records: resolved with the first of its event at its stage, waiting exactly if there is none and no null, thrown exactly if a null comes first |
| LifecycleSubscriber.MessageSettles | libs/contracts/src/lifecycle/event-lifecycle-subscriber.ts:69-76 | a message takes a waiter off and resolves its call exactly if the record is of its event at its stage |
| LifecycleSubscriber.ConsistentAfterMessage | libs/contracts/src/lifecycle/event-lifecycle-subscriber.ts:47-65 | a message resolves exactly the waiters it matches and settles nobody twice |
| LifecycleSubscriber.ConsistentAfterWait | libs/contracts/src/lifecycle/event-lifecycle-subscriber.ts:90-110 | a new call is resolved, thrown or registered so that waiters and log still agree |
| LifecycleSubscriber.ConsistentAfterTimer | libs/contracts/src/lifecycle/event-lifecycle-subscriber.ts:108-123 | a timer takes one waiter off that had no match in the log; the call is rejected, or abandoned if a record is null |
| LifecycleSubscriber.TimerDecides | libs/contracts/src/lifecycle/event-lifecycle-subscriber.ts:107-123 | a call whose timer decided was rejected if and only if no record up to then was null, matched none of them, and is off the list |
| LifecycleSubscriber.NullRecordAbandonsACall | libs/contracts/src/lifecycle/event-lifecycle-subscriber.ts:107-123 | the failing run: a call registers, null arrives, the timer fires; the call is off the list and never settled |
| LifecycleSubscriber.EventLifecycleSubscriber.NotifyWaiters | libs/contracts/src/lifecycle/event-lifecycle-subscriber.ts:69-76 | the backward splice loop equals the stable filter and resolves exactly what it removes |
| LifecycleSubscriber.EventLifecycleSubscriber.OnMessage | libs/contracts/src/lifecycle/event-lifecycle-subscriber.ts:47-65 | a parsed record is logged, and takes off and resolves exactly the waiters whose event id and stage it has; unparsable content changes nothing |
| LifecycleSubscriber.EventLifecycleSubscriber.WaitFor | libs/contracts/src/lifecycle/event-lifecycle-subscriber.ts:90-131 | resolved only with the first record of the event at the stage, registered exactly if the log has no such record and no null one |
| LifecycleSubscriber.EventLifecycleSubscriber.FireTimer | libs/contracts/src/lifecycle/event-lifecycle-subscriber.ts:107-123 | removes exactly its own waiter; a waiting call is rejected if and only if no record so far is null, and no settled call changes |

## Left out

- MessagingController.RetryPublisher.PublishToRetry: does not model the per-message expiration, because it only frees the head of the queue and no delivery time follows from it.
- RetryPolicy.DelayForAnyAttempt: does not model fractional attempt numbers, which only a tampered `x-retry-count` header yields.
- PipelineRecovery.CanTakeEffectExactly: shows that some continuation succeeds, not that every fair one does; a broker that never confirms is a possible run.
- HandlerPersists.DeliveryIsPipelineRun: like HandlerRefinement.DeliveryIsRun takes a database that reports a taken event id exactly when it is taken, and no concurrent transaction on an event id.
- Opening AMQP channels and reconnecting: a channel is something that may fail; nothing is claimed about it coming back.
- A messaging service that handles messages before its topology stands.
- NestJS pattern dispatch, TypeORM internals and JSON text: a work-queue message goes straight to the handler, parsed.
- Broker internals: message order, per-message expiry times, flow control, disk loss.
- The details of validation errors, `extractIdentifiersForRejection`, and what is logged, counted, traced or announced on the lifecycle exchange.
- The dead-letter consumer's reading of a message: it acks everything, which is the place `Logged`.
- Operators who move, rather than re-publish, a dead-lettered message: a re-injected message is a further copy, with any headers.
- `handleTestRabbit` and the gateway's other producers: they write rows without an event id.
- The unregistered outbox service and the superseded idempotency service.
- `listFailed`, gauges and health checks: read-only.
- A shared clock: each outbox has its own monotone clock; no result compares the two.
