# Marhaba delivery: a verified model

This project models the server and driver-app logic that moves orders of the Marhaba delivery platform from checkout to
delivery, and proves what that logic keeps over whole runs. It covers five linked parts.

- **Fulfilment.** Orders, drivers, failed attempts, delayed jobs and the append-only event log form one `Database.Store`,
  changed by the service classes `OrdersService`, `AssignmentService`, `SchedulerService`, `DeliveryService` and
  `PaymentsService`. Each method is proved equal to an outcome function on the rows (`Db`), which says what the new rows
  are and which error is thrown; for each there is a lemma that says in terms of the rows alone when it goes through and
  what it leaves. `Commits` and `Calls` split every call into the atomic writes it makes; all invariants
  are proved write by write. `SerialRuns` then treats runs of whole calls, and `TwoPhase` runs in which a call reads and
  checks first and commits its transaction at any later moment; `WebhookRaces` does the same for webhook deliveries.
- **Idempotency.** The interceptor's lookup, lock, unique row, handler and late persist, for any number of requests, with
  locks expiring or being taken and requests crashing anywhere.
- **Outbox.** The driver app's offline queue, composed with the guarded server over a network that loses requests or
  replies.
- **Ray casting.** `pointInRing` in exact arithmetic.
- **Bounded arithmetic and deduplication.** Pricing with its two roundings and surge windows, money over whole runs,
  the rate limiter, webhook deduplication, and the figures computed from the log.

## How to read it

`SerialRuns.Fresh` is the only start state of the run theorems: no orders, an empty log, no driver holding an order.
Products, price rules and driver statuses are arbitrary and may be edited in mid-run. `now` is any number at any step
unless a theorem says that the clock does not go back. A run is a sequence of calls with any arguments at all, including
calls that throw. Errors are values of `Wrappers.Error`; what a throwing call has already written stays in its outcome.

## Where the code does less than it says

The model follows the code. Each of these has a lemma.

- `unassign` is not checked against the transition table, so it can reopen an order in any status, a delivered one
  included (`SerialRuns.DeliveredOrderReopened`). The log is a legal walk exactly in runs without such a call
  (`SerialRuns.LogIsLegalIff`).
- The check of `transition` and its transaction are separate, so a cancelled order can come back to life
  (`TwoPhase.CancelledOrderRevived`); two assignments of one order can leave two drivers holding it
  (`TwoPhase.TwoDriversHoldOneOrder`); an assignment can take up an order cancelled after it was read, and the log does
  not show that the read was stale (`TwoPhase.CancelledOrderAssigned`). The exact conditions are `TwoPhase.LogIsLegalIffCommitsAre` and
  `TwoPhase.DriversAgreeIffCommitsRelease`.
- Statuses documented as final (packages/shared/src/enums.ts:44) can move to REFUNDED
  (`OrderStatus.TerminalIsAlmostFinal`).
- A delivery need not have been picked up (`OrderStatus.DeliveryWithoutPickup`).
- The outbox comment says that its Idempotency-Key prevents double application; the transition endpoint does not mount
  the interceptor. What prevents it is that the server refuses a repeated move, and that stops being true when another
  actor moves the order back between two tries (`Outbox.AtMostOnceIffRetriesRefused`, `Outbox.DisturbedMoveAppliesTwice`).
- A move whose reply was lost is never reported as sent (`Outbox.AppliedWithoutReplyIsNeverSent`); its row ends DEAD
  (`Outbox.OutboxDrains`).
- A handler that throws leaves its Idempotency-Key unusable (`Idempotency.FailedHandlerKillsKey`); the exact condition
  is `Idempotency.AnswerableIff`.
- The transition endpoint can send an order to RETRY_SCHEDULED without queueing a job (`Retries.RetryForgottenByHand`);
  among whole calls that is the only way to forget a retry (`Retries.KeepsRetriesIff`). A server that stops inside
  `recordFailure` is another (`Retries.CrashForgetsRetry` says exactly where).
- Two `recordFailure` calls at once write the same attempt number (`TwoPhase.RacingFailuresShareANumber`); the exact
  condition is `TwoPhase.NumberedIffCountsWereCurrent`.
- `setStatus` of the drivers service lets a driver with an order be set free (`SerialRuns.BusyDriverSetFree`), and one
  without be set busy; the exact condition for busy drivers to be those with an order is
  `SerialRuns.BusyDriversHaveOrders`.
- Webhook deduplication looks up first and inserts last, so two deliveries at once both run their handler
  (`WebhookRaces.RacingDeliveriesRecordTwice`); `WebhookRaces.BegunOnceIff` says exactly when.
- An order's total is not monotone in its basket: crossing the free-delivery line can lower it
  (`Pricing.TotalFallsAtTheThreshold`; `Pricing.TotalGrowsUnlessFeeIsWaived` gives the exact condition).
- A rate-limited key whose expiry command was lost never admits another request once its allowance is used
  (`RateLimit.LockedOutUnlessExpirySet`).
- Nothing records a driver's acceptance, so the accept and pickup averages never have a value
  (`Analytics.AcceptanceIsNeverAveraged`).
- After an unassign from DELIVERED the average delivery time can be negative (`Analytics.DeliveryTimeBelowZero`); an
  order is delivered before its first pickup exactly as `Analytics.PickupsAreInTimeIff` says.

## Model

| member | source | states |
|---|---|---|
| OrderStatus.EnteredFrom | packages/shared/src/state-machine/order-status.ts:11-42 | The table read backwards: exactly the statuses from which each status can be entered; CANCELLED from DRAFT, SCHEDULED, PLACED, ACCEPTED, ASSIGNED, EN_ROUTE_TO_PICKUP and FAILED |
| OrderStatus.TerminalLeadsToRefund | packages/shared/src/state-machine/order-status.ts:36-46 | The terminal statuses are exactly those that lead nowhere but to a refund |
| OrderStatus.WalkLengthBound | packages/shared/src/state-machine/order-status.ts:11-38 | Every legal status walk is bounded: its length plus the rank of where it stands never exceeds the rank of its start plus 2 per unassignment, 3 per direct retry and 6 per reassigned retry |
| OrderStatus.BoundedRetries | packages/shared/src/state-machine/order-status.ts:11-38 | So with u unassignments and r retries no walk has more than 11 + 2u + 6r transitions: bounded retries terminate |
| OrderStatus.BoundIsAttained | packages/shared/src/state-machine/order-status.ts:11-38 | The exact bound 11 + 2u + 3d + 6r is reached from DRAFT for every u, d and r |
| OrderStatus.DeliveredPassedThrough | packages/shared/src/state-machine/order-status.ts:11-38 | Before DELIVERED every walk from a creation status visits PLACED, ACCEPTED, ASSIGNED, EN_ROUTE_TO_PICKUP and OUT_FOR_DELIVERY, in that order |
| OrderStatus.UnavoidableForDelivery | packages/shared/src/state-machine/order-status.ts:11-38 | Exactly which statuses a delivered draft must have visited: those five and its two ends, and no other |
| OrderStatus.DeliveryWithoutPickup | packages/shared/src/state-machine/order-status.ts:11-38 | A legal delivery that was never PICKED_UP |
| OrderStatus.PickedUpBeforeEveryDelivery | packages/shared/src/state-machine/order-status.ts:11-38 | Every time a walk goes out for delivery it has been picked up before, exactly when no retry goes straight out before the first pickup |
| OrderStatus.TerminalIsAlmostFinal | packages/shared/src/state-machine/order-status.ts:36-46 | After a terminal status there is at most one more move, to REFUNDED, which ends the walk |
| OrderStatus.DeliveredOnce | packages/shared/src/state-machine/order-status.ts:36-46 | A walk is at DELIVERED once and never at any status but REFUNDED afterwards |
| Orders.SizeCheckResolvesEveryLine | packages/api/src/modules/orders/orders.service.ts:47-53 | As many distinct products found as asked for, exactly when every line has an available product |
| Orders.OrdersService.Create | packages/api/src/modules/orders/orders.service.ts:46-144 | Creation throws and writes nothing on a missing product, an unmet minimum or a taken id; otherwise it adds the order with its frozen bill, the CREATED event and, for a scheduled order, the SCHEDULED event |
| Orders.CreatesExactly | packages/api/src/modules/orders/orders.service.ts:46-144 | A request becomes an order exactly when every line has an available product, the id is free, and the basket meets the minimum of its zone's rule, if there is one; which error each refusal is; owner, payment method, zone, currency, status by the two flags, events, and a total equal to the basket without a rule |
| Orders.OrdersService.Transition | packages/api/src/modules/orders/orders.service.ts:192-228 | Throws on a missing order or a pair outside the table, leaving every row alone; otherwise sets only that order's status and appends the matching event |
| Orders.TransitionsExactly | packages/api/src/modules/orders/orders.service.ts:192-228 | Which error each refused transition gives, and exactly which event type each target status leaves |
| Orders.OrdersService.Place | packages/api/src/modules/orders/orders.service.ts:230-236 | Only a DRAFT is placed |
| Orders.PlacesExactly | packages/api/src/modules/orders/orders.service.ts:230-236 | Placing goes through for drafts alone, though the table would let a scheduled order be placed |
| OrderEvents.OrderEventsService.Record | packages/api/src/modules/orders/order-events.service.ts:26-39 | The log grows by exactly this event |
| Assignment.AssignmentService.Assign | packages/api/src/modules/orders/assignment.service.ts:34-51 | Every error case of an assignment in its order, and otherwise the committed assignment of the chosen driver |
| Assignment.AssignsExactly | packages/api/src/modules/orders/assignment.service.ts:34-83 | An assignment goes through exactly when the order is ACCEPTED or RETRY_SCHEDULED, and the driver taken (the wanted one in MANUAL mode, otherwise the nearest) has a row and no other order, and a replaced driver has a row; which error each refusal is |
| Assignment.AssignmentLeaves | packages/api/src/modules/orders/assignment.service.ts:84-112 | The order ASSIGNED to that driver, the driver BUSY with it, a replaced driver AVAILABLE with nothing, and REASSIGNED logged exactly when one was replaced |
| Assignment.AssignmentService.Commit | packages/api/src/modules/orders/assignment.service.ts:63-112 | The transaction row by row, with everything put back when a later row is missing: new driver busy with the order, previous driver released, ASSIGNED or REASSIGNED logged |
| Assignment.AssignmentService.Unassign | packages/api/src/modules/orders/assignment.service.ts:115-143 | The driver is released, the order goes to ACCEPTED from whatever status it had, and the event names both |
| Assignment.UnassignsExactly | packages/api/src/modules/orders/assignment.service.ts:115-143 | Any order with a driver can be unassigned, whatever its status, and what that leaves |
| Scheduler.SchedulerService.SchedulePlacement | packages/api/src/modules/scheduler/scheduler.service.ts:47-54 | Queues the order's placement job; queueing it again changes nothing |
| Scheduler.SchedulerService.ScheduleRetry | packages/api/src/modules/scheduler/scheduler.service.ts:57-64 | Queues the retry job of this order and due time; queueing it again changes nothing |
| Scheduler.SchedulerService.Process | packages/api/src/modules/scheduler/scheduler.service.ts:66-87 | A due job moves its order only from SCHEDULED or RETRY_SCHEDULED, to OUT_FOR_DELIVERY with a driver and to ASSIGNED without one, and is ignored otherwise |
| Scheduler.ProcessesExactly | packages/api/src/modules/scheduler/scheduler.service.ts:66-87 | A due job never throws; it moves exactly a SCHEDULED order to PLACED or a RETRY_SCHEDULED one out with its driver or to ASSIGNED without one |
| Scheduler.RunsExactly | packages/api/src/modules/scheduler/scheduler.service.ts:66-87 | A job leaves the queue exactly when it was queued and its worker did not stall |
| Delivery.DeliveryService.RecordFailure | packages/api/src/modules/delivery/delivery.service.ts:36-93 | Every outcome of the failure workflow, including the writes that stay when it throws half way |
| Delivery.FailsExactly | packages/api/src/modules/delivery/delivery.service.ts:36-93 | Failures are accepted exactly from OUT_FOR_DELIVERY and EN_ROUTE_TO_PICKUP; a retry or reschedule queues one job, due when asked or else 3600000 ms from now; an unknown resolution is refused after the order was set FAILED |
| Delivery.FailureWorkflow | packages/api/src/modules/delivery/delivery.service.ts:43-93 | Past its guard and with a known resolution the workflow never stops half way: one numbered attempt, three events, the final status, and a job exactly when a retry was asked for |
| Delivery.DeliveryService.IssueOtp | packages/api/src/modules/delivery/delivery.service.ts:98-104 | A code replaces the one the order had and touches nothing else |
| Delivery.DeliveryService.SubmitProof | packages/api/src/modules/delivery/delivery.service.ts:106-150 | Delivers exactly an order that is out for delivery, with the issued, unexpired, non-empty code when the proof is one; the code is then used up and the proof row written and returned, a replaced row keeping its capture time |
| Delivery.ProvesExactly | packages/api/src/modules/delivery/delivery.service.ts:106-150 | A proof delivers exactly when the order is OUT_FOR_DELIVERY and, for a code, the code is the non-empty one issued; which error each refusal is; the stored row field by field |
| Commits.KeepsReplayable | packages/api/src/modules/orders/order-events.service.ts:26-39 | No atomic write, stale or not, separates order statuses, order drivers and active orders from the fold of the log |
| Commits.KeepsTruthful | packages/api/src/modules/orders/orders.service.ts:197-224 | A write keeps the log true about the past exactly when the from-status and the previous driver it records are current |
| Commits.GiveKeepsAgreement | packages/api/src/modules/orders/assignment.service.ts:63-112 | An assignment's transaction keeps orders and drivers agreeing exactly when the order's present driver is the one given, the one released or nobody, and the one released holds nothing else |
| Commits.TakeKeepsAgreement | packages/api/src/modules/orders/assignment.service.ts:115-143 | The same exact condition for an unassignment |
| Commits.KeepsAgreementIff | packages/api/src/modules/orders/assignment.service.ts:63-143 | For any write at all: which ones keep the agreement |
| Commits.KeepsBusyWithOrder | packages/api/src/modules/drivers/drivers.service.ts:19-25 | Of all writes only a status set by hand that contradicts whether the driver has an order breaks the link between busy drivers and orders |
| Commits.HistoriesAfter | packages/api/src/modules/orders/order-events.service.ts:26-39 | What one write appends to each order's status history, and to no other order's |
| Commits.KeepsTracked | packages/api/src/modules/orders/orders.service.ts:211-224 | Every order's status stays the last one its log names, stale writes included |
| Commits.KeepsLegalLog | packages/api/src/modules/orders/orders.service.ts:211-224 | A write keeps all logs legal walks exactly when its move is legal from the status it finds |
| Commits.KeepsNumbered | packages/api/src/modules/delivery/delivery.service.ts:43-54 | A write keeps attempts numbered 1..n exactly when the count of earlier attempts was current, and none repairs a broken numbering |
| Calls.CallIsItsWrites | packages/api/src/modules/delivery/delivery.service.ts:36-93 | Every service call, run alone, does exactly a sequence of atomic writes each of which rests on current rows |
| SerialRuns.TablesAreTheFoldOfTheLog | packages/api/src/modules/orders/order-events.service.ts:26-39 | Event sourcing: in every reachable state all statuses, order drivers and active orders equal a fold over the log |
| SerialRuns.OrdersAndDriversAgree | packages/api/src/modules/orders/assignment.service.ts:63-143 | In every reachable state `order.driverId` is d exactly when `driver[d].activeOrderId` is that order |
| SerialRuns.NobodyHoldsTwo | packages/api/src/modules/orders/assignment.service.ts:63-143 | In every reachable state no driver holds two orders and no order is held by two drivers |
| SerialRuns.LogIsTruthful | packages/api/src/modules/orders/assignment.service.ts:96-104 | In every reachable state each event's from-status and previous driver are what the earlier events left, and REASSIGNED marks exactly the replaced drivers |
| SerialRuns.BusyDriversHaveOrders | packages/api/src/modules/orders/assignment.service.ts:76-143 | The busy drivers are exactly those with an order, all the way through, in exactly the runs whose hand-set statuses agree with whether the driver has one |
| SerialRuns.BusyDriverSetFree | packages/api/src/modules/drivers/drivers.service.ts:19-25 | A run after which a driver is AVAILABLE and still has an order |
| SerialRuns.StatusIsLastInLog | packages/api/src/modules/orders/orders.service.ts:211-224 | Every order's status is the last its log names, and its history begins in a creation status |
| SerialRuns.AttemptsAreNumbered | packages/api/src/modules/delivery/delivery.service.ts:43-54 | Each order's failed attempts are numbered exactly 1..n |
| SerialRuns.DriversComeAfterAcceptance | packages/api/src/modules/orders/assignment.service.ts:34-51 | In every reachable state an order with a driver, or in any status past acceptance, has ACCEPTED in its log, and no order in a creation status has a driver |
| SerialRuns.CallIsLegalUnlessStrayUnassign | packages/api/src/modules/orders/assignment.service.ts:115-127 | Of all calls only an unassign from a status other than ASSIGNED moves an order off the table |
| SerialRuns.LogIsLegalIff | packages/shared/src/state-machine/order-status.ts:11-42 | Every order's log is a legal walk exactly in the runs whose unassigns all came from ASSIGNED |
| SerialRuns.DeliveredOrderHistory | packages/shared/src/state-machine/order-status.ts:11-46 | In such runs each order's log obeys the length bound, and a delivered order's log shows the five milestones in order |
| SerialRuns.EveryWalkHappens | packages/api/src/modules/orders/orders.service.ts:192-228 | Conversely every legal walk from a creation status is some order's log in some run |
| SerialRuns.ScriptedDelivery | packages/api/src/modules/orders/orders.service.ts:192-228 | A run that delivers an order which still holds its driver at DELIVERED |
| SerialRuns.ReassignedAfterFailure | packages/api/src/modules/orders/assignment.service.ts:34-112 | A run in which a delivery fails and its order goes to a second driver: the first is released and REASSIGNED is logged |
| SerialRuns.DeliveredOrderReopened | packages/api/src/modules/orders/assignment.service.ts:115-127 | A run that delivers an order and then puts it back to ACCEPTED, leaving a log that is no legal walk |
| SerialRuns.ProofDelivers | packages/api/src/modules/delivery/delivery.service.ts:106-150 | An accepted proof moves its order to DELIVERED, logs it, stores one row and uses up its code; a refused one changes nothing |
| SerialRuns.ProofsAreOfDeliveries | packages/api/src/modules/delivery/delivery.service.ts:129-150 | In every reachable state a stored proof belongs to an order whose log shows its delivery |
| SerialRuns.OnlyTheLastCodeDelivers | packages/api/src/modules/delivery/delivery.service.ts:98-122 | After a code was issued, and through any run that issues no other for that order, submitting any other code is refused and changes no row |
| SerialRuns.CodeIsUsedUp | packages/api/src/modules/delivery/delivery.service.ts:118-122 | After a code delivered, and until a new one is issued, no code delivers that order again |
| TwoPhase.LogSourcesEveryInterleaving | packages/api/src/modules/orders/orders.service.ts:197-224 | With any number of calls in flight, the tables stay the fold of the log, statuses stay the last logged, and every transition event carries an edge of the table |
| TwoPhase.LogIsLegalIffCommitsAre | packages/api/src/modules/orders/orders.service.ts:197-224 | Over every interleaving the logs are legal walks exactly when each commit was legal from the status it found |
| TwoPhase.LogIsTruthfulIffRecordedPastWasCurrent | packages/api/src/modules/orders/orders.service.ts:197-224 | Over every interleaving the log misstates the past exactly when some commit recorded a from-status or a previous driver that was no longer current |
| TwoPhase.CurrentIffTruthfulAndAssignable | packages/api/src/modules/orders/assignment.service.ts:34-112 | For a commit that goes through: what it read is current exactly when what it records is, and an assignment's order can still be assigned; so the log hides staleness only of an assignment's status |
| TwoPhase.DriversAgreeIffCommitsRelease | packages/api/src/modules/orders/assignment.service.ts:34-143 | Over every interleaving orders and drivers agree throughout exactly when each commit released the driver its order then had |
| TwoPhase.CurrentRunsAreSerial | packages/api/src/modules/orders/orders.service.ts:192-228 | Linearizability: in runs in which no commit used a stale read and no workflow is taken apart into single writes, which have no service call of their own, the run ends where the same calls end one at a time in commit order |
| TwoPhase.CurrentRunsAgree | packages/api/src/modules/orders/assignment.service.ts:34-143 | Over every interleaving in which no commit used a stale read, with single writes of longer workflows falling anywhere: orders and drivers agree, no order has a driver before it was accepted, and logs are legal walks exactly when every unassign came from ASSIGNED |
| TwoPhase.CancelledOrderRevived | packages/api/src/modules/orders/orders.service.ts:197-224 | Two racing transitions: a cancelled order ends ACCEPTED, with both events in the log |
| TwoPhase.CancelledOrderAssigned | packages/api/src/modules/orders/assignment.service.ts:34-112 | An assignment overtaken by a cancellation: the cancelled order ends ASSIGNED, the read was stale, and the log is as truthful as before |
| TwoPhase.TwoDriversHoldOneOrder | packages/api/src/modules/orders/assignment.service.ts:34-112 | Two racing assignments: both drivers end with the same active order |
| TwoPhase.NumberedIffCountsWereCurrent | packages/api/src/modules/delivery/delivery.service.ts:43-54 | Over every interleaving attempts are numbered 1..n exactly when every count was current as its row was written |
| TwoPhase.RacingFailuresShareANumber | packages/api/src/modules/delivery/delivery.service.ts:43-54 | Two failures reported at once write the same attempt number |
| Retries.CallEntersRetry | packages/api/src/modules/delivery/delivery.service.ts:70-81 | Only the failure workflow, which queues a job, and the transition endpoint put an order at RETRY_SCHEDULED |
| Retries.CallDropsRetryJob | packages/api/src/modules/scheduler/scheduler.service.ts:66-87 | A waiting order's job leaves the queue only by moving the order on |
| Retries.KeepsRetriesIff | packages/api/src/modules/scheduler/scheduler.service.ts:57-87 | A call forgets a retry exactly when it is a hand-made transition to RETRY_SCHEDULED with nothing queued |
| Retries.RetriesThroughoutIff | packages/api/src/modules/scheduler/scheduler.service.ts:57-87 | Every waiting order has its job at every moment of exactly the runs without a hand-made transition to RETRY_SCHEDULED with nothing queued |
| Retries.NoRetryIsForgotten | packages/api/src/modules/scheduler/scheduler.service.ts:57-87 | Without such transitions every waiting order has its job at every moment, and no job, late, twice or stale, ever attempts an illegal transition |
| Retries.RetryJobMovesOn | packages/api/src/modules/scheduler/scheduler.service.ts:76-83 | Running a waiting order's job sends it out again with its driver or to ASSIGNED without one; running it again changes no order |
| Retries.RetryForgottenByHand | packages/api/src/modules/orders/orders.controller.ts:80-91 | A run from the start whose order waits in RETRY_SCHEDULED with nothing queued |
| Retries.CrashForgetsRetry | packages/api/src/modules/delivery/delivery.service.ts:43-93 | A server that stops after any number of the failure workflow's writes forgets a retry exactly when it stops between the transition to RETRY_SCHEDULED and the queueing, and no earlier job is queued for the order |
| Payments.PaymentsService.CreatePaymentIntent | packages/api/src/modules/payments/payments.service.ts:35-95 | Refusals of a missing, foreign or cash order, the early return for an existing intent, and otherwise a pending payment of the order's total in its currency with its event; the reply gives the payment's status, amount and currency, and the client secret only of a new intent |
| Payments.IntentsExactly | packages/api/src/modules/payments/payments.service.ts:35-95 | When an intent is made, which error each refusal is, and the payment it leaves, field by field |
| Payments.PaymentsService.ConfirmCash | packages/api/src/modules/payments/payments.service.ts:98-123 | Refusals, and otherwise a captured payment of the order's total that records what was collected |
| Payments.CollectsExactly | packages/api/src/modules/payments/payments.service.ts:98-123 | When cash is confirmed, which error each refusal is, and the payment it leaves, field by field |
| Payments.PaymentsService.HandleWebhookEvent | packages/api/src/modules/payments/payments.service.ts:129-157 | A known id does nothing; a new id is marked processed whether or not its handler threw |
| Payments.PaymentsService.Handle | packages/api/src/modules/payments/payments.service.ts:159-204 | Which payment each kind of webhook settles and how, including the payment update that stays when recording the event throws |
| Payments.WebhooksExactly | packages/api/src/modules/payments/payments.service.ts:129-204 | What each kind of webhook does when first delivered: Captured, Failed, or Refunded with its amount, the event of that kind, and the id marked even when the order is missing and the call throws |
| Money.CheckoutAddsUp | packages/api/src/modules/orders/orders.service.ts:57-88 | Each line is charged at quantity times the price the product had then; subtotal and total add up |
| Money.CallKeepsBills | packages/api/src/modules/orders/orders.service.ts:88-138 | No call changes the bill of an order that exists |
| Money.CallKeepsAmounts | packages/api/src/modules/payments/payments.service.ts:67-115 | A payment is created at its order's total and currency and keeps both |
| Money.MoneyIsConserved | packages/api/src/modules/payments/payments.service.ts:67-115 | In every reachable state every bill adds up and every payment is for its order's total in its currency |
| Money.BillIsFrozen | packages/api/src/modules/orders/orders.service.ts:88-138 | Over any run, with edits to products and price rules, an order keeps the bill it was created with |
| Money.BasketsMetTheMinimum | packages/api/src/modules/orders/orders.service.ts:47-88 | Every order of every reachable state was created by a call of the run, from available products, with a basket that met the minimum then in force in its zone |
| Money.PaymentsFollowTheLog | packages/api/src/modules/payments/payments.service.ts:67-204 | In every reachable state each payment has the status that the last payment event of its order announces |
| Money.ProcessedAreDelivered | packages/api/src/modules/payments/payments.service.ts:129-157 | The processed ids are exactly those delivered |
| Money.RepeatedDeliveriesChangeNothing | packages/api/src/modules/payments/payments.service.ts:129-157 | Any run of calls with repeated webhooks ends where the run with only first deliveries ends, throwing handlers included |
| WebhookRaces.DeliveryAlone | packages/api/src/modules/payments/payments.service.ts:129-157 | A delivery's lookup, handler and insert taken without interference do what the call does |
| WebhookRaces.BegunOnceIff | packages/api/src/modules/payments/payments.service.ts:129-157 | With deliveries in flight together, no id's handler is begun twice exactly when no lookup of an id falls between an earlier delivery's lookup and its insert; a server that stops in between never inserts |
| WebhookRaces.WaitingRunsAreSerial | packages/api/src/modules/payments/payments.service.ts:129-157 | Then the rows are those of a serial run that delivers each webhook once, whole, at the moment its handler ran, whatever other calls fall in between |
| WebhookRaces.RacingDeliveriesRecordTwice | packages/api/src/modules/payments/payments.service.ts:129-157 | Two deliveries of one webhook that both look up first record the success twice; one after the other, once |
| Idempotency.IdempotencyInterceptor.Prepare | packages/api/src/common/interceptors/idempotency.interceptor.ts:70-112 | Without interference: replay exactly on a finished run with this hash, proceed exactly on a fresh unlocked key, refuse otherwise |
| Idempotency.IdempotencyInterceptor.SetNx | packages/api/src/common/redis/redis.service.ts:43-46 | The lock is acquired exactly when it was free |
| Idempotency.IdempotencyInterceptor.Persist | packages/api/src/common/interceptors/idempotency.interceptor.ts:114-127 | Completes the row with the handler's answer, keeping the hash |
| Idempotency.PrepareAlone | packages/api/src/common/interceptors/idempotency.interceptor.ts:70-112 | The protocol's steps taken without interference do what the method does |
| Idempotency.ProtocolInvariant | packages/api/src/common/interceptors/idempotency.interceptor.ts:39-127 | Over every interleaving one request owns the row, it alone has started the handler, and the row and all answers hold that run's answer |
| Idempotency.HandlerRunsAtMostOnce | packages/api/src/common/interceptors/idempotency.interceptor.ts:53-127 | Over every interleaving the handler starts at most once and every answer carries that run's status and body, only to requests with its body hash; this rests on the unique row, not on the lock |
| Idempotency.AnswerableIff | packages/api/src/common/interceptors/idempotency.interceptor.ts:77-112 | A key can ever be answered again exactly when it is not a claimed row without a body whose run is over |
| Idempotency.DeadKeyStaysSilent | packages/api/src/common/interceptors/idempotency.interceptor.ts:77-112 | From then on no run gives an answer |
| Idempotency.FailedHandlerKillsKey | packages/api/src/common/interceptors/idempotency.interceptor.ts:60-68 | A handler that throws leaves its key in that state |
| Outbox.ServiceMoves | packages/api/src/modules/delivery/delivery.service.ts:36-150 | Each request of the outbox, when accepted, moves exactly its order to one status; when refused, none |
| Outbox.ServerIsTheServices | packages/api/src/modules/orders/orders.controller.ts:80-91 | The outbox's view of the server is the status side of the service calls its requests reach |
| Outbox.CashIsTheService | packages/api/src/modules/payments/payments.service.ts:98-123 | The same of a cash confirmation, accepted exactly for cash orders and again when repeated |
| Outbox.AcceptedMoveIsRefusedNext | packages/shared/src/state-machine/order-status.ts:11-42 | A move that was accepted is refused when it comes again at once |
| Outbox.OutboxDb.Enqueue | packages/driver-app/src/lib/outbox.ts:34-46 | The rows grow by one pending row at the end and keep their shape |
| Outbox.OutboxDb.FlushOutbox | packages/driver-app/src/lib/outbox.ts:53-88 | The loop over the batch selected first does exactly what sending the first pending row, then the next, while requests succeed, does, with rows enqueued and orders moved between its requests |
| Outbox.FlushMakesFiftyRequests | packages/driver-app/src/lib/outbox.ts:53-88 | A flush makes at most fifty requests, stops at the first failure, and without one sends each pending row up to fifty |
| Outbox.FlushIsARun | packages/driver-app/src/lib/outbox.ts:53-88 | A flush, whatever happens between its requests, is a run of single requests |
| Outbox.SendKeepsShape | packages/driver-app/src/lib/outbox.ts:62-86 | A request moves the head of the queue by one or not at all, and rows stay a resolved prefix before an untried pending suffix |
| Outbox.RunKeepsShape | packages/driver-app/src/lib/outbox.ts:34-88 | In every run of single requests: resolved rows, then pending ones; only the first pending row has been tried; DEAD means exactly eight attempts |
| Outbox.AtMostOnceIffRetriesRefused | packages/driver-app/src/lib/outbox.ts:62-86 | Over every run, with enqueues and other actors' moves between any two requests, moves are applied in enqueue order and at most once each, exactly when the server refused each retry of a move it had applied |
| Outbox.FlushesApplyAtMostOnce | packages/driver-app/src/lib/outbox.ts:53-88 | The same for every sequence of whole flushes, with anything happening between them and within them |
| Outbox.MovesApplyAtMostOnce | packages/driver-app/src/lib/outbox.ts:62-86 | With requests and replies lost arbitrarily and nobody moving an order between two tries of a move of it: each move at most once, in enqueue order, a row SENT exactly when a reply to an accepted request of it arrived, and the server equal to the fold of what was applied |
| Outbox.AppliedWithoutReplyIsNeverSent | packages/driver-app/src/lib/outbox.ts:72-86 | As long as retries are refused, an applied move is SENT exactly when the reply to that request arrived; otherwise it waits at the head or is DEAD |
| Outbox.DisturbedMoveAppliesTwice | packages/driver-app/src/lib/outbox.ts:62-86 | A run in which another actor moves the order back between the tries and one row is applied twice |
| Outbox.FlushUsesAttempts | packages/driver-app/src/lib/outbox.ts:53-88 | A flush that finds one of the first n rows pending strictly lowers the sum of attempts they have left, whatever happens meanwhile |
| Outbox.OutboxDrains | packages/driver-app/src/lib/outbox.ts:31-88 | On any network and whatever is enqueued or moved meanwhile, eight flushes a row resolve the first n rows, each SENT or DEAD after exactly eight attempts |
| Outbox.DrainBoundIsAttained | packages/driver-app/src/lib/outbox.ts:31-88 | Offline no smaller number of flushes is enough |
| PointInRing.PointInRing | packages/shared/src/utils/geo.ts:17-28 | The loop computes the parity of the closed ring's crossings |
| PointInRing.CrossesIsSymmetric | packages/shared/src/utils/geo.ts:22-25 | The edge test does not depend on the edge's direction |
| PointInRing.RotationInvariant | packages/shared/src/utils/geo.ts:17-28 | The answer does not depend on the ring's first vertex |
| PointInRing.ReversalInvariant | packages/shared/src/utils/geo.ts:17-28 | Nor on its orientation |
| PointInRing.ClosingVertexIsOptional | packages/shared/src/utils/geo.ts:17-28 | Nor on an explicit closing vertex |
| PointInRing.CutAlongChord | packages/shared/src/utils/geo.ts:17-28 | Any chord splits a ring into two whose answers combine by exclusive or |
| PointInRing.FanFromAnyVertex | packages/shared/src/utils/geo.ts:17-28 | The answer is the exclusive or over the fan triangulation from any vertex |
| PointInRing.TriangleMeaning | packages/shared/src/utils/geo.ts:17-28 | Off its boundary, a triangle contains the point exactly when the point is strictly on one side of all three edges |
| PointInRing.RingMeaning | packages/shared/src/utils/geo.ts:17-28 | Off the fan's edges, a ring of any shape contains the point exactly when an odd number of its fan triangles strictly contain it |
| PointInRing.OutsideTheBox | packages/shared/src/utils/geo.ts:19-26 | No point outside the bounding box, or on its upper or right border, is inside |
| PointInRing.RectangleIsHalfOpen | packages/shared/src/utils/geo.ts:19-26 | An upright rectangle has its lower and left borders inside and the others outside |
| Pricing.StringOrderIsClockOrder | packages/shared/src/utils/pricing.ts:14-19 | Comparing valid HH:mm strings is comparing minutes of the day |
| Pricing.ActiveBetweenMinutes | packages/shared/src/utils/pricing.ts:9-21 | A window is active on its days exactly from its start minute to its end minute, and never across midnight |
| Pricing.ResolveSurgeMultiplier | packages/shared/src/utils/pricing.ts:9-21 | The loop returns the largest of 1 and the multipliers of the active windows |
| Pricing.SurgeIgnoresOrderAndRepeats | packages/shared/src/utils/pricing.ts:9-21 | Order and repetition of windows do not matter |
| Pricing.QuoteInFull | packages/shared/src/utils/pricing.ts:42-99 | Every field of a quote with a rule: rounded distance fee, surge in force, rounded surged fee, the waiver exactly at the threshold, whether the minimum is met, and the total |
| Pricing.QuoteWithoutRule | packages/shared/src/utils/pricing.ts:49-67 | Without a rule delivery is free and any basket is enough |
| Pricing.FeeIsNearExact | packages/shared/src/utils/pricing.ts:42-99 | An unwaived fee is within surge/2 + 1/2, at most 3, minor units of the unrounded one |
| Pricing.FeeIsMonotone | packages/shared/src/utils/pricing.ts:42-99 | An unwaived fee never falls when distance, base, rate or surge grows, through both roundings |
| Pricing.SurgeFeeIsNonNegative | packages/shared/src/utils/pricing.ts:42-99 | The surge part, the fee and what delivery adds to the basket are never negative |
| Pricing.TotalGrowsUnlessFeeIsWaived | packages/shared/src/utils/pricing.ts:42-99 | The total grows with the basket exactly unless it crosses the free-delivery line by less than the fee |
| Pricing.TotalFallsAtTheThreshold | packages/shared/src/utils/pricing.ts:76-99 | A rule under which a basket of 900 costs 1400 and one of 1000 costs 1000 |
| RateLimit.RedisService.Incr | packages/api/src/common/redis/redis.service.ts:60 | A live counter grows by one and keeps its expiry; an absent or expired one starts at one without expiry |
| RateLimit.RedisService.RateLimit | packages/api/src/common/redis/redis.service.ts:55-68 | Only the request's own key moves; the verdict, the remainder and the reset time are read off the new counter |
| RateLimit.TraceIsTheCounter | packages/api/src/common/redis/redis.service.ts:55-68 | Windows and places within them, as used below, describe exactly the stored counter |
| RateLimit.LimitPerWindow | packages/api/src/common/redis/redis.service.ts:55-68 | No window admits more than `limit` requests, for every request sequence in time order, lost expiry commands included |
| RateLimit.LimitPerStretch | packages/api/src/common/redis/redis.service.ts:55-68 | Any half-open stretch of one window's length admits at most 2·limit − 1 requests |
| RateLimit.StretchBoundIsAttained | packages/api/src/common/redis/redis.service.ts:55-68 | That bound is reached for every limit and window |
| RateLimit.LockedOutUnlessExpirySet | packages/api/src/common/redis/redis.service.ts:60-61 | Once the limit is used up, waiting helps exactly when the expiry was set |
| Analytics.DriverPerformance | packages/api/src/modules/analytics/analytics.service.ts:19-68 | The number of orders with a delivery and of orders with a failed attempt, the rate, and the averages of the durations of the whole collection |
| Analytics.DurationsExactly | packages/api/src/modules/analytics/analytics.service.ts:44-46 | There is one duration for each order with both ends, the difference of its first times of the two types, in the order of the orders |
| Analytics.AverageIsTheMean | packages/api/src/modules/analytics/analytics.service.ts:108-111 | The average is the mean in seconds to the nearest, the upper of two, and none of nothing |
| Analytics.AverageIsBetween | packages/api/src/modules/analytics/analytics.service.ts:108-111 | It lies between the roundings of any bounds of the values |
| Analytics.SuccessRate | packages/api/src/modules/analytics/analytics.service.ts:47-59 | The rate lies in [0, 1], times the total gives the completed deliveries, and is 0 of nothing |
| Analytics.LogIsAChronicle | packages/api/src/modules/orders/orders.service.ts:211-224 | When the clock does not go back, every reachable log is in time order, its pickup and delivery events name the matching status, and none is a driver's acceptance |
| Analytics.TimelineIsHistory | packages/api/src/modules/orders/order-events.service.ts:41-46 | The statuses of an order's timeline are its history |
| Analytics.PickupPrecedesDelivery | packages/api/src/modules/analytics/analytics.service.ts:31-45 | On a legal walk the first pickup is no later than the first delivery |
| Analytics.PickupsAreInTimeIff | packages/api/src/modules/analytics/analytics.service.ts:31-45 | As long as the clock does not go back, every order's first pickup is no later than its first delivery in exactly the runs without a transition to PICKED_UP of an order delivered earlier and never picked up |
| Analytics.LegalRunsPickUpInTime | packages/api/src/modules/analytics/analytics.service.ts:31-45 | Runs whose unassigns come from ASSIGNED never pick up an order delivered earlier |
| Analytics.PerformanceOfReachableLogs | packages/api/src/modules/analytics/analytics.service.ts:19-68 | In runs whose clock does not go back and that never pick up an order delivered earlier, the average delivery time of any orders is non-negative |
| Analytics.AcceptanceIsNeverAveraged | packages/api/src/modules/analytics/analytics.service.ts:19-68 | In every run at all the accept and pickup averages have no value |
| Analytics.DeliveryTimeBelowZero | packages/api/src/modules/analytics/analytics.service.ts:19-68 | A run with an unassign from DELIVERED after which the average delivery time is minus four seconds |

## Left out

- Framework wiring, controllers, guards, pipes and schemas; the value ranges schemas fix appear as preconditions where a lemma needs them.
- Authorisation: which client, driver or admin may make a call, apart from the owner check of payment intents.
- The spatial query, zone lookup, distances and the payment provider's answers: arguments with any value.
- The job queue's own machinery: a queued job may be delivered at any time and again, and is removed when it completes.
- The earth-distance formula (`haversineKm`), ETA and floating-point error: numbers are `real` or unbounded `int`.
- Links that storage makes of picture keys, and the currency of the first product row found, are arguments.
- Payments.PaymentsService.CreatePaymentIntent: payments are known by their order, so the reply has no payment id; what the provider is sent is not modelled.
- How one-time codes are drawn and when they expire: any code may be issued, and one may expire at any moment.
- Notifications, realtime messages, and event fields that no rule reads.
- Concurrent webhooks: a handler's own two writes are one step in `WebhookRaces`.
- A server crash inside a call in serial runs; `TwoPhase` covers it for transitions, assignments and the writes between them.
- Outbox: one flush at a time, a request's effect and the update of its row as one step (they commute with anything between), creation times that grow with the id, well-formed payloads, no token refresh, and every service throw counted as one lost request; only moves are claimed to apply at most once, not cash confirmations or location pings.
- Idempotency: one (key, method, path) at a time; `userId` and `expiresAt` are stored and never read; handlers return a status above 0.
- Rate limiter: a key counts as expired from its expiry moment on, and the remaining time is rounded to the nearest second.
- Scheduled placement: nothing calls `schedulePlacement`, so no claim that a scheduled order has its job.
- Dispatch board, listings, catalogue, zones, users, storage and screens: each reads or replaces single rows and keeps nothing between them.
- Authentication: passwords, tokens and sessions rest on cryptographic libraries and share no state with orders.
