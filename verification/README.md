# Skill marketplace: a verified model of its core

Experts publish workshops, run them as dated cohorts and sell seats in them; users connect with each
other and are notified. This project models the parts of the services where something can go wrong
across several calls, and proves what they promise.

| file | what it holds |
|---|---|
| `CivilDate`, `ZoneOffset`, `CohortSchedule` | calendar days as ECMA-262 section 21.4.1 computes them, date strings, the offset parser and the fixed-point loop that inverts a time zone, the derived schedule of a cohort |
| `SessionSlots` | the validator of a workshop's session slots |
| `Catalog` | workshops and cohorts: drafts, publishing, freezing, cached windows, the overlap check |
| `Memberships`, `Payments`, `WebhookConvergence` | the membership record and its payment events, checkout sessions, Stripe webhooks |
| `OutboxWorker` | the polling loop, as single steps with failures and crashes and as a method |
| `Saga`, `SagaSafety`, `SagaTheorems` | enrollment and payment as one state machine over all of the above, its invariant, and the results about every run |
| `SagaEnrollment`, `SagaOrigins` | when an enrollment succeeds and what it writes; from which webhook each message and each joining time comes |
| `SagaDelivery` | what a delivery does over all statuses, repeated messages, their order, one message per outcome, live memberships side by side |
| `SagaExample` | one run of the saga, step by step, in which the exceptions to the results occur |
| `Services` | the services as classes over their stores, each method proved equal to the function that the saga uses |
| `Connections`, `ConnectionPaging` | the connection table, its views, its outbox, keyset pagination |
| `UnreadCounts` | the stored unread count and the Redis counter in front of it |
| `Prelude`, `Sorting` | shared vocabulary, a stable sort |

Functions on values say what an operation does to the state; methods of classes are the operations as
the services carry them out, and each is proved to do what its function says; lemmas about the functions
state the properties.

## Assumptions

- A service call is one atomic step, and one that throws leaves its own store as it was. The payments
  table belongs to another service: an enrollment that aborts after it has asked for a checkout does not
  take the payment row back, so rows without a membership are possible and are part of the model.
- Every clock reading inside a step lies between the beginning and the end of that step; the code reads
  the clock again for each membership that it filters, and the readings need not agree.
- A published message is delivered at any later time, any number of times, in any order, or never.
- Requests have passed their schemas. The id of a new membership was never used before. Identifiers are
  integers; `localeCompare` orders user ids as the integers are ordered.
- What `find` returns first, which pending rows a query returns, what Stripe answers, and the offset text
  that Intl prints for an instant are parameters. The offsets of a time zone do not change during a run.
- A user has at most one profile. Users are not deleted. `updated_at` is set by every update of a
  connection, also by the one inside the upsert.

## What the proofs found

- **Zero offsets.** Intl prints the short offset of zero as a bare "GMT", which `parseOffsetMinutes`
  refuses. Around one change of the offset a local time converts exactly when neither the offset at the
  local time read as UTC nor the offset at the instant that this one leads to is zero. In a zone like
  London's that leaves out the whole winter, the spring-forward gap, and in autumn the times from the
  change on, read as UTC (`ZoneOffset.ConvertsIff`, `ZoneOffset.ZeroOnOneSide`).
- **Month 00 of the year 100.** The date-only pattern lets `0100-00-10` through. `Date.UTC` makes it a
  day in the year 99, which is written as `0099-12-10` and read back as a day of 1999, on another weekday.
  The derived dates are right exactly when the normalised start date is not before the year 100
  (`CohortSchedule.DerivedDates`); a cohort with such a date can be created
  (`CohortSchedule.YearNinetyNineDerives`, `SagaExample.WrongDatesOccur`).
- **Early refunds.** The webhook of a refund that arrives before the payment intent is stored fails with
  "not found" and leaves no trace, so it counts only if it is sent again after an event has stored the
  intent. A payment that succeeded without an intent can never become REFUNDED, whatever is sent
  (`WebhookConvergence.PaidWithoutIntentIsStuck`). For a payment without an intent that is not refunded, a
  list of webhooks ends in the greatest outcome exactly when it holds no refund or one of its refunds comes
  after an event that stores the intent (`WebhookConvergence.ListConvergesIff`). With the intent stored,
  order and repetition do not matter; all lists end in the greatest outcome exactly then, or when the
  payment is refunded already (`WebhookConvergence.ConvergesIff`).
- **Repeated messages.** With no other message of its membership in between, delivering a message again
  changes nothing, unless it is a `payment.failed` that met an active membership: that one goes to
  awaiting_reconciliation first and to payment_failed next (`SagaDelivery.RedeliveryIsIdempotent`). With
  other messages in between, more repetitions have effects: a `payment.succeeded` that is delivered again
  after the refund moves the membership from refunded to awaiting_reconciliation. Exactly which statuses
  absorb which message is `SagaDelivery.RepetitionIff`; a repeated success never activates. Both effects
  occur in runs (`SagaExample.ExceptionsOccur`, `SagaExample.RepeatedSuccessOccurs`).
- **Order of messages.** Two different messages of one payment, one directly after the other, mostly do
  not commute: a failure and a refund never do, a success and a failure do exactly when the membership is
  active once told of the success, a success and a refund exactly when it is not. So a late
  `payment.failed` can move a membership out of awaiting_reconciliation although its payment has succeeded
  (`SagaDelivery.DeliveryOrderMattersIff`).
- **Live memberships side by side.** Enrollment refuses a user who has a live membership in the workshop,
  awaiting_reconciliation included. A late success or refund for a membership that is no longer live can
  still put it in reconciliation beside a newer one; nothing else makes two of them live, and never are
  both active or pending (`SagaDelivery.TwinsBecomeLiveIff`, `SagaDelivery.LiveTwinsReconcile`).
- **Counters without a time to live.** A notification for a user whose counter has expired makes a key
  that starts from zero and never expires, so no read-through ever refreshes it. A read-through would be
  exact in every state of a run if and only if no new notification meets a missing key while unread ones
  are stored (`UnreadCounts.AnswersExactIff`); a shortfall shrinks only when a notification is read while
  the counter stands at zero, which makes markRead throw after its commit (`UnreadCounts.ShortfallStep`).
- **Repeated requests.** A repeated connection request by the original requester gets no row back from
  the upsert; the call throws and leaves table and outbox alone (`Connections.RepeatedRequestIsNoOp`). A
  request in the other direction on an accepted connection accepts it again: it moves `updated_at`, and
  with it the place in the listing, and writes another event (`Connections.RequestBackIff`).

## Model

| member | source | states |
|---|---|---|
| SagaTheorems.SeatCapacity | skill/src/application/services/CohortService.ts:459-483 | after every run and at every later time, active seats and unexpired reservations stay within maxStudents, and the over-capacity branch of handlePaymentSucceeded is unreachable |
| SagaTheorems.OneMembershipPerWorkshop | skill/src/application/services/CohortService.ts:402-457 | after every run at most one membership per user and workshop is active or pending payment |
| SagaTheorems.PaymentSafety | skill/src/application/services/CohortService.ts:504-598 | after every run an active membership with a payment has its own payment row, at the cohort's price, in SUCCEEDED or REFUNDED, and a payment.succeeded for it was published whose time it has joined at |
| SagaOrigins.JoinedWhenPaid | payments/src/application/services/PaymentSessionService.ts:280-301 | after every run an active membership with a payment has joined at the time, in milliseconds, of a completed checkout that Stripe reported for its payment's session |
| SagaOrigins.MessagesComeFromWebhooks | payments/src/application/services/PaymentSessionService.ts:194-232 | after every run each outbox row goes back to a webhook of the run that reports its outcome, about its payment, at its time |
| SagaEnrollment.EnrollmentSucceedsIff | skill/src/application/services/CohortService.ts:378-502 | in every reachable state, exactly when an enrollment succeeds and how else it fails, and every record, payment row and answer that it leaves |
| SagaEnrollment.PlanIff | skill/src/application/services/CohortService.ts:391-475 | exactly when a checkout is resumed and when a new membership is planned: before the first session, with the pending membership found, or for a free user, a free seat and a fresh id |
| SagaEnrollment.ExpiryIff | skill/src/application/services/CohortService.ts:933-980 | the clean-ups expire exactly the lapsed reservations of the user and of the cohort |
| SagaEnrollment.ReservationLasts | skill/src/application/services/CohortService.ts:48 | a reservation holds its seat for ten minutes and is stale from then on |
| SagaEnrollment.SeatHolders | skill/src/application/services/CohortService.ts:784-808 | who holds a seat, over all statuses |
| SagaEnrollment.CheckoutStaysOpen | payments/src/application/services/PaymentSessionService.ts:51-61 | from every reachable state on, the session and the url of a membership's payment never change, whatever is resumed |
| SagaDelivery.DeliveryTable | skill/src/application/services/CohortService.ts:504-684 | in every reachable state and for every status, what a delivered success, failure or refund makes of the whole record, and that nothing else changes |
| SagaTheorems.SuccessActivatesIff | skill/src/application/services/CohortService.ts:533-596 | in every reachable state a delivered payment.succeeded activates a pending membership if and only if the reservation has not expired and the cohort has not started; otherwise it goes to reconciliation |
| SagaTheorems.StepMoves | skill/src/application/services/CohortService.ts:504-684 | no step returns a membership to pending payment, changes its cohort, user or payment, or activates an existing one other than by delivering a published payment.succeeded for it, as of its time; an active record does not change |
| SagaTheorems.TermsAreFixed | skill/src/application/services/CohortService.ts:152-172 | once a cohort has a membership it is never deleted, its price, currency, start date and window never change, and the payment rows of memberships ask for that price |
| SagaDelivery.RedeliveryIsIdempotent | skill/src/application/services/CohortService.ts:504-684 | in every reachable state, a second delivery of a message, after any steps that deliver no message of its membership, changes no membership if and only if the message is not a payment.failed that met an active membership |
| SagaDelivery.RepetitionIff | skill/src/application/services/CohortService.ts:504-684 | after anything at all in between, other messages of the membership included, exactly when a repeated message leaves the status and when the whole record; a repeated success never activates |
| SagaDelivery.QuietLeavesRecord | skill/src/application/services/CohortService.ts:378-684 | a membership that is not pending stays as it is over any run that delivers no message about it |
| SagaDelivery.OneMessagePerOutcome | payments/src/application/services/PaymentSessionService.ts:218-229 | after every run the outbox rows of one payment announce failed, succeeded, refunded in this order, each at most once, and never more than the payment has reached |
| SagaDelivery.LiveTwinsReconcile | skill/src/application/services/CohortService.ts:402-457 | after every run, of two live memberships of one user in one workshop at least one is in reconciliation |
| SagaDelivery.TwinsBecomeLiveIff | skill/src/application/services/CohortService.ts:402-457 | two such memberships come to be live side by side exactly when a success or a first refund is delivered to one that is not live while the other is; an enrollment never does it |
| SagaExample.RepeatedSuccessOccurs | skill/src/application/services/CohortService.ts:533-543 | a run in which a success is delivered again after the refund and moves the refunded membership to reconciliation |
| SagaDelivery.DeliveryOrderMattersIff | skill/src/application/services/CohortService.ts:504-684 | in every reachable state, exactly when delivering two different messages of one membership, one directly after the other, leaves it in the same status in both orders |
| SagaExample.ExceptionsOccur | skill/src/application/services/CohortService.ts:634-684 | a run from the empty state, through publishing, enrollment, webhooks and the worker, reaches an active paid membership whose payment.failed is delivered twice and moves it on each time |
| SagaExample.WrongDatesOccur | skill/src/application/services/CohortService.ts:738-762 | the same run has a cohort whose accepted start date is a day of the year 99 |
| SagaTheorems.CachedWindowsAgree | skill/src/application/services/WorkshopService.ts:270-297 | after every run the stored window of each cohort is what deriving it from the workshop's current sessions gives, and the workshop is published |
| SagaTheorems.WindowsNeverOverlap | skill/src/infrastructure/repositories/CohortRepository.ts:93-116 | after every run two cohorts of one workshop have disjoint closed windows and are never active at the same instant |
| SagaTheorems.ProcessedMeansPublished | outbox-workers/payment-outbox-worker/src/index.ts:58-126 | after every run a processed payment message has been published |
| SagaSafety.StepKeeps | skill/src/application/services/CohortService.ts:378-684 | every step of enrollment, payment, worker, delivery, management and clock keeps the whole invariant |
| SagaSafety.RunKeeps | skill/src/application/services/CohortService.ts:378-684 | so does every run |
| SagaSafety.EnrollKeeps | skill/src/application/services/CohortService.ts:378-502 | an enrollment, however it ends, keeps capacity, uniqueness and the link between memberships and payments |
| SagaSafety.DeliveryKeeps | skill/src/application/services/CohortService.ts:504-684 | handling a payment message that its payment row backs keeps them |
| SagaSafety.WebhookKeeps | payments/src/application/services/PaymentSessionService.ts:171-232 | a webhook keeps the invariant and every outbox row backed by its payment |
| SagaSafety.ManageKeeps | skill/src/application/services/CohortService.ts:60-223 | a request on workshops or cohorts keeps the invariant, maxStudents never falling below the seats held |
| SagaSafety.NeverOverCapacity | skill/src/application/services/CohortService.ts:574-585 | whatever the clock readings, handlePaymentSucceeded counts no more seats than there are |
| Services.CohortService.EnrollInCohort | skill/src/application/services/CohortService.ts:378-502 | memberships, payments and answer are those of the saga's enrollment, with the rollback of every error |
| Services.CohortService.Decide | skill/src/application/services/CohortService.ts:391-475 | the decision, and that it is safe: the cohort has not started, a checkout is resumed only for the user's own pending membership, and a new membership is planned only for a user engaged nowhere in the workshop and only while a seat is free |
| Services.CohortService.HandlePaymentSucceeded | skill/src/application/services/CohortService.ts:504-598 | the new membership rows, and when the handler throws |
| Services.CohortService.ApplyPaymentOutcome | skill/src/application/services/CohortService.ts:600-684 | the new membership rows for payment.failed and payment.refunded, and when the handler throws |
| Services.CohortService.CreateCohort | skill/src/application/services/CohortService.ts:60-95 | the new catalog, or the error and the old one |
| Services.CohortService.UpdateCohort | skill/src/application/services/CohortService.ts:141-210 | the new catalog, or the error and the old one, given the members and the seats counted |
| Services.CohortService.DeleteCohort | skill/src/application/services/CohortService.ts:212-223 | the cohort is gone exactly when it is owned and has no membership |
| Catalog.DerivedWindowIsTight | skill/src/application/services/CohortService.ts:738-762 | deriveSchedule answers only for a start date on the weekday of the earliest session, and its window is the tightest one around the derived start times |
| Services.CohortMembershipRepository.GetSeatCounts | skill/src/application/services/CohortService.ts:784-816 | the number of active rows and of held seats under one clock reading per row |
| Services.CohortMembershipRepository.ExpireStale | skill/src/application/services/CohortService.ts:933-980 | exactly the selected stale reservations become expired |
| Services.CohortRepository.FindOverlapping | skill/src/infrastructure/repositories/CohortRepository.ts:93-116 | finds a cohort exactly when one of the workshop, other than the excluded one, overlaps the window |
| Catalog.EditAllowedIff | skill/src/application/services/WorkshopService.ts:270-297 | no draft ever has cohorts, so a workshop may be edited exactly by its owner and exactly as long as it is a draft |
| Services.WorkshopService.UpdateWorkshop | skill/src/application/services/WorkshopService.ts:90-106 | the new catalog, or the error and the old one |
| Services.WorkshopService.ReplaceWorkshopSessions | skill/src/application/services/WorkshopService.ts:108-129 | the new catalog, or the error and the old one |
| Services.WorkshopService.UpdateWorkshopSession | skill/src/application/services/WorkshopService.ts:131-163 | the new catalog, or the error and the old one |
| Services.WorkshopService.PublishWorkshop | skill/src/application/services/WorkshopService.ts:165-268 | the published workshop with one outbox row that names the title of every session, or the error and neither; a validation error is collected exactly when the workshop is refused for it |
| Services.PaymentSessionService.CreateCheckoutSession | payments/src/application/services/PaymentSessionService.ts:51-169 | table and answer for every reply of Stripe, unique indexes kept |
| Services.PaymentSessionService.HandleStripeWebhook | payments/src/application/services/PaymentSessionService.ts:171-232 | payment row and outbox row are written together or not at all |
| WebhookConvergence.TransitionIff | payments/src/application/services/PaymentSessionService.ts:276-373 | an event moves a payment to a status exactly when it reports that status, concerns that payment, and the status is higher than its own; it is refused exactly when it reports a status and concerns no payment |
| WebhookConvergence.WebhookRefusedIff | payments/src/application/services/PaymentSessionService.ts:171-232 | a webhook is refused exactly when it reports a status and concerns no payment, or would give one the intent of another |
| Payments.CheckoutFrame | payments/src/application/services/PaymentSessionService.ts:51-169 | a checkout touches no row of another membership and none that is not pending; a usable answer names the one pending row of this membership |
| Payments.CheckoutReuses | payments/src/application/services/PaymentSessionService.ts:55-61 | an open checkout is answered again and no reply of Stripe changes the table |
| Payments.FirstCheckoutIff | payments/src/application/services/PaymentSessionService.ts:72-168 | exactly when a first checkout succeeds, the row that it stores, and what each failure leaves |
| Payments.SecondCheckoutIff | payments/src/application/services/PaymentSessionService.ts:63-168 | the same for a payment whose first checkout stayed without a url |
| Payments.RowTime | payments/src/application/services/PaymentSessionService.ts:276-348 | an outbox row tells the time of its event in milliseconds |
| Payments.WebhookMoves | payments/src/application/services/PaymentSessionService.ts:194-232 | a webhook changes at most one row, upwards, and writes one outbox row for that change and only then |
| WebhookConvergence.WebhooksConverge | payments/src/application/services/PaymentSessionService.ts:276-348 | for any list of webhooks about a payment with a stored intent the final status is the greatest outcome received, and the outbox rows are the strict record highs, at most three |
| WebhookConvergence.OrderIsIrrelevant | payments/src/application/services/PaymentSessionService.ts:276-348 | reordering or repeating webhooks changes nothing in the table |
| WebhookConvergence.EarlyRefundIsLost | payments/src/application/services/PaymentSessionService.ts:323-343 | a refund for an unknown intent fails and changes nothing |
| WebhookConvergence.PaidWithoutIntentIsStuck | payments/src/application/services/PaymentSessionService.ts:276-348 | no list of webhooks changes the row of a payment that succeeded, or was refunded, without a stored intent |
| WebhookConvergence.PaidWithoutIntentOccurs | payments/src/application/services/PaymentSessionService.ts:280-301 | one paid session that carries no intent puts a pending payment into that state |
| WebhookConvergence.ListConvergesIff | payments/src/application/services/PaymentSessionService.ts:276-348 | for a payment without a stored intent, a list ends in the greatest outcome exactly when the payment was refunded already, no refund is in the list, or one comes after an event that stores the intent |
| WebhookConvergence.ConvergesIff | payments/src/application/services/PaymentSessionService.ts:276-348 | the final status of a payment is the greatest of its own and the received ones for every list if and only if its intent is stored or it is refunded already |
| Memberships.RedeliveryIsIdempotentIff | skill/src/application/services/CohortService.ts:504-684 | handling an event twice is handling it once, whatever the handler finds the second time, except for a failure of an active membership |
| Memberships.EventHandled | skill/src/application/services/CohortService.ts:504-684 | what each event makes of a membership over all its statuses |
| Memberships.OrderMattersIff | skill/src/application/services/CohortService.ts:504-684 | exactly when two different events about one payment end in the same status in both orders |
| Memberships.UpdatesCompose | skill/src/domain/entities/CohortMembership.ts:51-79 | two updates are one in which the later argument wins where it is given, null clearing and undefined keeping a field |
| Memberships.SeatsReadBounds | skill/src/application/services/CohortService.ts:784-808 | a count with several clock readings lies between the counts at the latest and the earliest one |
| OutboxWorker.RunDelivers | outbox-workers/payment-outbox-worker/src/index.ts:58-126 | under overlapping ticks, failures and crashes every processed row with a known name and a valid payload was published, and no other row ever was |
| OutboxWorker.PaymentOutboxWorker.PollOnce | outbox-workers/payment-outbox-worker/src/index.ts:58-126 | rows and published messages of one tick, whichever publications and updates throw |
| OutboxWorker.TickIsARun | outbox-workers/payment-outbox-worker/src/index.ts:66-122 | a tick is a run of the interleaving model: its steps are enabled and leave the same rows and messages |
| OutboxWorker.FailureFreeTick | outbox-workers/payment-outbox-worker/src/index.ts:66-122 | when nothing fails the whole batch is marked and exactly its good rows are published |
| OutboxWorker.TickDoes | outbox-workers/payment-outbox-worker/src/index.ts:66-122 | whatever throws, exactly which rows of the batch a tick publishes and which it marks |
| OutboxWorker.TickDrains | outbox-workers/payment-outbox-worker/src/index.ts:58-126 | a tick in which nothing fails leaves as many pending rows fewer as it fetched |
| OutboxWorker.TicksDrain | outbox-workers/payment-outbox-worker/src/index.ts:58-126 | n pending rows are drained by k such ticks of full fetches in a row exactly when k is at least n/20 rounded up |
| Catalog.RequestKeeps | skill/src/application/services/WorkshopService.ts:90-297 | every request keeps windows in agreement with their frozen workshops and apart from each other |
| Catalog.RequestMoves | skill/src/application/services/CohortService.ts:141-223 | a cohort with memberships is never deleted, and of its fields only maxStudents changes, never below the seats held |
| Catalog.CohortCreatedIff | skill/src/application/services/CohortService.ts:60-95 | exactly when a cohort is created, its window, and everything that it stores |
| Catalog.CohortChangedIff | skill/src/application/services/CohortService.ts:141-210 | exactly when a cohort is changed, and its window then |
| Catalog.CohortChangeStores | skill/src/application/services/CohortService.ts:192-201 | a changed cohort stores exactly what was asked for |
| Catalog.CohortDeletedIff | skill/src/application/services/CohortService.ts:212-223 | a cohort is deleted exactly by its owner and without members |
| Catalog.CohortRefusals | skill/src/application/services/CohortService.ts:60-223 | the error of every refused request on a cohort |
| Catalog.WorkshopCreatedIff | skill/src/application/services/WorkshopService.ts:40-63 | a new workshop is a draft without sessions and without a time zone |
| Catalog.WorkshopPublishedIff | skill/src/application/services/WorkshopService.ts:165-268 | exactly when a workshop is published, nothing but its status changing |
| Catalog.EditStores | skill/src/application/services/WorkshopService.ts:90-163 | exactly when a draft is edited, and what each edit stores |
| Catalog.WorkshopRefusals | skill/src/application/services/WorkshopService.ts:90-297 | the error of every refused edit or publication |
| Catalog.OneCohortRuns | skill/src/utils/cohortSchedule.ts:177-195 | at any instant at most one cohort of a workshop is running |
| Catalog.CohortDatesRight | skill/src/application/services/CohortService.ts:738-762 | a stored cohort's dates are derived without an error, give its window, and fall on the right days exactly when the normalised start date is not before the year 100 |
| SessionSlots.ValidateSlots | skill/src/application/dtos/workshop.dto.ts:134-173 | the issues are exactly the repeated slots and the days whose orders are no permutation of 1..k; none is reported exactly when every day has one |
| SessionSlots.CollectSlots | skill/src/application/dtos/workshop.dto.ts:135-154 | an index is reported exactly when its slot occurs earlier, and the Map groups exactly the orders given |
| SessionSlots.IsContiguous | skill/src/application/dtos/workshop.dto.ts:156-171 | the sorted comparison accepts exactly the permutations of 1..k |
| SessionSlots.WellFormedDistinct | skill/src/application/dtos/workshop.dto.ts:141-148 | the slots of an accepted list are unique |
| SessionSlots.AcceptedScheduleIgnoresOrder | skill/src/utils/cohortSchedule.ts:108-118 | the derived schedule of an accepted list does not depend on the order of submission |
| CohortSchedule.DerivedSessions | skill/src/utils/cohortSchedule.ts:132-158 | the derived sessions are a sorted permutation of the sessions, with non-negative, non-decreasing day offsets from the normalised start date |
| CohortSchedule.DerivedDates | skill/src/utils/cohortSchedule.ts:132-158 | the first date is the start date, every other one as many weeks and weekdays later as its session, and every date falls on its session's weekday, exactly when the normalised start date is not before the year 100 |
| CohortSchedule.StartsShowWallClock | skill/src/utils/cohortSchedule.ts:145-157 | around one change of the offset, each derived start shows the date and the HH:mm of its session exactly outside the gap |
| CohortSchedule.StartsInConstantZone | skill/src/utils/cohortSchedule.ts:145-157 | in a zone with a constant offset each derived start is the date and the HH:mm of its session less the offset |
| CohortSchedule.DerivesIff | skill/src/utils/cohortSchedule.ts:132-158 | exactly when a schedule is derived without an error |
| CohortSchedule.StatusOfSchedule | skill/src/utils/cohortSchedule.ts:160-195 | a cohort is upcoming exactly before all of its sessions start and completed exactly after all have started |
| CohortSchedule.SortSessionsCorrect | skill/src/utils/cohortSchedule.ts:108-118 | the sort permutes and sorts by week, day and order |
| CohortSchedule.ScheduleIgnoresOrder | skill/src/utils/cohortSchedule.ts:132-158 | with unique slots the schedule does not depend on the order of the input |
| CohortSchedule.CohortWindow | skill/src/utils/cohortSchedule.ts:160-175 | the window never ends before it begins |
| CohortSchedule.MinStart | skill/src/utils/cohortSchedule.ts:169-172 | the first start is one of the derived starts and none is before it |
| CohortSchedule.MaxStart | skill/src/utils/cohortSchedule.ts:169-173 | the last start is one of the derived starts and none is after it |
| ZoneOffset.LocalDateTimeToUtc | skill/src/utils/cohortSchedule.ts:86-106 | the loop with its early exit is three rounds of the fixed-point iteration, and throws when a look-up does |
| ZoneOffset.ThreeRoundsSuffice | skill/src/utils/cohortSchedule.ts:95-105 | around one change of the offset the result shows the local time exactly when some instant does, which is exactly outside a spring-forward gap |
| ZoneOffset.OffsetTextRoundTrip | skill/src/utils/cohortSchedule.ts:49-59 | the parser reads back every offset text but the one of zero |
| ZoneOffset.OffsetTextParses | skill/src/utils/cohortSchedule.ts:49-59 | every text of GMT, a sign, one or two digits and perhaps a colon and two digits is read as its minutes |
| ZoneOffset.OnlyOffsetTextsParse | skill/src/utils/cohortSchedule.ts:49-59 | no other text is read |
| ZoneOffset.ConvertsIff | skill/src/utils/cohortSchedule.ts:49-106 | around one change of the printed offset the conversion succeeds if and only if neither of the two offsets that it looks up is zero |
| ZoneOffset.ZeroOnOneSide | skill/src/utils/cohortSchedule.ts:49-106 | for which local times that is in a zone with a zero offset before or after the change, and what converts shows the local time |
| CivilDate.CivilInverse | skill/src/utils/cohortSchedule.ts:40-47 | day numbers and calendar dates determine each other |
| CivilDate.MonthLengths | skill/src/utils/cohortSchedule.ts:40-43 | the lengths of the months, leap years included |
| CivilDate.Carries | skill/src/utils/cohortSchedule.ts:40-43 | days and months out of range are carried over, as Date.UTC does |
| CivilDate.DateRoundTrip | skill/src/utils/cohortSchedule.ts:40-47 | formatting a day and parsing it back gives the day exactly in the years 100 to 9999 |
| CivilDate.FormattedReadable | skill/src/utils/cohortSchedule.ts:19-47 | a formatted day parses at all exactly in the years 0 to 9999 |
| CivilDate.StringsStartIn99 | skill/src/utils/cohortSchedule.ts:40-43 | no date-only string names a day before the year 99 |
| CivilDate.Year99ReadsBackWrong | skill/src/utils/cohortSchedule.ts:40-47 | a day of the year 99 is read back as another day on another weekday |
| CivilDate.YearNinetyNine | skill/src/utils/cohortSchedule.ts:19-47 | the string 0100-00-10 passes the pattern and names such a day |
| CohortSchedule.YearNinetyNineDerives | skill/src/utils/cohortSchedule.ts:132-158 | from that start date, accepted for a session on the weekday that it names, a schedule is derived whose date falls on another weekday |
| CivilDate.WeekdayShift | skill/src/utils/cohortSchedule.ts:81-84 | whole weeks and the difference of weekdays lead to the wanted weekday |
| Connections.StepKeeps | user/src/infrastructure/repositories/UserConnectionRepository.ts:56-87 | every action keeps one normalized row per pair, and rows are accepted or removed only by the user who did not request them |
| Connections.RunKeeps | user/src/infrastructure/repositories/UserConnectionRepository.ts:56-87 | so does every run, and an accepted row is never undone or deleted |
| Connections.AcceptanceNeedsTheOtherSide | user/src/application/use-cases/user/AcceptConnection.usecase.ts:18-70 | in every run that accepts a row one action of the user who did not request it did so |
| Connections.EmptyOk | user/src/infrastructure/repositories/UserConnectionRepository.ts:56-87 | the empty table and outbox satisfy what the runs keep |
| Connections.OutboxTellsTable | user/src/application/use-cases/user/SendConnectionRequest.usecase.ts:41-111 | after every run replaying the outbox rebuilds the table: requester, other side and status of every connection |
| Connections.RepeatedRequestIsNoOp | user/src/infrastructure/repositories/UserConnectionRepository.ts:66-83 | a repeated request by the original requester throws and changes neither table nor outbox |
| Connections.CrossingRequestsConnect | user/src/application/use-cases/user/SendConnectionRequest.usecase.ts:23-111 | requests in both directions connect the two users |
| Connections.FirstRequestIff | user/src/application/use-cases/user/SendConnectionRequest.usecase.ts:23-111 | exactly when a first request succeeds, and the row and the event that it writes |
| Connections.RequestBackIff | user/src/infrastructure/repositories/UserConnectionRepository.ts:66-81 | with a row there, a request succeeds exactly against the direction of the first one, and accepts the row, again if it is accepted already |
| Connections.AcceptIff | user/src/application/use-cases/user/AcceptConnection.usecase.ts:18-70 | exactly the one of the two who did not request may accept, and what that writes, once |
| Connections.RejectIff | user/src/application/use-cases/user/RejectConnection.usecase.ts:19-68 | exactly the one of the two who did not request may reject, while it is pending, and what that writes |
| Connections.StatusMirrors | user/src/application/use-cases/user/GetConnectionStatusToUser.usecase.ts:12-63 | the status seen by one side mirrors the status seen by the other |
| Connections.ViewsAgree | user/src/application/use-cases/user/GetAllConnectedUserIds.usecase.ts:8-25 | the list of a user holds another user exactly when their status is not NONE, with that status and only once |
| Connections.UserConnectionRepository.UpsertRow | user/src/infrastructure/repositories/UserConnectionRepository.ts:56-87 | the inserted, accepted or refused row |
| Connections.SendConnectionRequest | user/src/application/use-cases/user/SendConnectionRequest.usecase.ts:23-123 | table and outbox after the transaction, or the error and nothing |
| Connections.AcceptConnection | user/src/application/use-cases/user/AcceptConnection.usecase.ts:18-70 | table and outbox after the transaction, or the error and nothing |
| Connections.RejectConnection | user/src/application/use-cases/user/RejectConnection.usecase.ts:19-68 | table and outbox after the transaction, or the error and nothing |
| ConnectionPaging.PagingIsExact | user/src/infrastructure/repositories/UserConnectionRepository.ts:112-227 | following nextCursor from the start with any limit of at least one ends and lists the user's accepted connections in (updated_at, id) descending order, each once, as many as the count says |
| ConnectionPaging.CursorSelectsRest | user/src/infrastructure/repositories/UserConnectionRepository.ts:149-161 | a cursor selects exactly the rows after its row |
| ConnectionPaging.NextCursorAdvances | user/src/infrastructure/repositories/UserConnectionRepository.ts:181-199 | a next cursor selects strictly fewer rows |
| ConnectionPaging.PageAt | user/src/infrastructure/repositories/UserConnectionRepository.ts:163-199 | the page at a position holds the next limit rows, or the rest, and hands out a cursor exactly if more follow |
| ConnectionPaging.FollowListsRest | user/src/infrastructure/repositories/UserConnectionRepository.ts:163-199 | following the pages from any position lists exactly the rest |
| UnreadCounts.StepKeeps | notification-service/src/application/services/NotificationService.ts:31-117 | every action keeps the stored count exact, the cached one between zero and it, and a key with a time to live exact |
| UnreadCounts.CountsAreRight | notification-service/src/application/services/NotificationService.ts:31-117 | so does every run |
| UnreadCounts.CreateAdds | notification-service/src/application/services/NotificationService.ts:31-69 | one more unread notification, stored and cached, for the recipient alone |
| UnreadCounts.MarkReadIff | notification-service/src/application/services/NotificationService.ts:86-117 | exactly when a read is committed, what it changes, and when the call fails after it |
| UnreadCounts.ReadThroughFills | notification-service/src/application/services/UnreadNotificationCountService.ts:20-47 | a hit changes nothing, a miss keeps the number of unread notifications for half an hour |
| UnreadCounts.AnswersExactIff | notification-service/src/application/services/UnreadNotificationCountService.ts:20-47 | from a state without a shortfall, a read-through would be exact in every state of a run if and only if no new notification meets a missing key while unread ones are stored |
| UnreadCounts.ShortfallStep | notification-service/src/infrastructure/adapters/RedisUnreadNotificationCountCache.ts:29-52 | the exact law of the shortfall in a step: it grows by the stored count that an increment of a missing key forgets, shrinks by one with a read committed at zero, and never changes otherwise |
| UnreadCounts.ShortfallRun | notification-service/src/application/services/NotificationService.ts:31-117 | the same law over every run |
| UnreadCounts.KeyWithoutTtlStays | notification-service/src/infrastructure/adapters/RedisUnreadNotificationCountCache.ts:29-33 | a key made by an increment outlives every run, and its shortfall never grows |
| UnreadCounts.ExpiryLosesCount | notification-service/src/infrastructure/adapters/RedisUnreadNotificationCountCache.ts:29-52 | a concrete run in which a cached count is short by one, and which reading both notifications repairs by way of an error |
| UnreadCounts.RedisUnreadNotificationCountCache.IncrementByUserId | notification-service/src/infrastructure/adapters/RedisUnreadNotificationCountCache.ts:29-33 | a missing key starts from zero without a time to live, an existing one keeps its own |
| UnreadCounts.RedisUnreadNotificationCountCache.DecrementByUserId | notification-service/src/infrastructure/adapters/RedisUnreadNotificationCountCache.ts:35-52 | throws on a missing key and on a value that is too small, and changes nothing then |
| UnreadCounts.NotificationService.CreateNotification | notification-service/src/application/services/NotificationService.ts:31-69 | notification, stored count and counter after the call |
| UnreadCounts.NotificationService.MarkAsRead | notification-service/src/application/services/NotificationService.ts:86-117 | the same for markRead; an error of the cache comes after the commit |
| UnreadCounts.NotificationService.GetUnreadCountForUser | notification-service/src/application/services/UnreadNotificationCountService.ts:20-47 | the answer, the created document and the filled key |

## Left out

- Interleavings inside one service call, snapshot isolation, and a process that stops between the commit of a notification and the update of the counter: calls are atomic steps.
- HTTP controllers, routing, dependency injection, loggers, error mapping and every schema but the slot validator.
- Stripe, RabbitMQ, MongoDB, PostgreSQL, Redis and Intl themselves; they appear as maps, logs and parameters. A message log with free delivery stands for the exchange and its queues.
- Webhook signatures, return URLs and metadata, and workshop ids and titles of payment rows: they are passed through.
- Titles, banners and descriptions of workshops beyond the session titles that publishing asks for, also in the workshop.published row.
- `String.prototype.trim` strips more kinds of white space than the four that the model knows; which titles count as blank affects only whether publishing is refused.
- The read-only views of cohorts and memberships (summaries, enrollment contexts, member lists).
- The encoding of a paging cursor as a string, and the columns that a page shows; a cursor is the pair that it encodes.
- Paging of notifications: its next cursor is the look-ahead row under a strict comparison, so exact paging is not claimed for it.
- Deletion of users, and the profiles that a page of connections joins.
- The check that a time zone name is known to Intl; a time zone is any map from instants to offsets.
- SessionSlots.CollectSlots: does not model the strings that the Set and the Map use as keys; triples and pairs of integers stand for them.
- Catalog.RequestKeeps: does not model how session and cohort ids are generated; they are part of the request.
- ConnectionPaging.PagingIsExact: paging is modelled on values, as queries over a table that does not change between the pages.
