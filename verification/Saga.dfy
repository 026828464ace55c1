/** Enrollment and payment as one state machine: the cohort catalog, the memberships, the payments
    table, the outbox worker with its message log, and a clock.  Each service call is one atomic
    step; only the payments table, which another service owns, is not rolled back when an
    enrollment aborts.  A published message may be delivered at any later time, any number of
    times, in any order, or never. */
module Saga {
  import opened Prelude
  import opened Memberships
  import opened Payments
  import opened CohortSchedule
  import Cat = Catalog
  import Worker = OutboxWorker

  const RESERVATION_TTL_MS := 600000

  datatype World = World(
    catalog: Cat.State, memberships: Memberships, payments: Payments, worker: Worker.State, clock: int)

  /** The readings of the clock inside one step.  The code reads it again for every membership it
      filters; all readings lie between the beginning and the end of the step. */
  datatype Readings = Readings(
    begin: int, end: int, ownExpiry: Id -> int, cohortExpiry: Id -> int, seats: Id -> int, status: int, stamp: int)

  ghost predicate IsReadings(r: Readings, clock: int) {
    && clock <= r.begin <= r.end && r.begin <= r.status <= r.end && r.begin <= r.stamp <= r.end
    && (forall i :: r.begin <= r.ownExpiry(i) <= r.end)
    && (forall i :: r.begin <= r.cohortExpiry(i) <= r.end)
    && (forall i :: r.begin <= r.seats(i) <= r.end)
  }

  // ---- enrollInCohort ----

  predicate IsStale(m: Membership, t: int) {
    m.status == PendingPayment && m.expiresAt.Some? && m.expiresAt.value <= t
  }

  /** expireStalePendingMemberships and its namesake for cohorts, on the rows that they select. */
  ghost function Expire(ms: Memberships, selected: set<Id>, at: Id -> int): Memberships {
    map i | i in ms ::
      if i in selected && IsStale(ms[i], at(i)) then Update(ms[i], NO_CHANGE.(status := Some(Expired))) else ms[i]
  }

  ghost function OfUser(ms: Memberships, userId: Id): set<Id> {
    set i | i in ms && ms[i].userId == userId
  }

  /** LIVE_MEMBERSHIP_STATUSES */
  predicate IsLive(m: Membership) {
    m.status == Active || m.status == PendingPayment || m.status == AwaitingReconciliation
  }

  /** What the store and the payments service contribute to an enrollment: the id of the new
      membership, the row that `find` meets first among the user's live memberships of the cohort,
      and the outcome of the call for a checkout session.  replyLost: the call was made but the
      transaction aborts, because the reply is lost or the commit fails. */
  datatype EnrollEnv = EnrollEnv(
    readings: Readings, membershipId: Id, found: Id, paymentId: Id, stripe: StripeReply, replyLost: bool)

  datatype Enrollment = Enrollment(membershipId: Id, requiresPayment: bool, checkout: Option<Checkout>)

  datatype Plan = Resume(membershipId: Id) | JoinFree | Reserve

  /** The user's live memberships of this cohort. */
  ghost function LiveHere(ms: Memberships, cohortId: Id, userId: Id): set<Id> {
    set i | i in ms && ms[i].userId == userId && IsLive(ms[i]) && ms[i].cohortId == cohortId
  }

  /** The user has a live membership of another cohort of the workshop. */
  ghost predicate LiveElsewhere(cs: map<Id, Cat.Cohort>, ms: Memberships, cohortId: Id, userId: Id) {
    cohortId in cs &&
    exists i :: i in ms && ms[i].userId == userId && IsLive(ms[i]) && ms[i].cohortId in cs && ms[i].cohortId != cohortId
      && cs[ms[i].cohortId].workshopId == cs[cohortId].workshopId
  }

  /** enrollInCohort after the stale reservations have been expired. */
  ghost function PlanEnrollment(cat: Cat.State, ms: Memberships, cohortId: Id, userId: Id,
                                env: EnrollEnv): Outcome<Plan>
    requires cohortId in cat.cohorts
  {
    var cohort := cat.cohorts[cohortId];
    var here := LiveHere(ms, cohortId, userId);
    if StatusAt(cohort.window, env.readings.status) != Upcoming then Err(Conflict)
    else if cohort.workshopId !in cat.workshops then Err(NotFound)
    else if here != {} then
      if env.found in here && ms[env.found].status == PendingPayment then Ok(Resume(env.found)) else Err(Conflict)
    else if LiveElsewhere(cat.cohorts, ms, cohortId, userId) then Err(Conflict)
    else if |SeatsRead(ms, cohortId, env.readings.seats)| >= cohort.maxStudents then Err(Conflict)
    else if env.membershipId in ms then Err(Database)
    else if cohort.spotPriceAmount == 0 then Ok(JoinFree)
    else Ok(Reserve)
  }

  function CheckoutFor(cohort: Cat.Cohort, cohortId: Id, userId: Id, membershipId: Id): CheckoutInput {
    CheckoutInput(membershipId, userId, cohortId, cohort.spotPriceAmount, cohort.currency)
  }

  ghost function AfterExpiry(ms: Memberships, cohortId: Id, userId: Id, r: Readings): Memberships {
    var own := Expire(ms, OfUser(ms, userId), r.ownExpiry);
    Expire(own, MembersOf(own, cohortId), r.cohortExpiry)
  }

  ghost function Enroll(cat: Cat.State, ms: Memberships, ps: Payments, cohortId: Id, userId: Id, env: EnrollEnv)
    : (Memberships, Payments, Outcome<Enrollment>)
  {
    if cohortId !in cat.cohorts then (ms, ps, Err(NotFound))
    else
      var cohort := cat.cohorts[cohortId];
      if cohort.expertId == userId then (ms, ps, Err(Conflict))
      else
        var current := AfterExpiry(ms, cohortId, userId, env.readings);
        var plan := PlanEnrollment(cat, current, cohortId, userId, env);
        if plan.Err? then (ms, ps, Err(plan.error))
        else if plan.value == JoinFree then
          var joined := Membership(cohortId, userId, None, Active, Some(env.readings.stamp), None, None);
          (current[env.membershipId := joined], ps, Ok(Enrollment(env.membershipId, false, None)))
        else
          var id := if plan.value.Resume? then plan.value.membershipId else env.membershipId;
          var (qs, reply) := CreateCheckout(ps, CheckoutFor(cohort, cohortId, userId, id), env.paymentId, env.stripe);
          if reply.Err? || env.replyLost then (ms, qs, Err(External))
          else if plan.value.Resume? then (current, qs, Ok(Enrollment(id, true, Some(reply.value))))
          else
            var reserved := Membership(cohortId, userId, Some(reply.value.paymentId), PendingPayment, None,
                                       Some(env.readings.stamp + RESERVATION_TTL_MS), None);
            (current[id := reserved], qs, Ok(Enrollment(id, true, Some(reply.value))))
  }

  // ---- payment messages ----

  function PaymentEventOf(name: string): Option<PaymentEvent> {
    if name == "payment.succeeded" then Some(PaymentSucceeded)
    else if name == "payment.failed" then Some(PaymentWasFailed)
    else if name == "payment.refunded" then Some(PaymentRefunded)
    else None
  }

  predicate ReservationExpired(m: Membership, r: Readings) {
    m.expiresAt.Some? && m.expiresAt.value <= r.stamp
  }

  /** What handlePaymentSucceeded reads before it activates a reservation. */
  ghost function CheckNow(cat: Cat.State, ms: Memberships, m: Membership, r: Readings): Check {
    if m.cohortId !in cat.cohorts then Check(ReservationExpired(m, r), false, false)
    else
      Check(ReservationExpired(m, r),
            StatusAt(cat.cohorts[m.cohortId].window, r.status) == Upcoming,
            |SeatsRead(ms, m.cohortId, r.seats)| > cat.cohorts[m.cohortId].maxStudents)
  }

  /** The handlers throw for an unknown membership, and handlePaymentSucceeded does where it looks up
      an unknown cohort. */
  predicate HandlerThrows(cat: Cat.State, ms: Memberships, id: Id, event: PaymentEvent, r: Readings) {
    || id !in ms
    || (event == PaymentSucceeded && ms[id].status == PendingPayment && !ReservationExpired(ms[id], r)
        && ms[id].cohortId !in cat.cohorts)
  }

  /** The handlers for payment.succeeded, payment.failed and payment.refunded.  Throwing changes
      nothing. */
  ghost function HandleMessage(cat: Cat.State, ms: Memberships, row: Worker.Row, r: Readings): Memberships {
    if !row.payload.PaymentOutcome? || PaymentEventOf(row.eventName).None? then ms
    else
      var id, event := row.payload.membershipId, PaymentEventOf(row.eventName).value;
      if HandlerThrows(cat, ms, id, event, r) then ms
      else ms[id := OnEvent(ms[id], event, row.payload.paymentId, row.payload.occurredAt, CheckNow(cat, ms, ms[id], r))]
  }

  // ---- the steps ----

  datatype Event =
    | Manage(request: Cat.Request, readings: Readings)
    | Enrolls(cohortId: Id, userId: Id, env: EnrollEnv)
    | Webhook(event: StripeEvent)
    | Work(step: Worker.Step)
    | Deliver(message: nat, readings: Readings)
    | Wait(until: int)

  /** The known payment events and their schema. */
  const PAYMENT_SCHEMAS: Worker.Schemas := map[
    "payment.succeeded" := (p: Worker.Payload) => p.PaymentOutcome?,
    "payment.failed" := (p: Worker.Payload) => p.PaymentOutcome?,
    "payment.refunded" := (p: Worker.Payload) => p.PaymentOutcome?]

  /** Requests pass their schemas, new membership ids were never used before, and time does not run
      backwards. */
  ghost predicate Enabled(w: World, e: Event) {
    match e
    case Manage(request, readings) => Cat.IsRequest(request) && IsReadings(readings, w.clock)
    case Enrolls(_, _, env) =>
      && IsReadings(env.readings, w.clock)
      && forall p :: p in w.payments ==> w.payments[p].membershipId != env.membershipId
    case Webhook(_) => true
    case Work(step) => !step.Insert? && Worker.Enabled(PAYMENT_SCHEMAS, w.worker, step)
    case Deliver(i, readings) => i in w.worker.published && i < |w.worker.rows| && IsReadings(readings, w.clock)
    case Wait(until) => w.clock <= until
  }

  ghost function CountMembers(ms: Memberships, cohortId: Id, r: Readings): Cat.Members {
    Cat.Members(|MembersOf(ms, cohortId)|, |SeatsRead(ms, cohortId, r.seats)|)
  }

  ghost function Do(w: World, e: Event, cal: Cat.Calendar): World
    requires Enabled(w, e)
  {
    match e
    case Manage(request, r) =>
      w.(catalog := Cat.After(w.catalog, request, CountMembers(w.memberships, request.id, r), cal), clock := r.end)
    case Enrolls(cohortId, userId, env) =>
      var (ms, ps, _) := Enroll(w.catalog, w.memberships, w.payments, cohortId, userId, env);
      w.(memberships := ms, payments := ps, clock := env.readings.end)
    case Webhook(ev) =>
      var (ps, rows) := AfterWebhook(w.payments, ev);
      w.(payments := ps, worker := w.worker.(rows := w.worker.rows + rows))
    case Work(step) => w.(worker := Worker.Do(PAYMENT_SCHEMAS, w.worker, step))
    case Deliver(i, r) =>
      w.(memberships := HandleMessage(w.catalog, w.memberships, w.worker.rows[i], r), clock := r.end)
    case Wait(until) => w.(clock := until)
  }

  ghost predicate Runs(w: World, es: seq<Event>, cal: Cat.Calendar)
    decreases |es|
  {
    es == [] || (Enabled(w, es[0]) && Runs(Do(w, es[0], cal), es[1..], cal))
  }

  ghost function Run(w: World, es: seq<Event>, cal: Cat.Calendar): World
    requires Runs(w, es, cal)
    decreases |es|
  {
    if es == [] then w else Run(Do(w, es[0], cal), es[1..], cal)
  }

  const EMPTY := World(Cat.State(map[], map[]), map[], map[], Worker.State([], map[], {}), 0)
}
