/** The results about every run of the saga from the empty world. */
module SagaTheorems {
  import opened Prelude
  import opened Memberships
  import opened Payments
  import opened CohortSchedule
  import opened Saga
  import opened SagaSafety
  import Cat = Catalog
  import Worker = OutboxWorker
  import ZoneOffset
  import CivilDate

  lemma ReachableOk(es: seq<Event>, cal: Cat.Calendar)
    requires Cat.IsCalendar(cal) && Runs(EMPTY, es, cal)
    ensures Inv(Run(EMPTY, es, cal), cal)
  {
    EmptyOk(cal);
    RunKeeps(EMPTY, es, cal);
  }

  // ---- seats and engagements ----

  /** Seat capacity: at the end of every run and at every later clock time, the active seats and the
      unexpired reservations of a cohort do not exceed maxStudents, and no delivery that may follow
      can find the cohort over capacity. */
  lemma SeatCapacity(es: seq<Event>, cal: Cat.Calendar, c: Id, t: int)
    requires Cat.IsCalendar(cal) && Runs(EMPTY, es, cal)
    requires c in Run(EMPTY, es, cal).catalog.cohorts && t >= Run(EMPTY, es, cal).clock
    ensures
      var w := Run(EMPTY, es, cal);
      && |SeatsAt(w.memberships, c, t)| <= w.catalog.cohorts[c].maxStudents
      && forall m: Membership, r: Readings | IsReadings(r, w.clock) && m.cohortId == c ::
           !CheckNow(w.catalog, w.memberships, m, r).overCapacity
  {
    var w := Run(EMPTY, es, cal);
    ReachableOk(es, cal);
    SeatsShrink(w.memberships, c, w.clock, t);
    forall m: Membership, r | IsReadings(r, w.clock) && m.cohortId == c
      ensures !CheckNow(w.catalog, w.memberships, m, r).overCapacity
    {
      NeverOverCapacity(w.catalog.cohorts, w.memberships, w.clock, c, r);
    }
  }

  /** At most one membership per user and workshop is ever active or pending payment. */
  lemma OneMembershipPerWorkshop(es: seq<Event>, cal: Cat.Calendar, i: Id, j: Id)
    requires Cat.IsCalendar(cal) && Runs(EMPTY, es, cal)
    requires
      var w := Run(EMPTY, es, cal);
      && i in w.memberships && j in w.memberships
      && Engaged(w.memberships[i]) && Engaged(w.memberships[j])
      && w.memberships[i].userId == w.memberships[j].userId
    ensures
      var w := Run(EMPTY, es, cal);
      var c, d := w.memberships[i].cohortId, w.memberships[j].cohortId;
      && c in w.catalog.cohorts && d in w.catalog.cohorts
      && (w.catalog.cohorts[c].workshopId == w.catalog.cohorts[d].workshopId ==> i == j)
  {
    ReachableOk(es, cal);
    var w := Run(EMPTY, es, cal);
    assert BothEngaged(w.catalog.cohorts, w.memberships[i], w.memberships[j]);
  }

  // ---- how memberships change in a step ----

  /** Message k is a published payment.succeeded for membership i. */
  ghost predicate SuccessPublished(w: World, k: nat, i: Id) {
    && k in w.worker.published && k < |w.worker.rows| && w.worker.rows[k].eventName == "payment.succeeded"
    && w.worker.rows[k].payload.PaymentOutcome? && w.worker.rows[k].payload.membershipId == i
  }

  /** The membership was activated by an event of this time. */
  predicate Activated(m: Membership, at: int) {
    m.status == Active && m.joinedAt == Some(at) && m.lastPaymentEventAt == Some(at) && m.expiresAt == None
  }

  /** Memberships stay, with their cohort, user and payment.  None returns to pending payment, and
      an existing one becomes active only when a published payment.succeeded for it is delivered, as of
      the time that the message tells; while it is active its record does not change. */
  ghost predicate MembershipsMove(w: World, v: World, e: Event) {
    && (forall i :: i in w.memberships ==>
          && i in v.memberships
          && var m, n := w.memberships[i], v.memberships[i];
          && n.cohortId == m.cohortId && n.userId == m.userId && n.paymentId == m.paymentId
          && (n.status == PendingPayment ==> m.status == PendingPayment)
          && (n.status == Active && m.status == Active ==> n == m)
          && (n.status == Active && m.status != Active ==>
                && e.Deliver? && SuccessPublished(w, e.message, i)
                && Activated(n, w.worker.rows[e.message].payload.occurredAt)))
    && (forall i :: i in v.memberships && i !in w.memberships ==>
          v.memberships[i].status == Active ==> v.memberships[i].paymentId.None?)
  }

  lemma DeliveryMoves(w: World, k: nat, r: Readings, cal: Cat.Calendar)
    requires Inv(w, cal) && Enabled(w, Deliver(k, r))
    ensures MembershipsMove(w, Do(w, Deliver(k, r), cal), Deliver(k, r))
  {
    hide Cat.Inv, Worker.Inv, UniqueKeys, IsReadings, Placed, TermsAgree, CheckNow, ReservationExpired;
    var row := w.worker.rows[k];
    assert Backed(row, w.payments);
    assert row.payload.membershipId in w.memberships ==>
        w.memberships[row.payload.membershipId].paymentId == Some(row.payload.paymentId);
  }

  lemma NewIdIsFresh(cat: Cat.State, ms: Memberships, c: Id, u: Id, env: EnrollEnv)
    requires c in cat.cohorts
    ensures var plan := PlanEnrollment(cat, ms, c, u, env); plan.Ok? && !plan.value.Resume? ==> env.membershipId !in ms
  {
    hide LiveHere, LiveElsewhere, SeatsRead, StatusAt;
  }

  lemma EnrollMoves(w: World, c: Id, u: Id, env: EnrollEnv, cal: Cat.Calendar)
    requires Inv(w, cal) && Enabled(w, Enrolls(c, u, env))
    ensures MembershipsMove(w, Do(w, Enrolls(c, u, env), cal), Enrolls(c, u, env))
  {
    hide Inv, CreateCheckout, IsReadings, AfterExpiry, PlanEnrollment;
    ExpiryAges(w.memberships, c, u, env.readings);
    var current := AfterExpiry(w.memberships, c, u, env.readings);
    assert forall i :: i in w.memberships ==> Ages(w.memberships[i], current[i]);
    if c in w.catalog.cohorts {
      NewIdIsFresh(w.catalog, current, c, u, env);
    }
  }

  lemma UnmovedMemberships(w: World, v: World, e: Event)
    requires v.memberships == w.memberships
    ensures MembershipsMove(w, v, e)
  {
  }

  lemma StepMoves(w: World, e: Event, cal: Cat.Calendar)
    requires Inv(w, cal) && Enabled(w, e)
    ensures MembershipsMove(w, Do(w, e, cal), e)
  {
    hide MembershipsMove, Inv, Cat.After, AfterWebhook, Worker.Do, IsReadings;
    match e
    case Enrolls(c, u, env) => EnrollMoves(w, c, u, env, cal);
    case Deliver(k, r) => DeliveryMoves(w, k, r, cal);
    case _ => UnmovedMemberships(w, Do(w, e, cal), e);
  }

  // ---- payment safety ----

  /** Every active membership with a payment has been told so by a published payment.succeeded, and is
      active since the time that the message tells. */
  ghost predicate ActivationsAnnounced(w: World) {
    forall i :: i in w.memberships && w.memberships[i].status == Active && w.memberships[i].paymentId.Some? ==>
      exists k: nat :: SuccessPublished(w, k, i) && Activated(w.memberships[i], w.worker.rows[k].payload.occurredAt)
  }

  lemma AnnouncementStays(w: World, e: Event, cal: Cat.Calendar, k: nat, i: Id)
    requires Enabled(w, e) && SuccessPublished(w, k, i)
    ensures SuccessPublished(Do(w, e, cal), k, i)
    ensures Do(w, e, cal).worker.rows[k].payload == w.worker.rows[k].payload
  {
    hide Cat.After, AfterWebhook, Enroll, HandleMessage;
  }

  lemma StepAnnounces(w: World, e: Event, cal: Cat.Calendar)
    requires Inv(w, cal) && ActivationsAnnounced(w) && Enabled(w, e)
    ensures ActivationsAnnounced(Do(w, e, cal))
  {
    var v := Do(w, e, cal);
    StepMoves(w, e, cal);
    forall i | i in v.memberships && v.memberships[i].status == Active && v.memberships[i].paymentId.Some?
      ensures exists k: nat ::
                SuccessPublished(v, k, i) && Activated(v.memberships[i], v.worker.rows[k].payload.occurredAt)
    {
      var k: nat;
      if i in w.memberships && w.memberships[i].status == Active {
        k :| SuccessPublished(w, k, i) && Activated(w.memberships[i], w.worker.rows[k].payload.occurredAt);
      } else {
        k := e.message;
      }
      AnnouncementStays(w, e, cal, k, i);
    }
  }

  lemma {:induction false} RunAnnounces(w: World, es: seq<Event>, cal: Cat.Calendar)
    requires Inv(w, cal) && ActivationsAnnounced(w) && Cat.IsCalendar(cal) && Runs(w, es, cal)
    ensures ActivationsAnnounced(Run(w, es, cal))
    decreases |es|
  {
    if es != [] {
      StepKeeps(w, es[0], cal);
      StepAnnounces(w, es[0], cal);
      RunAnnounces(Do(w, es[0], cal), es[1..], cal);
    }
  }

  /** End-to-end payment safety: after every run, with duplicated, delayed, reordered or lost
      messages and worker crashes, an active membership with a payment has its one payment row, for
      this very membership and the cohort's price, in status SUCCEEDED or REFUNDED, and a
      payment.succeeded for it was published, whose time is the one the membership has joined at. */
  lemma PaymentSafety(es: seq<Event>, cal: Cat.Calendar, i: Id)
    requires Cat.IsCalendar(cal) && Runs(EMPTY, es, cal)
    requires
      var w := Run(EMPTY, es, cal);
      i in w.memberships && w.memberships[i].status == Active && w.memberships[i].paymentId.Some?
    ensures
      var w := Run(EMPTY, es, cal);
      var m := w.memberships[i];
      && m.paymentId.value in w.payments && m.cohortId in w.catalog.cohorts
      && var p, c := w.payments[m.paymentId.value], w.catalog.cohorts[m.cohortId];
      && p.membershipId == i && p.userId == m.userId && p.cohortId == m.cohortId
      && p.amount == c.spotPriceAmount && p.currency == c.currency
      && (p.status == SUCCEEDED || p.status == REFUNDED)
      && exists k: nat :: SuccessPublished(w, k, i) && Activated(m, w.worker.rows[k].payload.occurredAt)
  {
    ReachableOk(es, cal);
    EmptyOk(cal);
    RunAnnounces(EMPTY, es, cal);
  }

  /** Every activation happens, and none without cause: in every reachable world, delivering a
      published payment.succeeded to a pending membership activates it for this payment if and only
      if its reservation has not expired and its cohort has not started when the handler looks at the
      clock; otherwise the membership goes to reconciliation.  There is always a seat for it. */
  lemma SuccessActivatesIff(es: seq<Event>, cal: Cat.Calendar, k: nat, r: Readings)
    requires Cat.IsCalendar(cal) && Runs(EMPTY, es, cal) && Enabled(Run(EMPTY, es, cal), Deliver(k, r))
    requires
      var w := Run(EMPTY, es, cal);
      && w.worker.rows[k].eventName == "payment.succeeded" && w.worker.rows[k].payload.PaymentOutcome?
      && w.worker.rows[k].payload.membershipId in w.memberships
      && w.memberships[w.worker.rows[k].payload.membershipId].status == PendingPayment
    ensures
      var w, v := Run(EMPTY, es, cal), Do(Run(EMPTY, es, cal), Deliver(k, r), cal);
      var i := w.worker.rows[k].payload.membershipId;
      var m := w.memberships[i];
      && m.cohortId in w.catalog.cohorts && i in v.memberships && m.expiresAt.Some?
      && v.memberships[i].paymentId == m.paymentId == Some(w.worker.rows[k].payload.paymentId)
      && (v.memberships[i].status == Active <==>
            r.stamp < m.expiresAt.value && r.status < w.catalog.cohorts[m.cohortId].window.first)
      && v.memberships[i].status in {Active, AwaitingReconciliation}
      && |SeatsAt(v.memberships, m.cohortId, r.end)| <= v.catalog.cohorts[m.cohortId].maxStudents
  {
    hide Cat.Inv, Worker.Inv, UniqueKeys, TermsAgree, OneEngagement, ActiveArePaid;
    var w, e := Run(EMPTY, es, cal), Deliver(k, r);
    ReachableOk(es, cal);
    StepKeeps(w, e, cal);
    assert Backed(w.worker.rows[k], w.payments);
    var m := w.memberships[w.worker.rows[k].payload.membershipId];
    NeverOverCapacity(w.catalog.cohorts, w.memberships, w.clock, m.cohortId, r);
  }

  // ---- fixed terms ----

  ghost predicate HasMember(w: World, c: Id) {
    c in w.catalog.cohorts && exists i :: i in w.memberships && w.memberships[i].cohortId == c
  }

  lemma StepFixesTerms(w: World, e: Event, cal: Cat.Calendar, c: Id)
    requires Inv(w, cal) && Enabled(w, e) && HasMember(w, c)
    ensures HasMember(Do(w, e, cal), c)
    ensures Cat.SameTerms(w.catalog.cohorts[c], Do(w, e, cal).catalog.cohorts[c])
  {
    hide AfterWebhook, Enroll, HandleMessage, Worker.Do, IsReadings, Cat.Inv, Worker.Inv;
    StepMoves(w, e, cal);
    var i :| i in w.memberships && w.memberships[i].cohortId == c;
    assert Do(w, e, cal).memberships[i].cohortId == c;
    if e.Manage? {
      var m := CountMembers(w.memberships, e.request.id, e.readings);
      Cat.RequestMoves(w.catalog, e.request, m, cal);
      NoMembers(w.memberships, c);
    }
  }

  /** Terms are fixed at enrollment: once a cohort has a membership, it is never deleted and its
      price, currency, start date and window never change again; and the payment rows of existing
      memberships ask for exactly this price. */
  lemma {:induction false} TermsAreFixed(w: World, es: seq<Event>, cal: Cat.Calendar, c: Id)
    requires Inv(w, cal) && Cat.IsCalendar(cal) && Runs(w, es, cal) && HasMember(w, c)
    ensures
      var v := Run(w, es, cal);
      && HasMember(v, c) && Cat.SameTerms(w.catalog.cohorts[c], v.catalog.cohorts[c])
      && TermsAgree(v.catalog.cohorts, v.memberships, v.payments)
    decreases |es|
  {
    if es != [] {
      StepKeeps(w, es[0], cal);
      StepFixesTerms(w, es[0], cal, c);
      TermsAreFixed(Do(w, es[0], cal), es[1..], cal, c);
    }
  }

  // ---- the catalog ----

  /** Cached windows: after every run the stored window of each cohort is the window derived anew
      from its workshop's current sessions, and its workshop is published. */
  lemma CachedWindowsAgree(es: seq<Event>, zones: string -> ZoneOffset.Zone, c: Id)
    requires Runs(EMPTY, es, Cat.CalendarOf(zones)) && c in Run(EMPTY, es, Cat.CalendarOf(zones)).catalog.cohorts
    ensures
      var s := Run(EMPTY, es, Cat.CalendarOf(zones)).catalog;
      var cohort := s.cohorts[c];
      && cohort.workshopId in s.workshops && s.workshops[cohort.workshopId].status == Cat.Published
      && s.workshops[cohort.workshopId].timezone == Some(cohort.workshopTimezone)
      && Some(cohort.window) ==
           WindowOf(s.workshops[cohort.workshopId].sessions, cohort.startDate, zones(cohort.workshopTimezone))
      && cohort.window.first <= cohort.window.last
  {
    hide WindowOf, EarliestSession, CivilDate.DateOnlyWeekday;
    var cal := Cat.CalendarOf(zones);
    Cat.CalendarOfIsCalendar(zones);
    ReachableOk(es, cal);
    var s := Run(EMPTY, es, cal).catalog;
    assert Cat.Agrees(s, s.cohorts[c], cal);
  }

  /** No overlap: after every run two cohorts of one workshop have disjoint windows, so that at any
      instant at most one of them is running. */
  lemma WindowsNeverOverlap(es: seq<Event>, cal: Cat.Calendar, c: Id, d: Id, now: int)
    requires Cat.IsCalendar(cal) && Runs(EMPTY, es, cal)
    requires
      var cs := Run(EMPTY, es, cal).catalog.cohorts;
      c in cs && d in cs && c != d && cs[c].workshopId == cs[d].workshopId
    ensures
      var cs := Run(EMPTY, es, cal).catalog.cohorts;
      && !Cat.Overlaps(cs[c].window, cs[d].window)
      && !(StatusAt(cs[c].window, now) == Running && StatusAt(cs[d].window, now) == Running)
  {
    ReachableOk(es, cal);
  }

  /** Outbox delivery seen from the saga: every processed payment message has been published. */
  lemma ProcessedMeansPublished(es: seq<Event>, cal: Cat.Calendar, k: nat)
    requires Cat.IsCalendar(cal) && Runs(EMPTY, es, cal)
    requires k < |Run(EMPTY, es, cal).worker.rows| && Run(EMPTY, es, cal).worker.rows[k].status == Worker.PROCESSED
    ensures k in Run(EMPTY, es, cal).worker.published
  {
    ReachableOk(es, cal);
    var w := Run(EMPTY, es, cal);
    assert Backed(w.worker.rows[k], w.payments);
    assert Worker.Good(PAYMENT_SCHEMAS, w.worker.rows[k]);
  }
}
