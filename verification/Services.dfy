/** The services as objects over their stores, proved against the functions of the saga. */
module Services {
  import opened Prelude
  import opened Memberships
  import opened Payments
  import opened CohortSchedule
  import opened Saga
  import opened SagaSafety
  import Cat = Catalog
  import Worker = OutboxWorker

  // ---- the payments service ----

  class PaymentSessionService {
    var payments: Payments
    var outbox: seq<Worker.Row>

    constructor ()
      ensures payments == map[] && outbox == []
    {
      payments, outbox := map[], [];
    }

    method FindByMembershipId(membershipId: Id) returns (r: Option<Id>)
      requires UniqueKeys(payments)
      ensures r == FindByMembership(payments, membershipId)
    {
      if p :| p in payments && payments[p].membershipId == membershipId {
        r := Some(p);
      } else {
        r := None;
      }
    }

    method FindByCheckoutSessionId(session: Id) returns (r: Option<Id>)
      requires UniqueKeys(payments)
      ensures r == FindBySession(payments, session)
    {
      if p :| p in payments && payments[p].checkoutSession == Some(session) {
        r := Some(p);
      } else {
        r := None;
      }
    }

    method FindByPaymentIntentId(intent: Id) returns (r: Option<Id>)
      requires UniqueKeys(payments)
      ensures r == FindByIntent(payments, intent)
    {
      if p :| p in payments && payments[p].paymentIntent == Some(intent) {
        r := Some(p);
      } else {
        r := None;
      }
    }

    /** The row is inserted before Stripe is asked, deleted again if Stripe throws, and completed
        with the session otherwise. */
    method CreateCheckoutSession(input: CheckoutInput, newId: Id, reply: StripeReply) returns (r: Outcome<Checkout>)
      requires UniqueKeys(payments)
      modifies this`payments
      ensures (payments, r) == CreateCheckout(old(payments), input, newId, reply)
      ensures UniqueKeys(payments)
    {
      CheckoutFrame(payments, input, newId, reply);
      var existing := FindByMembershipId(input.membershipId);
      if existing.Some? && payments[existing.value].checkoutUrl.Some?
         && payments[existing.value].status == PaymentStatus.PENDING {
        var p := payments[existing.value];
        return Ok(Checkout(existing.value, p.checkoutSession, p.checkoutUrl.value));
      }
      if existing.Some? && payments[existing.value].status != PaymentStatus.PENDING {
        return Err(Validation);
      }
      var paymentId := if existing.Some? then existing.value else newId;
      var payment := FreshRow(input);
      if existing.None? {
        if paymentId in payments {
          return Err(Database);
        }
        payments := payments[paymentId := payment];
      }
      match reply
      case ServiceStops =>
        return Err(External);
      case NoSession =>
        if existing.None? {
          payments := payments - {paymentId};
          assert payments == old(payments);
        }
        return Err(External);
      case Session(id, intent, url) =>
        var updated := payment.(checkoutSession := Some(id), paymentIntent := intent, checkoutUrl := url);
        if Collides(payments, paymentId, updated) {
          return Err(Database);
        }
        payments := payments[paymentId := updated];
        if url.None? {
          return Err(External);
        }
        return Ok(Checkout(paymentId, Some(id), url.value));
    }

    /** mapWebhookToTransition */
    method MapEvent(event: StripeEvent) returns (t: Outcome<Option<Transition>>)
      requires UniqueKeys(payments)
      ensures t == MapWebhook(payments, event)
    {
      match event
      case SessionCompleted(session, paid, intent, created) =>
        if !paid {
          return Ok(None);
        }
        var p := FindByCheckoutSessionId(session);
        if p.None? {
          return Err(NotFound);
        }
        var row := payments[p.value];
        if row.status == SUCCEEDED || row.status == REFUNDED {
          return Ok(None);
        }
        return Ok(Some(Transition(p.value, SUCCEEDED, created * 1000,
                                  if intent.Some? then intent else row.paymentIntent)));
      case SessionFailed(session, intent, created) =>
        var p := FindByCheckoutSessionId(session);
        if p.None? {
          return Err(NotFound);
        }
        var row := payments[p.value];
        if row.status != PaymentStatus.PENDING {
          return Ok(None);
        }
        return Ok(Some(Transition(p.value, FAILED, created * 1000,
                                  if intent.Some? then intent else row.paymentIntent)));
      case ChargeRefunded(full, intent, created) =>
        if !full || intent.None? {
          return Ok(None);
        }
        var p := FindByPaymentIntentId(intent.value);
        if p.None? {
          return Err(NotFound);
        }
        if payments[p.value].status == REFUNDED {
          return Ok(None);
        }
        return Ok(Some(Transition(p.value, REFUNDED, created * 1000, intent)));
      case OtherEvent =>
        return Ok(None);
    }

    /** The row's update and the outbox row are one transaction. */
    method HandleStripeWebhook(event: StripeEvent) returns (r: Outcome<bool>)
      requires UniqueKeys(payments)
      modifies this
      ensures payments == AfterWebhook(old(payments), event).0
      ensures outbox == old(outbox) + AfterWebhook(old(payments), event).1
      ensures r.Ok? <==> HandleWebhook(old(payments), event).Ok?
      ensures UniqueKeys(payments)
    {
      WebhookMoves(payments, event);
      var transition := MapEvent(event);
      if transition.Err? {
        assert outbox + [] == outbox;
        return Err(transition.error);
      }
      if transition.value.None? {
        assert outbox + [] == outbox;
        return Ok(true);
      }
      var t := transition.value.value;
      var next := Moved(payments[t.payment], t);
      if Collides(payments, t.payment, next) {
        assert outbox + [] == outbox;
        return Err(Database);
      }
      outbox := outbox + [OutboxRowOf(payments[t.payment], t)];
      payments := payments[t.payment := next];
      return Ok(true);
    }
  }

  // ---- the stores of the skill service ----

  class WorkshopRepository {
    var rows: map<Id, Cat.Workshop>

    constructor ()
      ensures rows == map[]
    {
      rows := map[];
    }
  }

  class CohortRepository {
    var rows: map<Id, Cat.Cohort>

    constructor ()
      ensures rows == map[]
    {
      rows := map[];
    }

    /** findOverlappingByWorkshopId */
    method FindOverlapping(workshopId: Id, w: Window, exclude: Option<Id>) returns (found: bool)
      ensures found == Cat.OverlapFound(rows, workshopId, w, exclude)
    {
      var overlapping := set c | c in rows && rows[c].workshopId == workshopId
        && rows[c].window.first <= w.last && rows[c].window.last >= w.first && exclude != Some(c);
      found := overlapping != {};
      if found {
        ghost var c := Member(overlapping);
      } else {
        assert forall c ::
            && c in rows && rows[c].workshopId == workshopId
            && Cat.Overlaps(rows[c].window, w) && exclude != Some(c) ==>
            c in overlapping;
      }
    }

    method ExistsByWorkshopId(workshopId: Id) returns (found: bool)
      ensures found <==> exists c :: c in rows && rows[c].workshopId == workshopId
    {
      found := exists c :: c in rows && rows[c].workshopId == workshopId;
    }
  }

  class CohortMembershipRepository {
    var rows: Memberships

    constructor ()
      ensures rows == map[]
    {
      rows := map[];
    }

    /** getSeatCounts: active rows are counted by the store, reservations after filtering them. */
    method GetSeatCounts(cohortId: Id, at: Id -> int) returns (activeSeats: nat, heldSeats: nat)
      ensures activeSeats == |set i | i in rows && rows[i].cohortId == cohortId && rows[i].status == Active|
      ensures heldSeats == |SeatsRead(rows, cohortId, at)|
    {
      var active := set i | i in rows && rows[i].cohortId == cohortId && rows[i].status == Active;
      var pending := set i | i in rows && rows[i].cohortId == cohortId && rows[i].status == PendingPayment;
      var heldPending := set i | i in pending && rows[i].expiresAt.Some? && rows[i].expiresAt.value > at(i);
      activeSeats := |active|;
      heldSeats := activeSeats + |heldPending|;
      ghost var held := SeatsRead(rows, cohortId, at);
      assert forall i :: i in held <==> i in active || i in heldPending;
      assert held == active + heldPending;
    }

    method CountByCohortId(cohortId: Id) returns (n: nat)
      ensures n == |MembersOf(rows, cohortId)|
    {
      var members := set i | i in rows && rows[i].cohortId == cohortId;
      SameSet(members, MembersOf(rows, cohortId));
      n := |members|;
    }

    /** expireStalePendingMemberships: the selected rows are updated one after the other. */
    method ExpireStale(selected: set<Id>, at: Id -> int)
      modifies this
      ensures rows == Expire(old(rows), selected, at)
    {
      var stale := set i | i in selected && i in rows && IsStale(rows[i], at(i));
      var todo := stale;
      while todo != {}
        invariant todo <= stale
        invariant rows == Expire(old(rows), selected - todo, at)
        decreases todo
      {
        ghost var witness_ := Member(todo);
        var i :| i in todo;
        rows := rows[i := Update(rows[i], NO_CHANGE.(status := Some(Expired)))];
        todo := todo - {i};
      }
    }
  }

  // ---- CohortService ----

  class CohortService {
    const cohortRepo: CohortRepository
    const membershipRepo: CohortMembershipRepository
    const workshopRepo: WorkshopRepository
    const payments: PaymentSessionService

    constructor (cohortRepo: CohortRepository, membershipRepo: CohortMembershipRepository,
                 workshopRepo: WorkshopRepository, payments: PaymentSessionService)
      ensures this.cohortRepo == cohortRepo && this.membershipRepo == membershipRepo
      ensures this.workshopRepo == workshopRepo && this.payments == payments
    {
      this.cohortRepo, this.membershipRepo := cohortRepo, membershipRepo;
      this.workshopRepo, this.payments := workshopRepo, payments;
    }

    ghost function Catalog(): Cat.State
      reads cohortRepo, workshopRepo
    {
      Cat.State(workshopRepo.rows, cohortRepo.rows)
    }

    /** enrollInCohort up to the decision, on the rows as the transaction sees them. */
    method Decide(cohortId: Id, userId: Id, env: EnrollEnv) returns (plan: Outcome<Plan>)
      requires cohortId in cohortRepo.rows
      ensures plan == PlanEnrollment(Catalog(), membershipRepo.rows, cohortId, userId, env)
      ensures plan.Ok? ==> SafePlan(cohortRepo.rows, membershipRepo.rows, cohortId, userId, env, plan.value)
    {
      PlanIsSafe(Catalog(), membershipRepo.rows, cohortId, userId, env);
      hide SafePlan;
      var cohort := cohortRepo.rows[cohortId];
      var rows := membershipRepo.rows;
      if StatusAt(cohort.window, env.readings.status) != Upcoming {
        return Err(Conflict);
      }
      var liveMemberships := set i | i in rows && rows[i].userId == userId && IsLive(rows[i]);
      var sameWorkshop := set i | i in liveMemberships && rows[i].cohortId in cohortRepo.rows
        && cohortRepo.rows[rows[i].cohortId].workshopId == cohort.workshopId;
      if cohort.workshopId !in workshopRepo.rows {
        return Err(NotFound);
      }
      var sameCohort := set i | i in sameWorkshop && rows[i].cohortId == cohortId;
      SameSet(sameCohort, LiveHere(rows, cohortId, userId));
      if sameCohort != {} {
        if env.found in sameCohort && rows[env.found].status == PendingPayment {
          return Ok(Resume(env.found));
        }
        return Err(Conflict);
      }
      if exists i :: i in sameWorkshop && rows[i].cohortId != cohortId {
        return Err(Conflict);
      }
      var _, heldSeats := membershipRepo.GetSeatCounts(cohortId, env.readings.seats);
      if heldSeats >= cohort.maxStudents {
        return Err(Conflict);
      }
      if env.membershipId in rows {
        return Err(Database);
      }
      plan := Ok(if cohort.spotPriceAmount == 0 then JoinFree else Reserve);
    }

    /** expireStalePendingMemberships and expireStalePendingMembershipsForCohort */
    method ExpireStaleReservations(cohortId: Id, userId: Id, r: Readings)
      modifies membershipRepo
      ensures membershipRepo.rows == AfterExpiry(old(membershipRepo.rows), cohortId, userId, r)
    {
      hide Expire;
      var own := set i | i in membershipRepo.rows && membershipRepo.rows[i].userId == userId;
      SameSet(own, OfUser(membershipRepo.rows, userId));
      membershipRepo.ExpireStale(own, r.ownExpiry);
      var inCohort := set i | i in membershipRepo.rows && membershipRepo.rows[i].cohortId == cohortId;
      SameSet(inCohort, MembersOf(membershipRepo.rows, cohortId));
      membershipRepo.ExpireStale(inCohort, r.cohortExpiry);
    }

    /** One transaction on the memberships: every error puts the rows back.  The call of the payments
        service is not undone. */
    method EnrollInCohort(cohortId: Id, userId: Id, env: EnrollEnv) returns (r: Outcome<Enrollment>)
      requires UniqueKeys(payments.payments)
      modifies membershipRepo, payments`payments
      ensures (membershipRepo.rows, payments.payments, r) ==
                Enroll(Catalog(), old(membershipRepo.rows), old(payments.payments), cohortId, userId, env)
    {
      hide CreateCheckout, PlanEnrollment, UniqueKeys, AfterExpiry, SafePlan;
      var before := membershipRepo.rows;
      if cohortId !in cohortRepo.rows {
        return Err(NotFound);
      }
      var cohort := cohortRepo.rows[cohortId];
      if cohort.expertId == userId {
        return Err(Conflict);
      }
      ExpireStaleReservations(cohortId, userId, env.readings);
      ghost var current := membershipRepo.rows;
      var plan := Decide(cohortId, userId, env);
      if plan.Err? {
        membershipRepo.rows := before;
        return Err(plan.error);
      }
      if plan.value == JoinFree {
        var joined := Membership(cohortId, userId, None, Active, Some(env.readings.stamp), None, None);
        membershipRepo.rows := membershipRepo.rows[env.membershipId := joined];
        return Ok(Enrollment(env.membershipId, false, None));
      }
      var id := if plan.value.Resume? then plan.value.membershipId else env.membershipId;
      if plan.value.Reserve? {
        membershipRepo.rows := membershipRepo.rows[id := Membership(
          cohortId, userId, None, PendingPayment, None, Some(env.readings.stamp + RESERVATION_TTL_MS), None)];
      }
      var checkout := payments.CreateCheckoutSession(CheckoutFor(cohort, cohortId, userId, id), env.paymentId,
                                                     env.stripe);
      if checkout.Err? || env.replyLost {
        membershipRepo.rows := before;
        return Err(External);
      }
      if plan.value.Reserve? {
        membershipRepo.rows := membershipRepo.rows[id :=
          Update(membershipRepo.rows[id], NO_CHANGE.(paymentId := Set(checkout.value.paymentId)))];
        assert membershipRepo.rows == current[id := Membership(cohortId, userId, Some(checkout.value.paymentId),
          PendingPayment, None, Some(env.readings.stamp + RESERVATION_TTL_MS), None)];
      }
      return Ok(Enrollment(id, true, Some(checkout.value)));
    }

    /** handlePaymentSucceeded */
    method HandlePaymentSucceeded(membershipId: Id, paymentId: Id, userId: Id, occurredAt: int, r: Readings)
      returns (done: Outcome<bool>)
      modifies membershipRepo
      ensures done == (if HandlerThrows(Catalog(), old(membershipRepo.rows), membershipId, PaymentSucceeded, r)
                       then Err(NotFound) else Ok(true))
      ensures membershipRepo.rows ==
                HandleMessage(Catalog(), old(membershipRepo.rows),
                              Message("payment.succeeded", membershipId, paymentId, userId, occurredAt), r)
    {
      var rows := membershipRepo.rows;
      if membershipId !in rows {
        return Err(NotFound);
      }
      var m := rows[membershipId];
      var reconciled := NO_CHANGE.(status := Some(AwaitingReconciliation), paymentId := Set(paymentId),
                                  lastPaymentEventAt := Set(occurredAt));
      if m.status == Active {
        if m.paymentId == Some(paymentId) {
          assert rows == rows[membershipId := m];
          return Ok(true);
        }
        membershipRepo.rows := rows[membershipId := Update(m,
          NO_CHANGE.(status := Some(AwaitingReconciliation), lastPaymentEventAt := Set(occurredAt)))];
        return Ok(true);
      }
      if m.status != PendingPayment {
        membershipRepo.rows := rows[membershipId := Update(m, reconciled)];
        return Ok(true);
      }
      if m.expiresAt.Some? && m.expiresAt.value <= r.stamp {
        membershipRepo.rows := rows[membershipId := Update(m, reconciled)];
        return Ok(true);
      }
      if m.cohortId !in cohortRepo.rows {
        return Err(NotFound);
      }
      var cohort := cohortRepo.rows[m.cohortId];
      if StatusAt(cohort.window, r.status) != Upcoming {
        membershipRepo.rows := rows[membershipId := Update(m, reconciled)];
        return Ok(true);
      }
      var _, heldSeats := membershipRepo.GetSeatCounts(m.cohortId, r.seats);
      if heldSeats > cohort.maxStudents {
        membershipRepo.rows := rows[membershipId := Update(m, reconciled)];
        return Ok(true);
      }
      membershipRepo.rows := rows[membershipId := Update(m,
        MembershipPatch(Set(paymentId), Some(Active), Set(occurredAt), Null, Set(occurredAt)))];
      return Ok(true);
    }

    /** applyPaymentOutcome, behind handlePaymentFailed and handlePaymentRefunded. */
    method ApplyPaymentOutcome(membershipId: Id, paymentId: Id, userId: Id, occurredAt: int, refunded: bool,
                               r: Readings)
      returns (done: Outcome<bool>)
      modifies membershipRepo
      ensures done == (if membershipId in old(membershipRepo.rows) then Ok(true) else Err(NotFound))
      ensures membershipRepo.rows ==
                HandleMessage(Catalog(), old(membershipRepo.rows),
                              Message(if refunded then "payment.refunded" else "payment.failed",
                                      membershipId, paymentId, userId, occurredAt), r)
    {
      var rows := membershipRepo.rows;
      var targetStatus := if refunded then Refunded else PaymentFailed;
      if membershipId !in rows {
        return Err(NotFound);
      }
      var m := rows[membershipId];
      if m.status == targetStatus && m.paymentId == Some(paymentId) {
        assert rows == rows[membershipId := m];
        return Ok(true);
      }
      var isContradictory :=
        (targetStatus == PaymentFailed && m.status == Active) ||
        (targetStatus == Refunded && m.status !in {Active, Refunded});
      if isContradictory {
        membershipRepo.rows := rows[membershipId := Update(m,
          NO_CHANGE.(status := Some(AwaitingReconciliation), paymentId := Set(paymentId),
                     lastPaymentEventAt := Set(occurredAt)))];
        return Ok(true);
      }
      membershipRepo.rows := rows[membershipId := Update(m,
        MembershipPatch(Set(paymentId), Some(targetStatus), Undefined, Null, Set(occurredAt)))];
      return Ok(true);
    }

    // ---- cohorts ----

    /** deriveSchedule */
    method Derive(w: Cat.Workshop, startDate: string, cal: Cat.Calendar) returns (v: Outcome<Window>)
      ensures v == Cat.DeriveSchedule(cal, w, startDate)
    {
      if w.sessions == [] || w.timezone.None? || !cal.startsRight(w.sessions, startDate) {
        return Err(Validation);
      }
      var window := cal.window(w.sessions, w.timezone.value, startDate);
      return if window.Some? then Ok(window.value) else Err(Validation);
    }

    method CreateCohort(id: Id, expertId: Id, workshopId: Id, price: int, currency: string, startDate: string,
                        maxStudents: Option<int>, cal: Cat.Calendar) returns (r: Outcome<bool>)
      modifies cohortRepo
      ensures
        var request := Cat.CreateCohort(id, expertId, workshopId, price, currency, startDate, maxStudents);
        Did(Cat.AddCohort(old(Catalog()), request, cal), old(Catalog()), Catalog(), r)
    {
      if workshopId !in workshopRepo.rows {
        return Err(NotFound);
      }
      var workshop := workshopRepo.rows[workshopId];
      if workshop.expertId != expertId {
        return Err(Forbidden);
      }
      if workshop.status != Cat.Published || workshop.timezone.None? || workshop.sessions == [] {
        return Err(Conflict);
      }
      if EarliestSession(workshop.sessions).slot.week != 1 {
        return Err(Validation);
      }
      var derived := Derive(workshop, startDate, cal);
      if derived.Err? {
        return Err(derived.error);
      }
      var overlapping := cohortRepo.FindOverlapping(workshopId, derived.value, None);
      if overlapping {
        return Err(Conflict);
      }
      if id in cohortRepo.rows {
        return Err(Database);
      }
      cohortRepo.rows := cohortRepo.rows[id := Cat.Cohort(
        workshopId, expertId, workshop.timezone.value, price, currency, startDate,
        if maxStudents.Some? then maxStudents.value else workshop.maxCohortSize, derived.value)];
      return Ok(true);
    }

    method UpdateCohort(id: Id, expertId: Id, patch: Cat.CohortPatch, seats: Id -> int,
                        cal: Cat.Calendar) returns (r: Outcome<bool>)
      modifies cohortRepo
      ensures
        var members := Cat.Members(|MembersOf(membershipRepo.rows, id)|, |SeatsRead(membershipRepo.rows, id, seats)|);
        Did(Cat.ChangeCohort(old(Catalog()), id, expertId, patch, members, cal), old(Catalog()), Catalog(), r)
    {
      if id !in cohortRepo.rows {
        return Err(NotFound);
      }
      var cohort := cohortRepo.rows[id];
      if cohort.expertId != expertId {
        return Err(Forbidden);
      }
      if cohort.workshopId !in workshopRepo.rows {
        return Err(NotFound);
      }
      var workshop := workshopRepo.rows[cohort.workshopId];
      var membershipCount := membershipRepo.CountByCohortId(id);
      if membershipCount > 0 {
        if patch.startDate.Some? || patch.spotPriceAmount.Some? || patch.currency.Some? {
          return Err(Conflict);
        }
        if patch.maxStudents.Some? {
          var _, heldSeats := membershipRepo.GetSeatCounts(id, seats);
          if patch.maxStudents.value < heldSeats {
            return Err(Conflict);
          }
        }
      }
      var window := cohort.window;
      if patch.startDate.Some? {
        var derived := Derive(workshop, patch.startDate.value, cal);
        if derived.Err? {
          return Err(derived.error);
        }
        window := derived.value;
        var overlapping := cohortRepo.FindOverlapping(cohort.workshopId, window, Some(id));
        if overlapping {
          return Err(Conflict);
        }
      }
      cohortRepo.rows := cohortRepo.rows[id := Cat.Patched(cohort, patch, window)];
      return Ok(true);
    }

    method DeleteCohort(id: Id, expertId: Id) returns (r: Outcome<bool>)
      modifies cohortRepo
      ensures
        var count := |MembersOf(membershipRepo.rows, id)|;
        forall held ::
          Did(Cat.RemoveCohort(old(Catalog()), id, expertId, Cat.Members(count, held)), old(Catalog()), Catalog(), r)
    {
      if id !in cohortRepo.rows {
        return Err(NotFound);
      }
      if cohortRepo.rows[id].expertId != expertId {
        return Err(Forbidden);
      }
      var membershipCount := membershipRepo.CountByCohortId(id);
      if membershipCount > 0 {
        return Err(Conflict);
      }
      cohortRepo.rows := cohortRepo.rows - {id};
      return Ok(true);
    }
  }

  // ---- WorkshopService ----

  /** A workshop.published row of the outbox. */
  datatype WorkshopPublished = WorkshopPublished(
    id: Id, expertId: Id, title: string, publishedAt: int, sessionTitles: seq<string>)

  /** The titles of the sessions that have one, in their order. */
  function TitlesOf(ss: seq<CohortSchedule.Session>): (titles: seq<string>)
    ensures (forall i :: 0 <= i < |ss| ==> !Cat.Untitled(ss[i])) ==>
              |titles| == |ss| && forall i :: 0 <= i < |ss| ==> Some(titles[i]) == ss[i].title
  {
    if ss == [] then []
    else if Cat.Untitled(ss[0]) then TitlesOf(ss[1..])
    else [ss[0].title.value] + TitlesOf(ss[1..])
  }

  class WorkshopService {
    const workshopRepo: WorkshopRepository
    const cohortRepo: CohortRepository
    var outbox: seq<WorkshopPublished>

    constructor (workshopRepo: WorkshopRepository, cohortRepo: CohortRepository)
      ensures this.workshopRepo == workshopRepo && this.cohortRepo == cohortRepo && outbox == []
    {
      this.workshopRepo, this.cohortRepo, outbox := workshopRepo, cohortRepo, [];
    }

    ghost function Catalog(): Cat.State
      reads cohortRepo, workshopRepo
    {
      Cat.State(workshopRepo.rows, cohortRepo.rows)
    }

    /** ensureWorkshopIsNotFrozen, then getOwnedDraftWorkshop. */
    method GetOwnedDraft(id: Id, expertId: Id) returns (w: Outcome<Cat.Workshop>)
      ensures w == Cat.OwnedDraft(Catalog(), id, expertId)
    {
      var frozen := cohortRepo.ExistsByWorkshopId(id);
      if frozen {
        return Err(Conflict);
      }
      if id !in workshopRepo.rows {
        return Err(NotFound);
      }
      var workshop := workshopRepo.rows[id];
      if workshop.expertId != expertId {
        return Err(Forbidden);
      }
      if workshop.status != Cat.Draft {
        return Err(Conflict);
      }
      return Ok(workshop);
    }

    method UpdateWorkshop(id: Id, expertId: Id, title: Option<string>, size: Option<int>) returns (r: Outcome<bool>)
      modifies workshopRepo
      ensures Did(Cat.EditWorkshop(old(Catalog()), Cat.UpdateWorkshop(id, expertId, title, size)), old(Catalog()),
                  Catalog(), r)
    {
      var draft := GetOwnedDraft(id, expertId);
      if draft.Err? {
        return Err(draft.error);
      }
      var w := draft.value;
      workshopRepo.rows := workshopRepo.rows[id := w.(
        title := if title.Some? then title.value else w.title,
        maxCohortSize := if size.Some? then size.value else w.maxCohortSize)];
      return Ok(true);
    }

    method ReplaceWorkshopSessions(id: Id, expertId: Id, timezone: string, sessions: seq<CohortSchedule.Session>)
      returns (r: Outcome<bool>)
      modifies workshopRepo
      ensures Did(Cat.EditWorkshop(old(Catalog()), Cat.ReplaceSessions(id, expertId, timezone, sessions)),
                  old(Catalog()), Catalog(), r)
    {
      var draft := GetOwnedDraft(id, expertId);
      if draft.Err? {
        return Err(draft.error);
      }
      workshopRepo.rows := workshopRepo.rows[id := draft.value.(sessions := sessions, timezone := Some(timezone))];
      return Ok(true);
    }

    method UpdateWorkshopSession(id: Id, expertId: Id, sessionId: Id, title: Option<string>, startTime: Option<string>)
      returns (r: Outcome<bool>)
      modifies workshopRepo
      ensures Did(Cat.EditWorkshop(old(Catalog()), Cat.UpdateSession(id, expertId, sessionId, title, startTime)),
                  old(Catalog()), Catalog(), r)
    {
      var draft := GetOwnedDraft(id, expertId);
      if draft.Err? {
        return Err(draft.error);
      }
      var w := draft.value;
      if !exists i :: 0 <= i < |w.sessions| && w.sessions[i].id == sessionId {
        return Err(NotFound);
      }
      var sessions := Cat.UpdatedSessions(w.sessions, sessionId, title, startTime);
      workshopRepo.rows := workshopRepo.rows[id := w.(sessions := sessions)];
      return Ok(true);
    }

    /** publishWorkshop collects every validation error before it refuses.  With the new status goes one
        outbox row, which names the title of every session. */
    method PublishWorkshop(id: Id, expertId: Id, now: int) returns (r: Outcome<bool>, validationErrors: seq<string>)
      modifies workshopRepo, this`outbox
      ensures Did(Cat.Publish(old(Catalog()), id, expertId), old(Catalog()), Catalog(), r)
      ensures r.Err? ==> outbox == old(outbox)
      ensures r.Ok? ==>
        && id in workshopRepo.rows
        && var w := workshopRepo.rows[id];
        && |outbox| == |old(outbox)| + 1 && outbox[..|old(outbox)|] == old(outbox)
        && var row := outbox[|old(outbox)|];
        && row.id == id && row.expertId == expertId && row.title == w.title && row.publishedAt == now
        && |row.sessionTitles| == |w.sessions|
        && forall i :: 0 <= i < |w.sessions| ==> Some(row.sessionTitles[i]) == w.sessions[i].title
      ensures validationErrors != [] <==> r == Err(Validation)
    {
      validationErrors := [];
      if id !in workshopRepo.rows {
        return Err(NotFound), [];
      }
      var workshop := workshopRepo.rows[id];
      if workshop.expertId != expertId {
        return Err(Forbidden), [];
      }
      if workshop.status != Cat.Draft {
        return Err(Conflict), [];
      }
      if Cat.Blank(workshop.title) {
        validationErrors := validationErrors + ["title"];
      }
      if workshop.maxCohortSize == 0 {
        validationErrors := validationErrors + ["maxCohortSize"];
      }
      if workshop.timezone.None? {
        validationErrors := validationErrors + ["timezone"];
      }
      if workshop.sessions == [] {
        validationErrors := validationErrors + ["sessions"];
      }
      var untitled := set i | 0 <= i < |workshop.sessions| && Cat.Untitled(workshop.sessions[i]);
      if |untitled| > 0 {
        ghost var i := Member(untitled);
        validationErrors := validationErrors + ["sessions"];
      } else {
        assert forall i :: 0 <= i < |workshop.sessions| && Cat.Untitled(workshop.sessions[i]) ==> i in untitled;
      }
      if |validationErrors| > 0 {
        return Err(Validation), validationErrors;
      }
      var saved := workshop.(status := Cat.Published);
      workshopRepo.rows := workshopRepo.rows[id := saved];
      outbox := outbox + [WorkshopPublished(id, saved.expertId, saved.title, now, TitlesOf(saved.sessions))];
      return Ok(true), [];
    }
  }

  /** The cohort has not started; a checkout is resumed only for the user's own pending membership of
      it; and a new membership is planned only for a user who is engaged nowhere in the workshop, and
      only while a seat is free. */
  ghost predicate SafePlan(cs: Cohorts, ms: Memberships, cohortId: Id, userId: Id, env: EnrollEnv, plan: Plan)
    requires cohortId in cs
  {
    && StatusAt(cs[cohortId].window, env.readings.status) == Upcoming
    && if plan.Resume? then
         && plan.membershipId in ms && ms[plan.membershipId].status == PendingPayment
         && ms[plan.membershipId].userId == userId && ms[plan.membershipId].cohortId == cohortId
       else
         && env.membershipId !in ms && NotEngaged(cs, ms, cohortId, userId)
         && |SeatsRead(ms, cohortId, env.readings.seats)| < cs[cohortId].maxStudents
         && (plan.JoinFree? <==> cs[cohortId].spotPriceAmount == 0)
  }

  lemma PlanIsSafe(cat: Cat.State, ms: Memberships, cohortId: Id, userId: Id, env: EnrollEnv)
    requires cohortId in cat.cohorts
    ensures
      var plan := PlanEnrollment(cat, ms, cohortId, userId, env);
      plan.Ok? ==> SafePlan(cat.cohorts, ms, cohortId, userId, env, plan.value)
  {
    hide NotEngaged;
    var plan := PlanEnrollment(cat, ms, cohortId, userId, env);
    if plan.Ok? && !plan.value.Resume? {
      NoLiveMeansNotEngaged(cat.cohorts, ms, cohortId, userId);
    }
  }

  function Message(name: string, membershipId: Id, paymentId: Id, userId: Id, occurredAt: int): Worker.Row {
    Worker.Row(name, Worker.PaymentOutcome(membershipId, paymentId, userId, occurredAt), Worker.RowStatus.PROCESSED)
  }

  /** A method that returned r did what the function o says: its new state, or its error and nothing. */
  ghost predicate Did(o: Outcome<Cat.State>, before: Cat.State, after: Cat.State, r: Outcome<bool>) {
    match o
    case Ok(s) => r.Ok? && after == s
    case Err(e) => r == Err(e) && after == before
  }

  lemma SameSet<T>(a: set<T>, b: set<T>)
    requires forall x :: x in a <==> x in b
    ensures a == b
  {
  }
}