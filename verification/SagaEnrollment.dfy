/** When an enrollment succeeds and what it writes, in every reachable world, and that the checkout of a
    reserved membership stays the one that was opened first. */
module SagaEnrollment {
  import opened Prelude
  import opened Memberships
  import opened Payments
  import opened CohortSchedule
  import opened Saga
  import opened SagaSafety
  import opened SagaTheorems
  import Cat = Catalog
  import Worker = OutboxWorker

  // ---- reservations and their expiry ----

  /** The reservation has run out, as far as the two clean-ups before an enrollment see it. */
  predicate Lapsed(m: Membership, i: Id, cohortId: Id, userId: Id, r: Readings) {
    && m.status == PendingPayment && m.expiresAt.Some?
    && ((m.userId == userId && m.expiresAt.value <= r.ownExpiry(i)) ||
        (m.cohortId == cohortId && m.expiresAt.value <= r.cohortExpiry(i)))
  }

  /** The clean-ups expire exactly the lapsed reservations of the user and of the cohort, and change
      nothing of them but the status. */
  lemma ExpiryIff(ms: Memberships, cohortId: Id, userId: Id, r: Readings)
    ensures AfterExpiry(ms, cohortId, userId, r) ==
              map i | i in ms :: if Lapsed(ms[i], i, cohortId, userId, r) then ms[i].(status := Expired) else ms[i]
  {
  }

  /** Active members hold a seat at any time, pending ones before their expiry, and nobody else. */
  lemma SeatHolders(m: Membership, t: int)
    ensures m.status == Active ==> HoldsSeat(m, t)
    ensures m.status == PendingPayment ==> (HoldsSeat(m, t) <==> m.expiresAt.Some? && t < m.expiresAt.value)
    ensures m.status in {PaymentFailed, Expired, Dropped, Refunded, AwaitingReconciliation} ==> !HoldsSeat(m, t)
  {
  }

  /** A reservation made at time s holds its seat for ten minutes to the millisecond, and is stale from
      then on. */
  lemma ReservationLasts(m: Membership, s: int, t: int)
    requires m.status == PendingPayment && m.expiresAt == Some(s + 10 * 60 * 1000)
    ensures HoldsSeat(m, t) <==> t < s + 600000
    ensures IsStale(m, t) <==> t >= s + 600000
  {
  }

  // ---- the decision ----

  predicate CanResume(ms: Memberships, cohortId: Id, userId: Id, found: Id) {
    && found in ms && ms[found].userId == userId && ms[found].cohortId == cohortId
    && ms[found].status == PendingPayment
  }

  /** The user is neither active nor pending nor in reconciliation anywhere in the cohort's workshop. */
  ghost predicate Free(cs: Cohorts, ms: Memberships, cohortId: Id, userId: Id)
    requires cohortId in cs
  {
    forall i :: i in ms && ms[i].userId == userId && ms[i].cohortId in cs
                && cs[ms[i].cohortId].workshopId == cs[cohortId].workshopId ==>
      ms[i].status !in {Active, PendingPayment, AwaitingReconciliation}
  }

  /** When an enrollment goes ahead after the clean-ups, and how: before the first session starts, and
      either with the pending membership that the user has here, or with a new one for a free user, a free
      seat and a fresh id. */
  lemma PlanIff(cat: Cat.State, ms: Memberships, c: Id, u: Id, env: EnrollEnv)
    requires c in cat.cohorts && cat.cohorts[c].workshopId in cat.workshops
    ensures
      var plan, cohort := PlanEnrollment(cat, ms, c, u, env), cat.cohorts[c];
      var early := env.readings.status < cohort.window.first;
      && (plan == Ok(Resume(env.found)) <==> early && CanResume(ms, c, u, env.found))
      && (plan.Ok? && plan.value.Resume? ==> plan.value.membershipId == env.found)
      && (plan.Ok? && !plan.value.Resume? <==>
            && early && Free(cat.cohorts, ms, c, u) && env.membershipId !in ms
            && |SeatsRead(ms, c, env.readings.seats)| < cohort.maxStudents)
      && (plan.Ok? && !plan.value.Resume? ==> (plan.value == JoinFree <==> cohort.spotPriceAmount == 0))
      && (plan.Err? ==>
            plan.error == if early && Free(cat.cohorts, ms, c, u)
                             && |SeatsRead(ms, c, env.readings.seats)| < cohort.maxStudents then Database else Conflict)
  {
    hide SeatsRead;
    FreeIff(cat.cohorts, ms, c, u);
    assert env.found in LiveHere(ms, c, u) && ms[env.found].status == PendingPayment <==>
        CanResume(ms, c, u, env.found);
    if CanResume(ms, c, u, env.found) {
      assert LiveHere(ms, c, u) != {};
    }
    hide LiveHere, LiveElsewhere, Free, CanResume;
  }

  lemma FreeIff(cs: Cohorts, ms: Memberships, c: Id, u: Id)
    requires c in cs
    ensures Free(cs, ms, c, u) <==> LiveHere(ms, c, u) == {} && !LiveElsewhere(cs, ms, c, u)
  {
    if Free(cs, ms, c, u) {
      assert forall i :: i in LiveHere(ms, c, u) ==> false;
    } else {
      var i :| i in ms && ms[i].userId == u && ms[i].cohortId in cs
               && cs[ms[i].cohortId].workshopId == cs[c].workshopId
               && ms[i].status in {Active, PendingPayment, AwaitingReconciliation};
      assert ms[i].cohortId == c ==> i in LiveHere(ms, c, u);
    }
  }

  // ---- checkouts of reserved memberships ----

  /** The payment of a membership has a session and a url. */
  ghost predicate OpenCheckouts(ms: Memberships, ps: Payments) {
    forall i :: i in ms && ms[i].paymentId.Some? ==>
      && ms[i].paymentId.value in ps
      && ps[ms[i].paymentId.value].checkoutSession.Some? && ps[ms[i].paymentId.value].checkoutUrl.Some?
  }

  lemma RefusedPastPending(ps: Payments, input: CheckoutInput, newId: Id, reply: StripeReply, p: Id)
    requires UniqueKeys(ps) && p in ps && ps[p].membershipId == input.membershipId
    requires ps[p].status != PaymentStatus.PENDING
    ensures CreateCheckout(ps, input, newId, reply) == (ps, Err(Validation))
  {
    assert FindByMembership(ps, input.membershipId) == Some(p);
  }

  /** The checkout of a resumed enrollment: it changes no payment, and it answers with the session and the
      url stored before exactly while the payment is pending. */
  lemma ResumedCheckout(w: World, cal: Cat.Calendar, i: Id, input: CheckoutInput, newId: Id, reply: StripeReply)
    requires Inv(w, cal) && OpenCheckouts(w.memberships, w.payments)
    requires i in w.memberships && w.memberships[i].paymentId.Some? && input.membershipId == i
    ensures
      var (qs, r) := CreateCheckout(w.payments, input, newId, reply);
      var p := w.memberships[i].paymentId.value;
      && qs == w.payments && p in w.payments
      && (r.Ok? <==> w.payments[p].status == PaymentStatus.PENDING)
      && (r.Ok? ==>
            && w.payments[p].checkoutUrl.Some? && w.payments[p].checkoutSession.Some?
            && r.value == Checkout(p, w.payments[p].checkoutSession, w.payments[p].checkoutUrl.value))
  {
    hide Cat.Inv, Worker.Inv, AllBacked, CreateCheckout, UniqueKeys, TermsAgree, OneEngagement, WithinCapacity;
    var p := w.memberships[i].paymentId.value;
    if w.payments[p].status == PaymentStatus.PENDING {
      CheckoutReuses(w.payments, input, newId, reply, p);
    } else {
      RefusedPastPending(w.payments, input, newId, reply, p);
    }
  }

  // ---- the result of an enrollment ----

  /** Stripe answers the request for a first checkout with a new session that has a url. */
  ghost predicate StripeAnswers(ps: Payments, env: EnrollEnv) {
    env.paymentId !in ps && env.stripe.Session? && env.stripe.url.Some? && AnswersAnew(ps, env.paymentId, env.stripe)
  }

  /** Before the first session, a user who does not own the cohort. */
  predicate MayEnroll(w: World, c: Id, u: Id, env: EnrollEnv) {
    && c in w.catalog.cohorts && w.catalog.cohorts[c].expertId != u
    && env.readings.status < w.catalog.cohorts[c].window.first
  }

  ghost predicate SeatFor(w: World, ms: Memberships, c: Id, u: Id, env: EnrollEnv)
    requires c in w.catalog.cohorts
  {
    && Free(w.catalog.cohorts, ms, c, u)
    && |SeatsRead(ms, c, env.readings.seats)| < w.catalog.cohorts[c].maxStudents
  }

  ghost predicate ResumesOk(w: World, ms: Memberships, c: Id, u: Id, env: EnrollEnv) {
    && CanResume(ms, c, u, env.found) && ms[env.found].paymentId.Some?
    && ms[env.found].paymentId.value in w.payments
    && w.payments[ms[env.found].paymentId.value].status == PaymentStatus.PENDING
    && !env.replyLost
  }

  /** current is what the clean-ups leave; ms, ps and out are what the enrollment makes of it: when it
      succeeds, and what it writes and answers in each of its three ways. */
  ghost predicate EnrollmentIs(w: World, c: Id, u: Id, env: EnrollEnv, current: Memberships,
                               ms: Memberships, ps: Payments, out: Outcome<Enrollment>) {
    && (out.Ok? <==>
          && MayEnroll(w, c, u, env)
          && (|| ResumesOk(w, current, c, u, env)
              || (&& SeatFor(w, current, c, u, env) && env.membershipId !in current
                  && (w.catalog.cohorts[c].spotPriceAmount == 0 ||
                      (StripeAnswers(w.payments, env) && !env.replyLost)))))
    && (c !in w.catalog.cohorts ==> out == Err(NotFound))
    && (c in w.catalog.cohorts && out.Err? ==>
          out.error == if !MayEnroll(w, c, u, env) then Conflict
                       else if CanResume(current, c, u, env.found) then External
                       else if !SeatFor(w, current, c, u, env) then Conflict
                       else if env.membershipId in current then Database else External)
    && (out.Err? ==> ms == w.memberships && forall p :: p in w.payments ==> p in ps && ps[p] == w.payments[p])
    && (out.Ok? && CanResume(current, c, u, env.found) ==>
          && ms == current && ps == w.payments
          && ResumesOk(w, current, c, u, env)
          && var p := current[env.found].paymentId.value;
          && ps[p].checkoutUrl.Some?
          && out.value == Enrollment(env.found, true,
                                     Some(Checkout(p, ps[p].checkoutSession, ps[p].checkoutUrl.value))))
    && (out.Ok? && !CanResume(current, c, u, env.found) && w.catalog.cohorts[c].spotPriceAmount == 0 ==>
          && ps == w.payments && out.value == Enrollment(env.membershipId, false, None)
          && ms == current[env.membershipId :=
               Membership(c, u, None, Active, Some(env.readings.stamp), None, None)])
    && (out.Ok? && !CanResume(current, c, u, env.found) && w.catalog.cohorts[c].spotPriceAmount != 0 ==>
          && StripeAnswers(w.payments, env)
          && var cohort := w.catalog.cohorts[c];
          && ps == w.payments[env.paymentId := Payment(
               env.membershipId, u, c, cohort.spotPriceAmount, cohort.currency, PaymentStatus.PENDING,
               Some(env.stripe.id), env.stripe.intent, env.stripe.url)]
          && ms == current[env.membershipId := Membership(
               c, u, Some(env.paymentId), PendingPayment, None, Some(env.readings.stamp + 10 * 60 * 1000), None)]
          && out.value == Enrollment(env.membershipId, true,
                                     Some(Checkout(env.paymentId, Some(env.stripe.id), env.stripe.url.value))))
  }

  lemma ResumableBefore(ms: Memberships, c: Id, u: Id, env: EnrollEnv)
    ensures
      var current := AfterExpiry(ms, c, u, env.readings);
      CanResume(current, c, u, env.found) ==> env.found in ms && ms[env.found] == current[env.found]
  {
    ExpiryIff(ms, c, u, env.readings);
  }

  lemma FreeCannotResume(cs: Cohorts, ms: Memberships, c: Id, u: Id, found: Id)
    requires c in cs && Free(cs, ms, c, u)
    ensures !CanResume(ms, c, u, found)
  {
  }

  /** What the invariant gives an enrollment. */
  lemma EnrollFacts(w: World, c: Id, u: Id, env: EnrollEnv, cal: Cat.Calendar)
    requires Inv(w, cal) && c in w.catalog.cohorts && Enabled(w, Enrolls(c, u, env))
    ensures w.catalog.cohorts[c].workshopId in w.catalog.workshops && UniqueKeys(w.payments)
    ensures forall p :: p in w.payments ==> w.payments[p].membershipId != env.membershipId
    ensures
      var current := AfterExpiry(w.memberships, c, u, env.readings);
      CanResume(current, c, u, env.found) ==>
        && env.found in w.memberships && env.found in current && w.memberships[env.found] == current[env.found]
        && current[env.found].paymentId.Some?
  {
    hide AfterExpiry, Worker.Inv, AllBacked, TermsAgree, OneEngagement, WithinCapacity, IsReadings;
    assert Cat.Agrees(w.catalog, w.catalog.cohorts[c], cal);
    ResumableBefore(w.memberships, c, u, env);
  }

  lemma ResumeUnfolds(cat: Cat.State, ms: Memberships, ps: Payments, c: Id, u: Id, env: EnrollEnv, i: Id,
                      r: Outcome<Checkout>)
    requires c in cat.cohorts && cat.cohorts[c].expertId != u
    requires PlanEnrollment(cat, AfterExpiry(ms, c, u, env.readings), c, u, env) == Ok(Resume(i))
    requires CreateCheckout(ps, CheckoutFor(cat.cohorts[c], c, u, i), env.paymentId, env.stripe) == (ps, r)
    ensures Enroll(cat, ms, ps, c, u, env) ==
              if r.Ok? && !env.replyLost then
                (AfterExpiry(ms, c, u, env.readings), ps, Ok(Enrollment(i, true, Some(r.value))))
              else (ms, ps, Err(External))
  {
    hide PlanEnrollment, AfterExpiry, CreateCheckout;
  }

  lemma ResumedIs(w: World, c: Id, u: Id, env: EnrollEnv, current: Memberships, r: Outcome<Checkout>)
    requires MayEnroll(w, c, u, env) && CanResume(current, c, u, env.found) && !SeatFor(w, current, c, u, env)
    requires current[env.found].paymentId.Some? && current[env.found].paymentId.value in w.payments
    requires
      var p := w.payments[current[env.found].paymentId.value];
      && (r.Ok? <==> p.status == PaymentStatus.PENDING)
      && (r.Ok? ==>
            && p.checkoutUrl.Some?
            && r.value == Checkout(current[env.found].paymentId.value, p.checkoutSession, p.checkoutUrl.value))
    ensures
      if r.Ok? && !env.replyLost then
        EnrollmentIs(w, c, u, env, current, current, w.payments, Ok(Enrollment(env.found, true, Some(r.value))))
      else EnrollmentIs(w, c, u, env, current, w.memberships, w.payments, Err(External))
  {
    hide SeatFor, StripeAnswers;
  }

  /** A resumed enrollment. */
  lemma ResumedResult(w: World, c: Id, u: Id, env: EnrollEnv, cal: Cat.Calendar)
    requires Inv(w, cal) && OpenCheckouts(w.memberships, w.payments) && Enabled(w, Enrolls(c, u, env))
    requires MayEnroll(w, c, u, env) && CanResume(AfterExpiry(w.memberships, c, u, env.readings), c, u, env.found)
    ensures
      var current := AfterExpiry(w.memberships, c, u, env.readings);
      var (ms, ps, out) := Enroll(w.catalog, w.memberships, w.payments, c, u, env);
      EnrollmentIs(w, c, u, env, current, ms, ps, out)
  {
    hide AfterExpiry, PlanEnrollment, CreateCheckout, SeatsRead, UniqueKeys, Inv, Enroll, EnrollmentIs, CanResume;
    hide Free, OpenCheckouts, Enabled;
    var current := AfterExpiry(w.memberships, c, u, env.readings);
    EnrollFacts(w, c, u, env, cal);
    PlanIff(w.catalog, current, c, u, env);
    if Free(w.catalog.cohorts, current, c, u) {
      FreeCannotResume(w.catalog.cohorts, current, c, u, env.found);
    }
    var input := CheckoutFor(w.catalog.cohorts[c], c, u, env.found);
    ResumedCheckout(w, cal, env.found, input, env.paymentId, env.stripe);
    var r := CreateCheckout(w.payments, input, env.paymentId, env.stripe).1;
    ResumeUnfolds(w.catalog, w.memberships, w.payments, c, u, env, env.found, r);
    ResumedIs(w, c, u, env, current, r);
  }

  lemma EnrollResult(w: World, c: Id, u: Id, env: EnrollEnv, cal: Cat.Calendar)
    requires Inv(w, cal) && OpenCheckouts(w.memberships, w.payments) && Enabled(w, Enrolls(c, u, env))
    ensures
      var (ms, ps, out) := Enroll(w.catalog, w.memberships, w.payments, c, u, env);
      EnrollmentIs(w, c, u, env, AfterExpiry(w.memberships, c, u, env.readings), ms, ps, out)
  {
    hide AfterExpiry, PlanEnrollment, CreateCheckout, SeatsRead, Free, UniqueKeys, Inv, CanResume, AnswersAnew;
    hide OpenCheckouts, IsReadings, StripeAnswers;
    var current := AfterExpiry(w.memberships, c, u, env.readings);
    if MayEnroll(w, c, u, env) && CanResume(current, c, u, env.found) {
      ResumedResult(w, c, u, env, cal);
    } else if c in w.catalog.cohorts {
      EnrollFacts(w, c, u, env, cal);
      PlanIff(w.catalog, current, c, u, env);
      FirstCheckout(w.payments, CheckoutFor(w.catalog.cohorts[c], c, u, env.membershipId), env);
      var plan := PlanEnrollment(w.catalog, current, c, u, env);
      var (ms, ps, out) := Enroll(w.catalog, w.memberships, w.payments, c, u, env);
      if w.catalog.cohorts[c].expertId == u || plan.Err? {
        assert out.Err?;
      } else if plan.value == JoinFree {
        assert SeatFor(w, current, c, u, env) && !CanResume(current, c, u, env.found);
      } else {
        assert plan.value == Reserve;
        assert SeatFor(w, current, c, u, env) && !CanResume(current, c, u, env.found);
        var input := CheckoutFor(w.catalog.cohorts[c], c, u, env.membershipId);
        var (qs, r) := CreateCheckout(w.payments, input, env.paymentId, env.stripe);
        assert out.Ok? <==> r.Ok? && !env.replyLost;
      }
    }
  }

  lemma FirstCheckout(ps: Payments, input: CheckoutInput, env: EnrollEnv)
    requires UniqueKeys(ps) && forall p :: p in ps ==> ps[p].membershipId != input.membershipId
    ensures
      var (qs, r) := CreateCheckout(ps, input, env.paymentId, env.stripe);
      && (r.Ok? <==> StripeAnswers(ps, env))
      && (r.Err? ==> forall p :: p in ps ==> p in qs && qs[p] == ps[p])
      && (r.Ok? ==>
            && env.stripe.Session? && env.stripe.url.Some?
            && qs == ps[env.paymentId := Payment(
                 input.membershipId, input.userId, input.cohortId, input.amount, input.currency, PaymentStatus.PENDING,
                 Some(env.stripe.id), env.stripe.intent, env.stripe.url)]
            && r.value == Checkout(env.paymentId, Some(env.stripe.id), env.stripe.url.value))
      && (forall p :: p in ps ==> p in qs && qs[p] == ps[p])
  {
    hide UniqueKeys, AnswersAnew, CreateCheckout;
    FirstCheckoutIff(ps, input, env.paymentId, env.stripe);
    AnewMeansSession(ps, env);
    var (qs, r) := CreateCheckout(ps, input, env.paymentId, env.stripe);
    if r.Ok? {
      assert env.paymentId !in ps;
      assert forall p :: p in ps ==> p != env.paymentId && p in qs && qs[p] == ps[p];
    }
  }

  lemma AnewMeansSession(ps: Payments, env: EnrollEnv)
    ensures AnswersAnew(ps, env.paymentId, env.stripe) ==> env.stripe.Session?
  {
  }

  // ---- over runs ----

  /** The session and the url of every membership's payment are the same in both worlds. */
  ghost predicate SameCheckouts(w: World, v: World) {
    forall i :: i in w.memberships && w.memberships[i].paymentId.Some?
                && w.memberships[i].paymentId.value in w.payments ==>
      var p := w.memberships[i].paymentId.value;
      && i in v.memberships && v.memberships[i].paymentId == Some(p) && p in v.payments
      && v.payments[p].checkoutSession == w.payments[p].checkoutSession
      && v.payments[p].checkoutUrl == w.payments[p].checkoutUrl
  }

  lemma ResultKeepsCheckouts(w: World, c: Id, u: Id, env: EnrollEnv, current: Memberships,
                             ms: Memberships, ps: Payments, out: Outcome<Enrollment>)
    requires EnrollmentIs(w, c, u, env, current, ms, ps, out) && OpenCheckouts(w.memberships, w.payments)
    requires current.Keys == w.memberships.Keys
    requires forall i :: i in current ==> current[i].paymentId == w.memberships[i].paymentId
    ensures OpenCheckouts(ms, ps)
    ensures forall p :: p in w.payments ==> p in ps && ps[p] == w.payments[p]
  {
    hide AnswersAnew, SeatFor, ResumesOk, CanResume, MayEnroll;
    forall i | i in ms && ms[i].paymentId.Some?
      ensures ms[i].paymentId.value in ps
      ensures ps[ms[i].paymentId.value].checkoutSession.Some? && ps[ms[i].paymentId.value].checkoutUrl.Some?
    {
      var p := ms[i].paymentId.value;
      if i in w.memberships && w.memberships[i].paymentId == Some(p) {
        assert p in w.payments && ps[p] == w.payments[p];
      } else {
        assert out.Ok? && i == env.membershipId && p == env.paymentId;
      }
    }
  }

  lemma EnrollKeepsCheckouts(w: World, c: Id, u: Id, env: EnrollEnv, cal: Cat.Calendar)
    requires Inv(w, cal) && OpenCheckouts(w.memberships, w.payments) && Enabled(w, Enrolls(c, u, env))
    ensures
      var v := Do(w, Enrolls(c, u, env), cal);
      && OpenCheckouts(v.memberships, v.payments)
      && forall p :: p in w.payments ==> p in v.payments && v.payments[p] == w.payments[p]
  {
    hide Enroll, AfterExpiry, EnrollmentIs, Inv, IsReadings, OpenCheckouts;
    EnrollResult(w, c, u, env, cal);
    ExpiryKeepsPayment(w.memberships, c, u, env.readings);
    var (ms, ps, out) := Enroll(w.catalog, w.memberships, w.payments, c, u, env);
    ResultKeepsCheckouts(w, c, u, env, AfterExpiry(w.memberships, c, u, env.readings), ms, ps, out);
  }

  lemma ExpiryKeepsPayment(ms: Memberships, c: Id, u: Id, r: Readings)
    ensures
      var current := AfterExpiry(ms, c, u, r);
      current.Keys == ms.Keys && forall i :: i in ms ==> current[i].paymentId == ms[i].paymentId
  {
  }

  ghost predicate SameSessions(ps: Payments, qs: Payments) {
    forall p :: p in ps ==>
      p in qs && qs[p].checkoutSession == ps[p].checkoutSession && qs[p].checkoutUrl == ps[p].checkoutUrl
  }

  ghost predicate SamePayments(ms: Memberships, ns: Memberships) {
    forall i :: i in ms ==> i in ns && ns[i].paymentId == ms[i].paymentId
  }

  lemma CheckoutsFollow(w: World, v: World)
    requires OpenCheckouts(w.memberships, w.payments)
    requires SamePayments(w.memberships, v.memberships) && SameSessions(w.payments, v.payments)
    ensures SameCheckouts(w, v)
    ensures v.memberships.Keys == w.memberships.Keys ==> OpenCheckouts(v.memberships, v.payments)
  {
  }

  lemma WebhookKeepsSessions(ps: Payments, ev: StripeEvent)
    requires UniqueKeys(ps)
    ensures SameSessions(ps, AfterWebhook(ps, ev).0)
  {
    hide AfterWebhook, UniqueKeys;
    WebhookMoves(ps, ev);
  }

  lemma MovedPayments(w: World, e: Event, cal: Cat.Calendar)
    requires Inv(w, cal) && Enabled(w, e)
    ensures SamePayments(w.memberships, Do(w, e, cal).memberships)
  {
    hide Inv, Do, Enabled;
    StepMoves(w, e, cal);
  }

  lemma StepKeepsCheckouts(w: World, e: Event, cal: Cat.Calendar)
    requires Inv(w, cal) && OpenCheckouts(w.memberships, w.payments) && Enabled(w, e)
    ensures OpenCheckouts(Do(w, e, cal).memberships, Do(w, e, cal).payments)
    ensures SameCheckouts(w, Do(w, e, cal))
  {
    hide Inv, Cat.After, AfterWebhook, Enroll, HandleMessage, Worker.Do, IsReadings, OpenCheckouts, SameCheckouts;
    MovedPayments(w, e, cal);
    hide SamePayments;
    var v := Do(w, e, cal);
    match e
    case Enrolls(c, u, env) =>
      EnrollKeepsCheckouts(w, c, u, env, cal);
      CheckoutsFollow(w, v);
    case Webhook(ev) =>
      UniqueInWorld(w, cal);
      WebhookKeepsSessions(w.payments, ev);
      CheckoutsFollow(w, v);
    case Deliver(k, r) =>
      DeliveryKeepsPayment(w, k, r, cal);
      CheckoutsFollow(w, v);
    case _ =>
      CheckoutsFollow(w, v);
  }

  lemma UniqueInWorld(w: World, cal: Cat.Calendar)
    requires Inv(w, cal)
    ensures UniqueKeys(w.payments)
  {
  }

  lemma DeliveryKeepsPayment(w: World, k: nat, r: Readings, cal: Cat.Calendar)
    requires Inv(w, cal) && Enabled(w, Deliver(k, r))
    ensures
      var ns := Do(w, Deliver(k, r), cal).memberships;
      ns.Keys == w.memberships.Keys && forall i :: i in ns ==> ns[i].paymentId == w.memberships[i].paymentId
  {
    hide Cat.Inv, Worker.Inv, UniqueKeys, IsReadings, Placed, TermsAgree, CheckNow, ReservationExpired;
    assert Backed(w.worker.rows[k], w.payments);
  }

  lemma {:induction false} RunKeepsCheckouts(w: World, es: seq<Event>, cal: Cat.Calendar)
    requires Inv(w, cal) && Cat.IsCalendar(cal) && OpenCheckouts(w.memberships, w.payments) && Runs(w, es, cal)
    ensures OpenCheckouts(Run(w, es, cal).memberships, Run(w, es, cal).payments)
    ensures SameCheckouts(w, Run(w, es, cal))
    decreases |es|
  {
    hide Inv, Do, Enabled, OpenCheckouts;
    if es != [] {
      StepKeeps(w, es[0], cal);
      StepKeepsCheckouts(w, es[0], cal);
      RunKeepsCheckouts(Do(w, es[0], cal), es[1..], cal);
    }
  }

  lemma ReachableCheckouts(es: seq<Event>, cal: Cat.Calendar)
    requires Cat.IsCalendar(cal) && Runs(EMPTY, es, cal)
    ensures OpenCheckouts(Run(EMPTY, es, cal).memberships, Run(EMPTY, es, cal).payments)
  {
    hide Inv, Run, Runs;
    EmptyOk(cal);
    RunKeepsCheckouts(EMPTY, es, cal);
  }

  /** One checkout for good: from every reachable world on, the payment of a membership has a session and
      a url, and whatever happens, a resumed enrollment included, they stay the same. */
  lemma CheckoutStaysOpen(es: seq<Event>, later: seq<Event>, cal: Cat.Calendar, i: Id)
    requires Cat.IsCalendar(cal) && Runs(EMPTY, es, cal) && Runs(Run(EMPTY, es, cal), later, cal)
    requires i in Run(EMPTY, es, cal).memberships && Run(EMPTY, es, cal).memberships[i].paymentId.Some?
    ensures
      var w, v := Run(EMPTY, es, cal), Run(Run(EMPTY, es, cal), later, cal);
      var p := w.memberships[i].paymentId.value;
      && p in w.payments && w.payments[p].checkoutSession.Some? && w.payments[p].checkoutUrl.Some?
      && i in v.memberships && v.memberships[i].paymentId == Some(p) && p in v.payments
      && v.payments[p].checkoutSession == w.payments[p].checkoutSession
      && v.payments[p].checkoutUrl == w.payments[p].checkoutUrl
  {
    hide Inv, Runs;
    ReachableOk(es, cal);
    ReachableCheckouts(es, cal);
    RunKeepsCheckouts(Run(EMPTY, es, cal), later, cal);
  }

  /** When an enrollment succeeds, and what it writes: in every reachable world it does exactly before the
      cohort's first session, for a user who does not own it, and either with the pending membership that
      the user has here, while its payment is pending, or with a seat for a free user and, if there is a
      price, a first checkout that Stripe answers.  Otherwise no membership and no existing payment
      changes. */
  lemma EnrollmentSucceedsIff(es: seq<Event>, cal: Cat.Calendar, c: Id, u: Id, env: EnrollEnv)
    requires Cat.IsCalendar(cal) && Runs(EMPTY, es, cal) && Enabled(Run(EMPTY, es, cal), Enrolls(c, u, env))
    ensures
      var w := Run(EMPTY, es, cal);
      var (ms, ps, out) := Enroll(w.catalog, w.memberships, w.payments, c, u, env);
      && Do(w, Enrolls(c, u, env), cal) == w.(memberships := ms, payments := ps, clock := env.readings.end)
      && EnrollmentIs(w, c, u, env, AfterExpiry(w.memberships, c, u, env.readings), ms, ps, out)
  {
    hide Inv, Runs, EnrollmentIs, Enroll, AfterExpiry, IsReadings, OpenCheckouts;
    ReachableOk(es, cal);
    ReachableCheckouts(es, cal);
    EnrollResult(Run(EMPTY, es, cal), c, u, env, cal);
  }
}
