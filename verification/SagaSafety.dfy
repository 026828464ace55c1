/** What every step of the saga keeps, and what therefore holds after every run. */
module SagaSafety {
  import opened Prelude
  import opened Memberships
  import opened Payments
  import opened Saga
  import Cat = Catalog
  import Worker = OutboxWorker

  type Cohorts = map<Id, Cat.Cohort>

  // ---- the invariant, in parts ----

  /** Memberships belong to existing cohorts, and reservations carry an expiry and a payment. */
  ghost predicate Placed(cs: Cohorts, ms: Memberships) {
    forall i :: i in ms ==>
      && ms[i].cohortId in cs
      && (ms[i].status == PendingPayment ==> ms[i].expiresAt.Some? && ms[i].paymentId.Some?)
  }

  /** A membership's payment is the one payment row of that membership. */
  ghost predicate Linked(ms: Memberships, ps: Payments) {
    && (forall i :: i in ms && ms[i].paymentId.Some? ==>
          ms[i].paymentId.value in ps && ps[ms[i].paymentId.value].membershipId == i)
    && (forall p :: p in ps && ps[p].membershipId in ms ==> ms[ps[p].membershipId].paymentId == Some(p))
  }

  predicate PaidFor(p: Payment) {
    p.status == SUCCEEDED || p.status == REFUNDED
  }

  ghost predicate ActiveArePaid(ms: Memberships, ps: Payments) {
    forall i :: i in ms && ms[i].status == Active && ms[i].paymentId.Some? ==>
      ms[i].paymentId.value in ps && PaidFor(ps[ms[i].paymentId.value])
  }

  /** Payments of existing memberships ask for the cohort's price. */
  ghost predicate TermsAgree(cs: Cohorts, ms: Memberships, ps: Payments) {
    forall p :: p in ps && ps[p].membershipId in ms ==>
      var m := ms[ps[p].membershipId];
      && m.cohortId in cs && ps[p].cohortId == m.cohortId && ps[p].userId == m.userId
      && ps[p].amount == cs[m.cohortId].spotPriceAmount && ps[p].currency == cs[m.cohortId].currency
  }

  ghost predicate WithinCapacity(cs: Cohorts, ms: Memberships, clock: int) {
    forall c :: c in cs ==> |SeatsAt(ms, c, clock)| <= cs[c].maxStudents
  }

  /** The membership takes part in the workshop: it is active or reserved. */
  predicate Engaged(m: Membership) {
    m.status == Active || m.status == PendingPayment
  }

  predicate BothEngaged(cs: Cohorts, m: Membership, n: Membership) {
    m.userId == n.userId && Engaged(m) && Engaged(n) && m.cohortId in cs && n.cohortId in cs
  }

  ghost predicate OneEngagement(cs: Cohorts, ms: Memberships) {
    forall i, j :: i in ms && j in ms && i != j && BothEngaged(cs, ms[i], ms[j]) ==>
      cs[ms[i].cohortId].workshopId != cs[ms[j].cohortId].workshopId
  }

  ghost predicate Sound(cs: Cohorts, ms: Memberships, ps: Payments, clock: int) {
    && Placed(cs, ms) && Linked(ms, ps) && ActiveArePaid(ms, ps) && TermsAgree(cs, ms, ps)
    && WithinCapacity(cs, ms, clock) && OneEngagement(cs, ms)
  }

  /** An outbox row announces a status that its payment has reached. */
  ghost predicate Backed(row: Worker.Row, ps: Payments) {
    && row.payload.PaymentOutcome? && row.payload.paymentId in ps
    && ps[row.payload.paymentId].membershipId == row.payload.membershipId
    && (row.eventName == "payment.succeeded" ==> PaidFor(ps[row.payload.paymentId]))
    && row.eventName in PAYMENT_SCHEMAS
  }

  ghost predicate AllBacked(rows: seq<Worker.Row>, ps: Payments) {
    forall k :: 0 <= k < |rows| ==> Backed(rows[k], ps)
  }

  ghost predicate Inv(w: World, cal: Cat.Calendar) {
    && Cat.Inv(w.catalog, cal) && UniqueKeys(w.payments)
    && Sound(w.catalog.cohorts, w.memberships, w.payments, w.clock)
    && AllBacked(w.worker.rows, w.payments) && Worker.Inv(PAYMENT_SCHEMAS, w.worker)
  }

  // ---- memberships that only grow older ----

  /** n is m, or m in a state that holds no seat. */
  predicate Ages(m: Membership, n: Membership) {
    n == m || (n.cohortId == m.cohortId && n.userId == m.userId && n.paymentId == m.paymentId && !Engaged(n))
  }

  ghost predicate Aging(ms: Memberships, ns: Memberships) {
    ms.Keys == ns.Keys && forall i :: i in ms ==> Ages(ms[i], ns[i])
  }

  lemma SeatsOfAging(ms: Memberships, ns: Memberships, c: Id, t: int, u: int)
    requires Aging(ms, ns) && t <= u
    ensures |SeatsAt(ns, c, u)| <= |SeatsAt(ms, c, t)|
  {
    var a, b := SeatsAt(ns, c, u), SeatsAt(ms, c, t);
    assert forall i :: i in a ==> Ages(ms[i], ns[i]) && i in b;
    SubsetCardinality(a, b);
  }

  lemma AgingKeeps(cs: Cohorts, ms: Memberships, ns: Memberships, ps: Payments, t: int, u: int)
    requires Sound(cs, ms, ps, t) && Aging(ms, ns) && t <= u
    ensures Sound(cs, ns, ps, u)
  {
    assert forall i :: i in ms ==> Ages(ms[i], ns[i]);
    assert Placed(cs, ns) && Linked(ns, ps) && ActiveArePaid(ns, ps) && TermsAgree(cs, ns, ps) && OneEngagement(cs, ns);
    forall c | c in cs
      ensures |SeatsAt(ns, c, u)| <= cs[c].maxStudents
    {
      SeatsOfAging(ms, ns, c, t, u);
    }
  }

  lemma ExpiryAges(ms: Memberships, cohortId: Id, userId: Id, r: Readings)
    ensures Aging(ms, AfterExpiry(ms, cohortId, userId, r))
  {
  }

  // ---- activation by payment ----

  /** A paid reservation that had not expired at time t becomes active. */
  lemma ActivationKeeps(cs: Cohorts, ms: Memberships, ps: Payments, id: Id, n: Membership, t: int, u: int)
    requires Sound(cs, ms, ps, t) && t <= u && id in ms
    requires ms[id].status == PendingPayment && HoldsSeat(ms[id], t)
    requires n.status == Active && n.cohortId == ms[id].cohortId && n.userId == ms[id].userId
    requires n.paymentId == ms[id].paymentId
    requires n.paymentId.Some? && n.paymentId.value in ps && PaidFor(ps[n.paymentId.value])
    ensures Sound(cs, ms[id := n], ps, u)
  {
    var ns := ms[id := n];
    assert Placed(cs, ns) && Linked(ns, ps) && ActiveArePaid(ns, ps) && TermsAgree(cs, ns, ps) && OneEngagement(cs, ns);
    forall c | c in cs
      ensures |SeatsAt(ns, c, u)| <= cs[c].maxStudents
    {
      var a, b := SeatsAt(ns, c, u), SeatsAt(ms, c, t);
      assert forall i :: i in a ==> i in b;
      SubsetCardinality(a, b);
    }
  }

  /** The over-capacity branch of handlePaymentSucceeded is never taken. */
  lemma NeverOverCapacity(cs: Cohorts, ms: Memberships, clock: int, c: Id, r: Readings)
    requires WithinCapacity(cs, ms, clock) && c in cs && IsReadings(r, clock)
    ensures |SeatsRead(ms, c, r.seats)| <= cs[c].maxStudents
  {
    SeatsReadBounds(ms, c, r.seats, clock, r.end);
  }

  lemma DeliveryKeeps(cat: Cat.State, ms: Memberships, ps: Payments, row: Worker.Row, r: Readings, clock: int)
    requires Sound(cat.cohorts, ms, ps, clock) && IsReadings(r, clock) && Backed(row, ps)
    ensures Sound(cat.cohorts, HandleMessage(cat, ms, row, r), ps, r.end)
  {
    var ns := HandleMessage(cat, ms, row, r);
    if row.payload.membershipId in ms && PaymentEventOf(row.eventName).Some? {
      var id := row.payload.membershipId;
      var m := ms[id];
      assert m.paymentId == Some(row.payload.paymentId);
      if ns[id].status == Active && m.status != Active {
        ActivationKeeps(cat.cohorts, ms, ps, id, ns[id], clock, r.end);
        assert ns == ms[id := ns[id]];
      } else {
        assert Ages(m, ns[id]);
        AgingKeeps(cat.cohorts, ms, ns, ps, clock, r.end);
      }
    } else {
      AgingKeeps(cat.cohorts, ms, ns, ps, clock, r.end);
    }
  }

  // ---- enrollment ----

  /** Nobody is engaged in the cohort's workshop under this user. */
  ghost predicate NotEngaged(cs: Cohorts, ms: Memberships, cohortId: Id, userId: Id)
    requires cohortId in cs
  {
    forall i :: i in ms && ms[i].userId == userId && Engaged(ms[i]) && ms[i].cohortId in cs ==>
      cs[ms[i].cohortId].workshopId != cs[cohortId].workshopId
  }

  lemma NoLiveMeansNotEngaged(cs: Cohorts, ms: Memberships, cohortId: Id, userId: Id)
    requires cohortId in cs && LiveHere(ms, cohortId, userId) == {} && !LiveElsewhere(cs, ms, cohortId, userId)
    ensures NotEngaged(cs, ms, cohortId, userId)
  {
    forall i | i in ms && ms[i].userId == userId && Engaged(ms[i]) && ms[i].cohortId in cs
      ensures cs[ms[i].cohortId].workshopId != cs[cohortId].workshopId
    {
      assert ms[i].cohortId == cohortId ==> i in LiveHere(ms, cohortId, userId);
    }
  }

  /** A new membership takes a seat of a cohort that had one left. */
  lemma SeatTaken(cs: Cohorts, ms: Memberships, id: Id, n: Membership, r: Readings, clock: int)
    requires WithinCapacity(cs, ms, clock) && IsReadings(r, clock) && id !in ms && n.cohortId in cs
    requires |SeatsRead(ms, n.cohortId, r.seats)| < cs[n.cohortId].maxStudents
    ensures WithinCapacity(cs, ms[id := n], r.end)
  {
    forall c | c in cs
      ensures |SeatsAt(ms[id := n], c, r.end)| <= cs[c].maxStudents
    {
      var now := SeatsAt(ms[id := n], c, r.end);
      SeatsReadBounds(ms, c, r.seats, clock, r.end);
      if c == n.cohortId {
        assert forall i :: i in now ==> i == id || i in SeatsAt(ms, c, r.end);
        SubsetCardinality(now, SeatsAt(ms, c, r.end) + {id});
      } else {
        assert forall i :: i in now ==> i in SeatsAt(ms, c, r.end);
        SubsetCardinality(now, SeatsAt(ms, c, r.end));
      }
    }
  }

  lemma SoleRow(ps: Payments, p: Id, q: Id)
    requires UniqueKeys(ps) && p in ps && q in ps && ps[p].membershipId == ps[q].membershipId
    ensures p == q
  {
  }

  /** A new membership, with its payment row if it is a reservation. */
  lemma NewMembershipKeeps(cs: Cohorts, ms: Memberships, ps: Payments, id: Id, n: Membership, r: Readings, clock: int)
    requires Sound(cs, ms, ps, clock) && IsReadings(r, clock) && UniqueKeys(ps)
    requires id !in ms && n.cohortId in cs && NotEngaged(cs, ms, n.cohortId, n.userId)
    requires |SeatsRead(ms, n.cohortId, r.seats)| < cs[n.cohortId].maxStudents
    requires n.paymentId.None? ==> n.status == Active && forall p :: p in ps ==> ps[p].membershipId != id
    requires n.paymentId.Some? ==>
      && n.status == PendingPayment && n.expiresAt.Some? && n.paymentId.value in ps
      && var p := ps[n.paymentId.value];
      && p.membershipId == id && p.cohortId == n.cohortId && p.userId == n.userId
      && p.amount == cs[n.cohortId].spotPriceAmount && p.currency == cs[n.cohortId].currency
    ensures Sound(cs, ms[id := n], ps, r.end)
  {
    var ns := ms[id := n];
    SeatTaken(cs, ms, id, n, r, clock);
    forall p | p in ps && ps[p].membershipId == id
      ensures n.paymentId == Some(p)
    {
      SoleRow(ps, p, n.paymentId.value);
    }
    assert Linked(ns, ps);
    assert Placed(cs, ns) && ActiveArePaid(ns, ps) && TermsAgree(cs, ns, ps) && OneEngagement(cs, ns);
  }

  /** A checkout for one membership: the rest of the table stays, and the row of this membership,
      new or replaced, is pending and asks for the cohort's terms. */
  ghost predicate Checkouts(ps: Payments, qs: Payments, input: CheckoutInput) {
    && UniqueKeys(qs) && ps.Keys <= qs.Keys
    && (forall p :: p in ps && qs[p] != ps[p] ==>
          ps[p].status == PaymentStatus.PENDING && ps[p].membershipId == input.membershipId && Asks(qs[p], input))
    && (forall p :: p in qs && p !in ps ==> Asks(qs[p], input) && FindByMembership(ps, input.membershipId).None?)
  }

  predicate Asks(p: Payment, input: CheckoutInput) {
    && p.status == PaymentStatus.PENDING && p.membershipId == input.membershipId && p.userId == input.userId
    && p.cohortId == input.cohortId && p.amount == input.amount && p.currency == input.currency
  }

  lemma CheckoutKeeps(cs: Cohorts, ms: Memberships, ps: Payments, qs: Payments, input: CheckoutInput, t: int)
    requires Sound(cs, ms, ps, t) && UniqueKeys(ps) && Checkouts(ps, qs, input)
    requires input.membershipId in ms ==>
      && ms[input.membershipId].paymentId.Some?
      && var m := ms[input.membershipId];
      && m.cohortId in cs && input.cohortId == m.cohortId && input.userId == m.userId
      && input.amount == cs[m.cohortId].spotPriceAmount && input.currency == cs[m.cohortId].currency
    ensures Sound(cs, ms, qs, t)
  {
    forall p | p in qs && p !in ps
      ensures qs[p].membershipId !in ms
    {
      assert qs[p].membershipId == input.membershipId;
    }
    forall p | p in ps
      ensures p in qs && qs[p].membershipId == ps[p].membershipId && (PaidFor(ps[p]) ==> qs[p] == ps[p])
    {
      assert qs[p] != ps[p] ==> Asks(qs[p], input);
    }
    assert Linked(ms, qs);
    assert ActiveArePaid(ms, qs);
    assert TermsAgree(cs, ms, qs);
  }

  lemma CheckoutsHappen(ps: Payments, input: CheckoutInput, newId: Id, reply: StripeReply)
    requires UniqueKeys(ps)
    ensures
      var (qs, r) := CreateCheckout(ps, input, newId, reply);
      && Checkouts(ps, qs, input) && UniqueKeys(qs)
      && (r.Ok? ==> r.value.paymentId in qs && qs[r.value.paymentId].membershipId == input.membershipId)
      && (r.Ok? && FindByMembership(ps, input.membershipId).None? ==> Asks(qs[r.value.paymentId], input))
  {
    CheckoutFrame(ps, input, newId, reply);
  }

  /** What an enrollment needs of the payments table, whichever way it ends. */
  lemma EnrollKeeps(cat: Cat.State, ms: Memberships, ps: Payments, cohortId: Id, userId: Id, env: EnrollEnv, clock: int)
    requires Sound(cat.cohorts, ms, ps, clock) && UniqueKeys(ps) && IsReadings(env.readings, clock)
    requires forall p :: p in ps ==> ps[p].membershipId != env.membershipId
    ensures
      var (ns, qs, _) := Enroll(cat, ms, ps, cohortId, userId, env);
      Sound(cat.cohorts, ns, qs, env.readings.end) && UniqueKeys(qs)
  {
    var cs, r := cat.cohorts, env.readings;
    AgingKeeps(cs, ms, ms, ps, clock, r.end);
    if cohortId in cs && cs[cohortId].expertId != userId {
      var current := AfterExpiry(ms, cohortId, userId, r);
      ExpiryAges(ms, cohortId, userId, r);
      AgingKeeps(cs, ms, current, ps, clock, clock);
      var plan := PlanEnrollment(cat, current, cohortId, userId, env);
      if plan.Ok? {
        if !plan.value.Resume? {
          NoLiveMeansNotEngaged(cs, current, cohortId, userId);
        }
        if plan.value == JoinFree {
          var joined := Membership(cohortId, userId, None, Active, Some(r.stamp), None, None);
          NewMembershipKeeps(cs, current, ps, env.membershipId, joined, r, clock);
        } else {
          PaidEnrollKeeps(cat, ms, current, ps, cohortId, userId, env, clock, plan.value);
        }
      }
    }
  }

  /** The reservation and its payment row, once the checkout is there. */
  lemma ReserveKeeps(cs: Cohorts, ms: Memberships, ps: Payments, cohortId: Id, userId: Id, env: EnrollEnv, clock: int)
    requires cohortId in cs && Sound(cs, ms, ps, clock) && UniqueKeys(ps) && IsReadings(env.readings, clock)
    requires env.membershipId !in ms && forall p :: p in ps ==> ps[p].membershipId != env.membershipId
    requires NotEngaged(cs, ms, cohortId, userId)
    requires |SeatsRead(ms, cohortId, env.readings.seats)| < cs[cohortId].maxStudents
    ensures
      var (qs, reply) := CreateCheckout(ps, CheckoutFor(cs[cohortId], cohortId, userId, env.membershipId),
                                        env.paymentId, env.stripe);
      reply.Ok? ==>
        Sound(cs, ms[env.membershipId := Membership(cohortId, userId, Some(reply.value.paymentId), PendingPayment, None,
                                                    Some(env.readings.stamp + RESERVATION_TTL_MS), None)],
              qs, env.readings.end)
  {
    hide CreateCheckout, Sound, UniqueKeys, WithinCapacity;
    var input := CheckoutFor(cs[cohortId], cohortId, userId, env.membershipId);
    var (qs, reply) := CreateCheckout(ps, input, env.paymentId, env.stripe);
    CheckoutsHappen(ps, input, env.paymentId, env.stripe);
    if reply.Ok? {
      assert FindByMembership(ps, env.membershipId).None?;
      CheckoutKeeps(cs, ms, ps, qs, input, clock);
      var reserved := Membership(cohortId, userId, Some(reply.value.paymentId), PendingPayment, None,
                                 Some(env.readings.stamp + RESERVATION_TTL_MS), None);
      NewMembershipKeeps(cs, ms, qs, env.membershipId, reserved, env.readings, clock);
    }
  }

  lemma SoundLater(cs: Cohorts, ms: Memberships, ps: Payments, clock: int, r: Readings)
    requires Sound(cs, ms, ps, clock) && IsReadings(r, clock)
    ensures Sound(cs, ms, ps, r.end)
  {
    AgingKeeps(cs, ms, ms, ps, clock, r.end);
  }

  /** The membership that a checkout is opened for: a resumed one is a reservation of this user in
      this cohort that was not touched by the expiry; a new one is unknown so far. */
  lemma CheckoutMembership(cat: Cat.State, ms: Memberships, current: Memberships, ps: Payments, cohortId: Id,
                           userId: Id,
                           env: EnrollEnv, clock: int, plan: Plan)
    requires Sound(cat.cohorts, current, ps, clock) && cohortId in cat.cohorts
    requires current == AfterExpiry(ms, cohortId, userId, env.readings)
    requires PlanEnrollment(cat, current, cohortId, userId, env) == Ok(plan)
    ensures plan.Resume? ==>
      && plan.membershipId in ms && plan.membershipId in current && ms[plan.membershipId] == current[plan.membershipId]
      && var m := ms[plan.membershipId];
      && m.cohortId == cohortId && m.userId == userId && m.paymentId.Some?
    ensures plan.Reserve? ==>
      && env.membershipId !in ms && env.membershipId !in current
      && |SeatsRead(current, cohortId, env.readings.seats)| < cat.cohorts[cohortId].maxStudents
  {
    ExpiryAges(ms, cohortId, userId, env.readings);
    assert plan.Resume? ==> Ages(ms[plan.membershipId], current[plan.membershipId]);
  }

  lemma PaidEnrollKeeps(cat: Cat.State, ms: Memberships, current: Memberships, ps: Payments, cohortId: Id, userId: Id,
                        env: EnrollEnv, clock: int, plan: Plan)
    requires Sound(cat.cohorts, ms, ps, clock) && UniqueKeys(ps) && IsReadings(env.readings, clock)
    requires cohortId in cat.cohorts && cat.cohorts[cohortId].expertId != userId
    requires forall p :: p in ps ==> ps[p].membershipId != env.membershipId
    requires current == AfterExpiry(ms, cohortId, userId, env.readings) && Sound(cat.cohorts, current, ps, clock)
    requires PlanEnrollment(cat, current, cohortId, userId, env) == Ok(plan) && plan != JoinFree
    requires plan.Reserve? ==> NotEngaged(cat.cohorts, current, cohortId, userId)
    ensures
      var (ns, qs, _) := Enroll(cat, ms, ps, cohortId, userId, env);
      Sound(cat.cohorts, ns, qs, env.readings.end) && UniqueKeys(qs)
  {
    hide CreateCheckout, Sound, UniqueKeys, Checkouts, IsReadings, AfterExpiry;
    var cs, r := cat.cohorts, env.readings;
    var id := if plan.Resume? then plan.membershipId else env.membershipId;
    var input := CheckoutFor(cs[cohortId], cohortId, userId, id);
    var (qs, reply) := CreateCheckout(ps, input, env.paymentId, env.stripe);
    CheckoutsHappen(ps, input, env.paymentId, env.stripe);
    CheckoutMembership(cat, ms, current, ps, cohortId, userId, env, clock, plan);
    CheckoutKeeps(cs, ms, ps, qs, input, clock);
    CheckoutKeeps(cs, current, ps, qs, input, clock);
    SoundLater(cs, ms, qs, clock, r);
    SoundLater(cs, current, qs, clock, r);
    if plan.Reserve? {
      ReserveKeeps(cs, current, ps, cohortId, userId, env, clock);
    }
  }

  // ---- webhooks, the worker and the catalog ----

  /** Payments move up and keep everything but their status and intent. */
  ghost predicate PaymentsMove(ps: Payments, qs: Payments) {
    && ps.Keys == qs.Keys
    && forall p :: p in ps ==>
         && Rank(ps[p].status) <= Rank(qs[p].status)
         && qs[p] == ps[p].(status := qs[p].status, paymentIntent := qs[p].paymentIntent)
  }

  lemma MovedPaymentsKeep(cs: Cohorts, ms: Memberships, ps: Payments, qs: Payments, clock: int)
    requires Sound(cs, ms, ps, clock) && PaymentsMove(ps, qs)
    ensures Sound(cs, ms, qs, clock)
  {
    assert forall p :: p in ps ==> qs[p].membershipId == ps[p].membershipId && (PaidFor(ps[p]) ==> PaidFor(qs[p]));
    forall i | i in ms && ms[i].paymentId.Some?
      ensures ms[i].paymentId.value in qs && qs[ms[i].paymentId.value].membershipId == i
    {
      assert ms[i].paymentId.value in ps;
    }
    assert Linked(ms, qs) && ActiveArePaid(ms, qs) && TermsAgree(cs, ms, qs);
  }

  /** Rows stay backed while payments move up or gain rows. */
  lemma BackedStays(rows: seq<Worker.Row>, ps: Payments, qs: Payments)
    requires AllBacked(rows, ps) && ps.Keys <= qs.Keys
    requires forall p :: p in ps ==> qs[p].membershipId == ps[p].membershipId && (PaidFor(ps[p]) ==> PaidFor(qs[p]))
    ensures AllBacked(rows, qs)
  {
    forall k | 0 <= k < |rows|
      ensures Backed(rows[k], qs)
    {
      assert Backed(rows[k], ps);
    }
  }

  lemma WebhookKeeps(w: World, ev: StripeEvent, cal: Cat.Calendar)
    requires Inv(w, cal)
    ensures Inv(Do(w, Webhook(ev), cal), cal)
  {
    hide AfterWebhook, Cat.Inv, Sound;
    var (qs, rows) := AfterWebhook(w.payments, ev);
    WebhookMoves(w.payments, ev);
    assert PaymentsMove(w.payments, qs);
    MovedPaymentsKeep(w.catalog.cohorts, w.memberships, w.payments, qs, w.clock);
    BackedStays(w.worker.rows, w.payments, qs);
    if rows != [] {
      var p, at :| ReportsMove(w.payments, qs, rows, p, at);
      assert Backed(rows[0], qs);
      assert rows == [rows[0]];
      InsertKeeps(w.worker, rows[0]);
      assert Worker.Do(PAYMENT_SCHEMAS, w.worker, Worker.Insert(rows[0])) == w.worker.(rows := w.worker.rows + rows);
    } else {
      assert w.worker.rows + rows == w.worker.rows;
    }
  }

  lemma InsertKeeps(s: Worker.State, row: Worker.Row)
    requires Worker.Inv(PAYMENT_SCHEMAS, s) && row.status == Worker.RowStatus.PENDING
    ensures Worker.Inv(PAYMENT_SCHEMAS, Worker.Do(PAYMENT_SCHEMAS, s, Worker.Insert(row)))
  {
    Worker.StepKeeps(PAYMENT_SCHEMAS, s, Worker.Insert(row));
  }

  /** The worker changes nothing of a row but its status. */
  lemma WorkKeeps(w: World, step: Worker.Step, cal: Cat.Calendar)
    requires Inv(w, cal) && Enabled(w, Work(step))
    ensures Inv(Do(w, Work(step), cal), cal)
  {
    hide Sound, Cat.Inv, UniqueKeys;
    Worker.StepKeeps(PAYMENT_SCHEMAS, w.worker, step);
    var rows := Worker.Do(PAYMENT_SCHEMAS, w.worker, step).rows;
    assert |rows| == |w.worker.rows|;
    forall k | 0 <= k < |rows|
      ensures Backed(rows[k], w.payments)
    {
      assert rows[k] == w.worker.rows[k].(status := rows[k].status);
    }
  }

  /** Members of a cohort whose count is zero. */
  lemma NoMembers(ms: Memberships, c: Id)
    ensures |MembersOf(ms, c)| == 0 <==> forall i :: i in ms ==> ms[i].cohortId != c
  {
    var members := MembersOf(ms, c);
    assert forall i :: i in ms && ms[i].cohortId == c ==> i in members;
    if members != {} {
      var i := Member(members);
    }
  }

  lemma CapacityAfterRequest(cs: Cohorts, ds: Cohorts, ms: Memberships, req: Cat.Request, r: Readings, clock: int,
                             c: Id)
    requires Placed(cs, ms) && WithinCapacity(cs, ms, clock) && IsReadings(r, clock) && c in ds && ds[c].maxStudents > 0
    requires c in cs && ds[c] != cs[c] ==>
      && req.id == c
      && (|MembersOf(ms, c)| > 0 ==>
            ds[c].maxStudents == cs[c].maxStudents || ds[c].maxStudents >= |SeatsRead(ms, c, r.seats)|)
    ensures |SeatsAt(ms, c, r.end)| <= ds[c].maxStudents
  {
    if c in cs {
      SeatsShrink(ms, c, clock, r.end);
      SeatsReadBounds(ms, c, r.seats, clock, r.end);
    }
    if c !in cs || |MembersOf(ms, c)| == 0 {
      NoMembers(ms, c);
      assert SeatsAt(ms, c, r.end) == {};
    }
  }

  lemma RequestKeepsSound(s: Cat.State, t: Cat.State, ms: Memberships, ps: Payments, req: Cat.Request, r: Readings,
                          clock: int)
    requires Sound(s.cohorts, ms, ps, clock) && IsReadings(r, clock)
    requires Cat.CohortsMove(s, t, req, CountMembers(ms, req.id, r))
    requires forall c :: c in t.cohorts ==> t.cohorts[c].maxStudents > 0
    ensures Sound(t.cohorts, ms, ps, r.end)
  {
    var cs, ds := s.cohorts, t.cohorts;
    NoMembers(ms, req.id);
    forall i | i in ms
      ensures ms[i].cohortId in ds && Cat.SameTerms(cs[ms[i].cohortId], ds[ms[i].cohortId])
    {
      assert ms[i].cohortId in cs;
    }
    forall c | c in ds
      ensures |SeatsAt(ms, c, r.end)| <= ds[c].maxStudents
    {
      CapacityAfterRequest(cs, ds, ms, req, r, clock, c);
    }
    assert Placed(ds, ms) && TermsAgree(ds, ms, ps) && OneEngagement(ds, ms);
  }

  lemma ManageKeeps(w: World, req: Cat.Request, r: Readings, cal: Cat.Calendar)
    requires Inv(w, cal) && Cat.IsCalendar(cal) && Enabled(w, Manage(req, r))
    ensures Inv(Do(w, Manage(req, r), cal), cal)
  {
    hide Cat.After, Cat.IsRequest, Sound, UniqueKeys, AllBacked, Worker.Inv;
    var m := CountMembers(w.memberships, req.id, r);
    var t := Cat.After(w.catalog, req, m, cal);
    Cat.RequestKeeps(w.catalog, req, m, cal);
    Cat.RequestMoves(w.catalog, req, m, cal);
    assert forall c :: c in t.cohorts ==> Cat.Agrees(t, t.cohorts[c], cal);
    RequestKeepsSound(w.catalog, t, w.memberships, w.payments, req, r, w.clock);
  }

  // ---- every step, every run ----

  lemma EnrollStepKeeps(w: World, cohortId: Id, userId: Id, env: EnrollEnv, cal: Cat.Calendar)
    requires Inv(w, cal) && Enabled(w, Enrolls(cohortId, userId, env))
    ensures Inv(Do(w, Enrolls(cohortId, userId, env), cal), cal)
  {
    hide Enroll, Sound, Cat.Inv, UniqueKeys, Worker.Inv;
    EnrollKeeps(w.catalog, w.memberships, w.payments, cohortId, userId, env, w.clock);
    EnrollPayments(w.catalog, w.memberships, w.payments, cohortId, userId, env);
    BackedStays(w.worker.rows, w.payments, Enroll(w.catalog, w.memberships, w.payments, cohortId, userId, env).1);
  }

  lemma EnrollPayments(cat: Cat.State, ms: Memberships, ps: Payments, cohortId: Id, userId: Id, env: EnrollEnv)
    requires UniqueKeys(ps)
    ensures
      var qs := Enroll(cat, ms, ps, cohortId, userId, env).1;
      ps.Keys <= qs.Keys &&
      forall p :: p in ps ==> qs[p].membershipId == ps[p].membershipId && (PaidFor(ps[p]) ==> PaidFor(qs[p]))
  {
    hide CreateCheckout, AfterExpiry, UniqueKeys;
    if cohortId in cat.cohorts && cat.cohorts[cohortId].expertId != userId {
      var current := AfterExpiry(ms, cohortId, userId, env.readings);
      var plan := PlanEnrollment(cat, current, cohortId, userId, env);
      if plan.Ok? && plan.value != JoinFree {
        var id := if plan.value.Resume? then plan.value.membershipId else env.membershipId;
        CheckoutsHappen(ps, CheckoutFor(cat.cohorts[cohortId], cohortId, userId, id), env.paymentId, env.stripe);
      }
    }
  }

  lemma DeliverStepKeeps(w: World, i: nat, r: Readings, cal: Cat.Calendar)
    requires Inv(w, cal) && Enabled(w, Deliver(i, r))
    ensures Inv(Do(w, Deliver(i, r), cal), cal)
  {
    hide HandleMessage, Sound, Cat.Inv, UniqueKeys, Worker.Inv, Backed;
    assert Backed(w.worker.rows[i], w.payments);
    DeliveryKeeps(w.catalog, w.memberships, w.payments, w.worker.rows[i], r, w.clock);
  }

  lemma StepKeeps(w: World, e: Event, cal: Cat.Calendar)
    requires Inv(w, cal) && Cat.IsCalendar(cal) && Enabled(w, e)
    ensures Inv(Do(w, e, cal), cal)
  {
    match e
    case Manage(req, r) => ManageKeeps(w, req, r, cal);
    case Enrolls(cohortId, userId, env) => EnrollStepKeeps(w, cohortId, userId, env, cal);
    case Webhook(ev) => WebhookKeeps(w, ev, cal);
    case Work(step) => WorkKeeps(w, step, cal);
    case Deliver(i, r) => DeliverStepKeeps(w, i, r, cal);
    case Wait(until) => AgingKeeps(w.catalog.cohorts, w.memberships, w.memberships, w.payments, w.clock, until);
  }

  lemma {:induction false} RunKeeps(w: World, es: seq<Event>, cal: Cat.Calendar)
    requires Inv(w, cal) && Cat.IsCalendar(cal) && Runs(w, es, cal)
    ensures Inv(Run(w, es, cal), cal)
    decreases |es|
  {
    if es != [] {
      StepKeeps(w, es[0], cal);
      RunKeeps(Do(w, es[0], cal), es[1..], cal);
    }
  }

  lemma EmptyOk(cal: Cat.Calendar)
    ensures Inv(EMPTY, cal)
  {
  }
}
