/** Deliveries over runs: what repeating a message does, however much happens in between, when the order
    of two messages matters, that each outcome has one message, and when two live memberships of one
    workshop stand side by side. */
module SagaDelivery {
  import opened Prelude
  import opened Memberships
  import opened Payments
  import opened Saga
  import opened SagaSafety
  import opened SagaTheorems
  import Cat = Catalog
  import Worker = OutboxWorker

  // ---- messages and the records that they are about ----

  /** A row keeps its message for good. */
  lemma {:induction false} MessageStays(w: World, es: seq<Event>, cal: Cat.Calendar, k: nat)
    requires Runs(w, es, cal) && k < |w.worker.rows|
    ensures
      var rows := Run(w, es, cal).worker.rows;
      && k < |rows| && rows[k].eventName == w.worker.rows[k].eventName && rows[k].payload == w.worker.rows[k].payload
    decreases |es|
  {
    if es != [] {
      MessageStaysStep(w, es[0], cal, k);
      MessageStays(Do(w, es[0], cal), es[1..], cal, k);
    }
  }

  lemma MessageStaysStep(w: World, e: Event, cal: Cat.Calendar, k: nat)
    requires Enabled(w, e) && k < |w.worker.rows|
    ensures
      var rows := Do(w, e, cal).worker.rows;
      && k < |rows| && rows[k].eventName == w.worker.rows[k].eventName && rows[k].payload == w.worker.rows[k].payload
  {
    hide Cat.After, AfterWebhook, Enroll, HandleMessage;
  }

  /** A message that is about an existing membership and its payment. */
  predicate Tells(cat: Cat.State, ms: Memberships, row: Worker.Row) {
    && row.payload.PaymentOutcome? && PaymentEventOf(row.eventName).Some?
    && row.payload.membershipId in ms && ms[row.payload.membershipId].cohortId in cat.cohorts
    && ms[row.payload.membershipId].paymentId == Some(row.payload.paymentId)
  }

  lemma RowTells(w: World, cal: Cat.Calendar, k: nat)
    requires Inv(w, cal) && k < |w.worker.rows|
    ensures w.worker.rows[k].payload.PaymentOutcome? && PaymentEventOf(w.worker.rows[k].eventName).Some?
    ensures w.worker.rows[k].payload.membershipId in w.memberships ==>
              Tells(w.catalog, w.memberships, w.worker.rows[k])
    ensures exists p :: p in w.payments && w.payments[p].membershipId == w.worker.rows[k].payload.membershipId
  {
    hide Cat.Inv, Worker.Inv, UniqueKeys, TermsAgree, OneEngagement, ActiveArePaid;
    assert Backed(w.worker.rows[k], w.payments);
  }

  lemma HandledRow(cat: Cat.State, ms: Memberships, row: Worker.Row, r: Readings)
    requires Tells(cat, ms, row)
    ensures
      var id, p, at := row.payload.membershipId, row.payload.paymentId, row.payload.occurredAt;
      var handled := OnEvent(ms[id], PaymentEventOf(row.eventName).value, p, at, CheckNow(cat, ms, ms[id], r));
      && HandleMessage(cat, ms, row, r) == ms[id := handled]
      && handled.cohortId == ms[id].cohortId && handled.paymentId == ms[id].paymentId
      && handled.status != PendingPayment
  {
    hide CheckNow, ReservationExpired;
  }

  // ---- one delivery, over all statuses ----

  /** What a delivered message does, in every reachable world and for every status of its membership: the
      record becomes what Handled says, a success activating exactly before the reservation expires and
      before the first session starts; no other membership, no payment and nothing else changes. */
  lemma DeliveryTable(es: seq<Event>, cal: Cat.Calendar, k: nat, r: Readings)
    requires Cat.IsCalendar(cal) && Runs(EMPTY, es, cal) && Enabled(Run(EMPTY, es, cal), Deliver(k, r))
    ensures
      var w, v := Run(EMPTY, es, cal), Do(Run(EMPTY, es, cal), Deliver(k, r), cal);
      var row := w.worker.rows[k];
      && row.payload.PaymentOutcome? && PaymentEventOf(row.eventName).Some?
      && v == w.(memberships := v.memberships, clock := r.end)
      && var i := row.payload.membershipId;
      && (i !in w.memberships ==> v.memberships == w.memberships)
      && (i in w.memberships ==>
            && i in v.memberships && v.memberships == w.memberships[i := v.memberships[i]]
            && var m := w.memberships[i];
            && m.cohortId in w.catalog.cohorts && (m.status == PendingPayment ==> m.expiresAt.Some?)
            && Handled(m, v.memberships[i], PaymentEventOf(row.eventName).value, row.payload.occurredAt,
                       m.status == PendingPayment && r.stamp < m.expiresAt.value
                       && r.status < w.catalog.cohorts[m.cohortId].window.first))
  {
    hide Cat.Inv, Worker.Inv, UniqueKeys, TermsAgree, OneEngagement, ActiveArePaid, HandleMessage, OnEvent;
    ReachableOk(es, cal);
    var w := Run(EMPTY, es, cal);
    RowTells(w, cal, k);
    var row := w.worker.rows[k];
    if row.payload.membershipId in w.memberships {
      var m := w.memberships[row.payload.membershipId];
      HandledRow(w.catalog, w.memberships, row, r);
      NeverOverCapacity(w.catalog.cohorts, w.memberships, w.clock, m.cohortId, r);
      EventHandled(m, PaymentEventOf(row.eventName).value, row.payload.paymentId, row.payload.occurredAt,
                   CheckNow(w.catalog, w.memberships, m, r));
      HandledMeans(m, OnEvent(m, PaymentEventOf(row.eventName).value, row.payload.paymentId, row.payload.occurredAt,
                              CheckNow(w.catalog, w.memberships, m, r)),
                   PaymentEventOf(row.eventName).value, row.payload.occurredAt,
                   r.stamp < (if m.expiresAt.Some? then m.expiresAt.value else r.stamp + 1)
                   && r.status < w.catalog.cohorts[m.cohortId].window.first);
    } else {
      UnknownMembership(w, k, r, cal);
    }
  }

  lemma UnknownMembership(w: World, k: nat, r: Readings, cal: Cat.Calendar)
    requires Enabled(w, Deliver(k, r)) && w.worker.rows[k].payload.PaymentOutcome?
    requires w.worker.rows[k].payload.membershipId !in w.memberships
    ensures Do(w, Deliver(k, r), cal).memberships == w.memberships
  {
  }

  /** Whether a success activates matters to pending memberships alone. */
  lemma HandledMeans(m: Membership, n: Membership, o: PaymentEvent, at: int, activates: bool)
    requires Handled(m, n, o, at, activates)
    ensures Handled(m, n, o, at, m.status == PendingPayment && activates)
  {
  }

  // ---- what leaves a record alone ----

  ghost function RecordOf(w: World, i: Id): Option<Membership> {
    if i in w.memberships then Some(w.memberships[i]) else None
  }

  /** The event delivers a message about membership i. */
  predicate DeliversTo(w: World, e: Event, i: Id) {
    && e.Deliver? && e.message < |w.worker.rows| && w.worker.rows[e.message].payload.PaymentOutcome?
    && w.worker.rows[e.message].payload.membershipId == i
  }

  /** No event of the run delivers a message about membership i. */
  ghost predicate Quiet(w: World, es: seq<Event>, cal: Cat.Calendar, i: Id)
    requires Runs(w, es, cal)
    decreases |es|
  {
    es == [] || (!DeliversTo(w, es[0], i) && Quiet(Do(w, es[0], cal), es[1..], cal, i))
  }

  /** The membership is no longer pending; or it does not exist and its id is taken by a payment. */
  ghost predicate Settled(w: World, i: Id) {
    if i in w.memberships then w.memberships[i].status != PendingPayment
    else exists p :: p in w.payments && w.payments[p].membershipId == i
  }

  lemma PaymentIdsStay(w: World, e: Event, cal: Cat.Calendar, p: Id)
    requires Inv(w, cal) && Enabled(w, e) && p in w.payments
    ensures p in Do(w, e, cal).payments && Do(w, e, cal).payments[p].membershipId == w.payments[p].membershipId
  {
    hide Cat.After, AfterWebhook, Enroll, HandleMessage, Sound, Worker.Inv, Cat.Inv, UniqueKeys;
    if e.Webhook? {
      WebhookMoves(w.payments, e.event);
    } else if e.Enrolls? {
      EnrollPayments(w.catalog, w.memberships, w.payments, e.cohortId, e.userId, e.env);
    }
  }

  lemma ExpiryLeaves(ms: Memberships, c: Id, u: Id, r: Readings, i: Id)
    requires i in ms && ms[i].status != PendingPayment
    ensures i in AfterExpiry(ms, c, u, r) && AfterExpiry(ms, c, u, r)[i] == ms[i]
  {
  }

  lemma EnrollLeaves(w: World, c: Id, u: Id, env: EnrollEnv, cal: Cat.Calendar, i: Id)
    requires Enabled(w, Enrolls(c, u, env)) && Settled(w, i)
    ensures RecordOf(Do(w, Enrolls(c, u, env), cal), i) == RecordOf(w, i)
  {
    hide CreateCheckout, IsReadings, AfterExpiry, PlanEnrollment;
    var current := AfterExpiry(w.memberships, c, u, env.readings);
    ExpiryAges(w.memberships, c, u, env.readings);
    if i in w.memberships {
      ExpiryLeaves(w.memberships, c, u, env.readings, i);
    }
    if c in w.catalog.cohorts {
      NewIdIsFresh(w.catalog, current, c, u, env);
    }
  }

  /** A settled record stays as it is unless a message about it is delivered. */
  lemma StepLeavesRecord(w: World, e: Event, cal: Cat.Calendar, i: Id)
    requires Inv(w, cal) && Enabled(w, e) && Settled(w, i) && !DeliversTo(w, e, i)
    ensures RecordOf(Do(w, e, cal), i) == RecordOf(w, i)
  {
    hide Inv, Cat.After, AfterWebhook, Worker.Do, IsReadings, CheckNow, OnEvent;
    if e.Enrolls? {
      EnrollLeaves(w, e.cohortId, e.userId, e.env, cal, i);
    }
  }

  /** No step unsettles a record. */
  lemma StepKeepsSettled(w: World, e: Event, cal: Cat.Calendar, i: Id)
    requires Inv(w, cal) && Enabled(w, e) && Settled(w, i)
    ensures Settled(Do(w, e, cal), i) && (i in Do(w, e, cal).memberships <==> i in w.memberships)
  {
    hide Inv, Cat.After, AfterWebhook, Worker.Do, IsReadings, CheckNow, OnEvent, Enroll;
    StepMoves(w, e, cal);
    if i !in w.memberships {
      var p :| p in w.payments && w.payments[p].membershipId == i;
      PaymentIdsStay(w, e, cal, p);
      if !DeliversTo(w, e, i) {
        StepLeavesRecord(w, e, cal, i);
      }
    }
  }

  lemma {:induction false} RunKeepsSettled(w: World, es: seq<Event>, cal: Cat.Calendar, i: Id)
    requires Inv(w, cal) && Cat.IsCalendar(cal) && Runs(w, es, cal) && Settled(w, i)
    ensures Settled(Run(w, es, cal), i) && (i in Run(w, es, cal).memberships <==> i in w.memberships)
    decreases |es|
  {
    hide Inv, Do, Enabled, Settled;
    if es != [] {
      StepKeeps(w, es[0], cal);
      StepKeepsSettled(w, es[0], cal, i);
      RunKeepsSettled(Do(w, es[0], cal), es[1..], cal, i);
    }
  }

  /** Whatever else happens, a settled record stays as it is as long as no message about it is
      delivered. */
  lemma {:induction false} QuietLeavesRecord(w: World, es: seq<Event>, cal: Cat.Calendar, i: Id)
    requires Inv(w, cal) && Cat.IsCalendar(cal) && Runs(w, es, cal) && Settled(w, i) && Quiet(w, es, cal, i)
    ensures RecordOf(Run(w, es, cal), i) == RecordOf(w, i)
    decreases |es|
  {
    hide Inv, Do, Enabled, Settled, RecordOf, DeliversTo;
    if es != [] {
      StepKeeps(w, es[0], cal);
      StepKeepsSettled(w, es[0], cal, i);
      StepLeavesRecord(w, es[0], cal, i);
      QuietLeavesRecord(Do(w, es[0], cal), es[1..], cal, i);
    }
  }

  lemma DeliverySettles(w: World, k: nat, r: Readings, cal: Cat.Calendar)
    requires Inv(w, cal) && Enabled(w, Deliver(k, r))
    ensures w.worker.rows[k].payload.PaymentOutcome?
    ensures Settled(Do(w, Deliver(k, r), cal), w.worker.rows[k].payload.membershipId)
  {
    hide Inv, IsReadings, CheckNow, OnEvent;
    RowTells(w, cal, k);
    var row := w.worker.rows[k];
    if row.payload.membershipId in w.memberships {
      HandledRow(w.catalog, w.memberships, row, r);
    }
  }

  // ---- repeated messages ----

  /** The statuses in which a repeated message leaves a membership. */
  predicate Absorbs(status: MembershipStatus, o: PaymentEvent) {
    match o
    case PaymentSucceeded => status == Active || status == AwaitingReconciliation
    case PaymentWasFailed => status == PaymentFailed
    case PaymentRefunded => status == Refunded || status == AwaitingReconciliation
  }

  /** A message about a settled membership: when it leaves the status, and when the whole record. */
  lemma RepeatedEvent(m: Membership, o: PaymentEvent, p: Id, at: int, check: Check)
    requires m.paymentId == Some(p) && m.status != PendingPayment
    ensures
      var n := OnEvent(m, o, p, at, check);
      && (n.status == m.status <==> Absorbs(m.status, o))
      && (n == m <==> Absorbs(m.status, o) && (m.status == AwaitingReconciliation ==> m.lastPaymentEventAt == Some(at)))
      && (n.status == Active ==> m.status == Active)
  {
  }

  /** A delivery and, any time after it, the same message again: w is the world of the first delivery,
      v that of the second one. */
  ghost predicate Repeats(w: World, k: nat, first: Readings, mid: seq<Event>, second: Readings, cal: Cat.Calendar) {
    && Enabled(w, Deliver(k, first)) && Runs(Do(w, Deliver(k, first), cal), mid, cal)
    && Enabled(Run(Do(w, Deliver(k, first), cal), mid, cal), Deliver(k, second))
  }

  ghost function Between(w: World, k: nat, first: Readings, mid: seq<Event>, second: Readings, cal: Cat.Calendar): World
    requires Repeats(w, k, first, mid, second, cal)
  {
    Run(Do(w, Deliver(k, first), cal), mid, cal)
  }

  lemma RepetitionFrame(w: World, k: nat, first: Readings, mid: seq<Event>, second: Readings, cal: Cat.Calendar)
    requires Inv(w, cal) && Cat.IsCalendar(cal) && Repeats(w, k, first, mid, second, cal)
    ensures
      var v, row := Between(w, k, first, mid, second, cal), w.worker.rows[k];
      && Inv(v, cal) && k < |v.worker.rows| && row.payload.PaymentOutcome?
      && v.worker.rows[k].eventName == row.eventName && v.worker.rows[k].payload == row.payload
      && Settled(v, row.payload.membershipId)
      && (row.payload.membershipId in v.memberships <==> row.payload.membershipId in w.memberships)
  {
    hide Inv, Settled, Do, Enabled;
    var once := Do(w, Deliver(k, first), cal);
    StepKeeps(w, Deliver(k, first), cal);
    RunKeeps(once, mid, cal);
    SameKeys(w, k, first, cal);
    DeliverySettles(w, k, first, cal);
    RunKeepsSettled(once, mid, cal, w.worker.rows[k].payload.membershipId);
    MessageStays(once, mid, cal, k);
  }

  lemma SameKeys(w: World, k: nat, r: Readings, cal: Cat.Calendar)
    requires Enabled(w, Deliver(k, r))
    ensures k < |w.worker.rows|
    ensures Do(w, Deliver(k, r), cal).memberships.Keys == w.memberships.Keys
    ensures Do(w, Deliver(k, r), cal).worker == w.worker
  {
    hide OnEvent, CheckNow, IsReadings;
  }

  /** Any repetition of a message, with anything at all in between, other messages of the membership
      included: it changes no other membership; the status stays if and only if it absorbs the
      message, and the record if and only if, on top of that, a membership in reconciliation was put
      there by an event of that very time.  A repeated success never activates. */
  lemma RepetitionIff(es: seq<Event>, cal: Cat.Calendar, k: nat, first: Readings, mid: seq<Event>, second: Readings)
    requires Cat.IsCalendar(cal) && Runs(EMPTY, es, cal) && Repeats(Run(EMPTY, es, cal), k, first, mid, second, cal)
    requires
      var w := Run(EMPTY, es, cal);
      w.worker.rows[k].payload.PaymentOutcome? && w.worker.rows[k].payload.membershipId in w.memberships
    ensures
      var w := Run(EMPTY, es, cal);
      var v, row := Between(w, k, first, mid, second, cal), w.worker.rows[k];
      var after, i := Do(v, Deliver(k, second), cal).memberships, row.payload.membershipId;
      && i in v.memberships && i in after && after == v.memberships[i := after[i]]
      && PaymentEventOf(row.eventName).Some?
      && var m, o := v.memberships[i], PaymentEventOf(row.eventName).value;
      && (after[i].status == m.status <==> Absorbs(m.status, o))
      && (after[i] == m <==>
            Absorbs(m.status, o) &&
            (m.status == AwaitingReconciliation ==> m.lastPaymentEventAt == Some(row.payload.occurredAt)))
      && (after[i].status == Active ==> m.status == Active)
  {
    hide Inv, CheckNow, OnEvent, HandleMessage, IsReadings, Absorbs;
    ReachableOk(es, cal);
    var w := Run(EMPTY, es, cal);
    RepetitionFrame(w, k, first, mid, second, cal);
    var v := Between(w, k, first, mid, second, cal);
    RowTells(v, cal, k);
    var row := v.worker.rows[k];
    var m := v.memberships[row.payload.membershipId];
    HandledRow(v.catalog, v.memberships, row, second);
    RepeatedEvent(m, PaymentEventOf(row.eventName).value, row.payload.paymentId, row.payload.occurredAt,
                  CheckNow(v.catalog, v.memberships, m, second));
  }

  /** Redelivery: in every reachable world, delivering a message a second time, at any later moment and
      after any steps that deliver no message about its membership, changes nothing if and only if the
      message is not a payment.failed that met an active membership. */
  lemma RedeliveryIsIdempotent(es: seq<Event>, cal: Cat.Calendar, k: nat, first: Readings, mid: seq<Event>,
                               second: Readings)
    requires Cat.IsCalendar(cal) && Runs(EMPTY, es, cal) && Repeats(Run(EMPTY, es, cal), k, first, mid, second, cal)
    requires
      var w := Run(EMPTY, es, cal);
      w.worker.rows[k].payload.PaymentOutcome? ==>
        Quiet(Do(w, Deliver(k, first), cal), mid, cal, w.worker.rows[k].payload.membershipId)
    ensures
      var w := Run(EMPTY, es, cal);
      var once, v, row := Do(w, Deliver(k, first), cal), Between(w, k, first, mid, second, cal), w.worker.rows[k];
      && row.payload.PaymentOutcome?
      && RecordOf(v, row.payload.membershipId) == RecordOf(once, row.payload.membershipId)
      && (Do(v, Deliver(k, second), cal).memberships == v.memberships <==>
            !(row.eventName == "payment.failed" && row.payload.membershipId in w.memberships
              && w.memberships[row.payload.membershipId].status == Active))
  {
    hide Inv, CheckNow, OnEvent, HandleMessage, IsReadings, Settled;
    ReachableOk(es, cal);
    var w := Run(EMPTY, es, cal);
    var once, v, row := Do(w, Deliver(k, first), cal), Between(w, k, first, mid, second, cal), w.worker.rows[k];
    RepetitionFrame(w, k, first, mid, second, cal);
    var i := row.payload.membershipId;
    DeliverySettles(w, k, first, cal);
    StepKeeps(w, Deliver(k, first), cal);
    QuietLeavesRecord(once, mid, cal, i);
    SecondDelivery(w, once, v, k, first, second, cal);
  }

  lemma SecondDelivery(w: World, once: World, v: World, k: nat, first: Readings, second: Readings, cal: Cat.Calendar)
    requires Inv(w, cal) && Inv(v, cal) && Enabled(w, Deliver(k, first)) && Enabled(v, Deliver(k, second))
    requires once == Do(w, Deliver(k, first), cal)
    requires v.worker.rows[k].eventName == w.worker.rows[k].eventName
    requires v.worker.rows[k].payload == w.worker.rows[k].payload
    requires RecordOf(v, w.worker.rows[k].payload.membershipId) == RecordOf(once, w.worker.rows[k].payload.membershipId)
    ensures
      var row := w.worker.rows[k];
      Do(v, Deliver(k, second), cal).memberships == v.memberships <==>
        !(row.eventName == "payment.failed" && row.payload.membershipId in w.memberships
          && w.memberships[row.payload.membershipId].status == Active)
  {
    hide Inv, CheckNow, OnEvent, IsReadings;
    RowTells(w, cal, k);
    RowTells(v, cal, k);
    SameKeys(w, k, first, cal);
    var row := w.worker.rows[k];
    var i := row.payload.membershipId;
    if i in w.memberships {
      var m, o := w.memberships[i], PaymentEventOf(row.eventName).value;
      HandledRow(w.catalog, w.memberships, row, first);
      HandledRow(v.catalog, v.memberships, v.worker.rows[k], second);
      hide HandleMessage;
      RedeliveryIsIdempotentIff(m, o, row.payload.paymentId, row.payload.occurredAt,
                                CheckNow(w.catalog, w.memberships, m, first),
                                CheckNow(v.catalog, v.memberships, v.memberships[i], second));
      var after := Do(v, Deliver(k, second), cal).memberships;
      assert after == v.memberships <==> after[i] == v.memberships[i];
    }
  }

  // ---- the order of two messages ----

  /** Order of delivery: in every reachable world, delivering two different messages of one membership,
      one directly after the other, leaves it in the same status in both orders exactly in the cases of
      OrderIrrelevant; so a late payment.failed undoes the reconciliation of a payment that has
      succeeded. */
  lemma DeliveryOrderMattersIff(es: seq<Event>, cal: Cat.Calendar, j: nat, k: nat, r: Readings, q: Readings)
    requires Cat.IsCalendar(cal) && Runs(EMPTY, es, cal)
    requires
      var w := Run(EMPTY, es, cal);
      && Enabled(w, Deliver(j, r)) && Enabled(Do(w, Deliver(j, r), cal), Deliver(k, q))
      && Enabled(w, Deliver(k, r)) && Enabled(Do(w, Deliver(k, r), cal), Deliver(j, q))
      && w.worker.rows[j].payload.PaymentOutcome? && w.worker.rows[k].payload.PaymentOutcome?
      && w.worker.rows[j].payload.membershipId == w.worker.rows[k].payload.membershipId
      && w.worker.rows[j].payload.membershipId in w.memberships
      && w.worker.rows[j].eventName != w.worker.rows[k].eventName
    ensures
      var w := Run(EMPTY, es, cal);
      var i := w.worker.rows[j].payload.membershipId;
      var m := w.memberships[i];
      var jThenK := Do(Do(w, Deliver(j, r), cal), Deliver(k, q), cal).memberships;
      var kThenJ := Do(Do(w, Deliver(k, r), cal), Deliver(j, q), cal).memberships;
      && i in jThenK && i in kThenJ
      && PaymentEventOf(w.worker.rows[j].eventName).Some? && PaymentEventOf(w.worker.rows[k].eventName).Some?
      && (jThenK[i].status == kThenJ[i].status <==>
            OrderIrrelevant(m, PaymentEventOf(w.worker.rows[j].eventName).value,
                            PaymentEventOf(w.worker.rows[k].eventName).value,
                            CheckNow(w.catalog, w.memberships, m, r)))
  {
    hide Cat.Inv, Worker.Inv, UniqueKeys, TermsAgree, OneEngagement, ActiveArePaid, HandleMessage, CheckNow;
    ReachableOk(es, cal);
    var w := Run(EMPTY, es, cal);
    assert Backed(w.worker.rows[j], w.payments) && Backed(w.worker.rows[k], w.payments);
    var i := w.worker.rows[j].payload.membershipId;
    assert w.memberships[i].paymentId == Some(w.worker.rows[j].payload.paymentId);
    BothOrders(w.catalog, w.memberships, w.worker.rows[j], w.worker.rows[k], r, q);
  }

  lemma BothOrders(cat: Cat.State, ms: Memberships, a: Worker.Row, b: Worker.Row, r: Readings, q: Readings)
    requires Tells(cat, ms, a) && Tells(cat, ms, b) && a.payload.membershipId == b.payload.membershipId
    requires a.eventName != b.eventName
    ensures
      var id := a.payload.membershipId;
      var aThenB := HandleMessage(cat, HandleMessage(cat, ms, a, r), b, q);
      var bThenA := HandleMessage(cat, HandleMessage(cat, ms, b, r), a, q);
      && id in aThenB && id in bThenA
      && (aThenB[id].status == bThenA[id].status <==>
            OrderIrrelevant(ms[id], PaymentEventOf(a.eventName).value, PaymentEventOf(b.eventName).value,
                            CheckNow(cat, ms, ms[id], r)))
  {
    hide CheckNow, OnEvent, HandleMessage, OrderIrrelevant;
    var id := a.payload.membershipId;
    HandledRow(cat, ms, a, r);
    HandledRow(cat, ms, b, r);
    var afterA, afterB := HandleMessage(cat, ms, a, r), HandleMessage(cat, ms, b, r);
    HandledRow(cat, afterA, b, q);
    HandledRow(cat, afterB, a, q);
    OrderMattersIff(ms[id], PaymentEventOf(a.eventName).value, PaymentEventOf(b.eventName).value, a.payload.paymentId,
                    a.payload.occurredAt, b.payload.occurredAt, CheckNow(cat, ms, ms[id], r),
                    CheckNow(cat, afterA, afterA[id], q), CheckNow(cat, afterB, afterB[id], q));
  }

  // ---- one message per outcome ----

  function NameRank(name: string): nat {
    if name == "payment.failed" then 1
    else if name == "payment.succeeded" then 2
    else if name == "payment.refunded" then 3
    else 0
  }

  /** No message announces more than its payment has reached, and the messages of one payment announce
      more and more. */
  ghost predicate Ascending(rows: seq<Worker.Row>, ps: Payments) {
    && (forall k :: 0 <= k < |rows| ==>
          && rows[k].payload.PaymentOutcome? && rows[k].payload.paymentId in ps
          && NameRank(rows[k].eventName) <= Rank(ps[rows[k].payload.paymentId].status))
    && (forall j, k :: 0 <= j < k < |rows| && rows[j].payload.paymentId == rows[k].payload.paymentId ==>
          NameRank(rows[j].eventName) < NameRank(rows[k].eventName))
  }

  lemma AscendingStays(rows: seq<Worker.Row>, ps: Payments, qs: Payments)
    requires Ascending(rows, ps)
    requires forall p :: p in ps ==> p in qs && Rank(ps[p].status) <= Rank(qs[p].status)
    ensures Ascending(rows, qs)
  {
  }

  lemma WebhookAscends(rows: seq<Worker.Row>, ps: Payments, ev: StripeEvent)
    requires Ascending(rows, ps) && UniqueKeys(ps)
    ensures Ascending(rows + AfterWebhook(ps, ev).1, AfterWebhook(ps, ev).0)
  {
    hide AfterWebhook, UniqueKeys;
    WebhookMoves(ps, ev);
    var (qs, more) := AfterWebhook(ps, ev);
    AscendingStays(rows, ps, qs);
    if more == [] {
      assert rows + more == rows;
    } else {
      var p, at :| ReportsMove(ps, qs, more, p, at);
      assert NameRank(EventNameOf(qs[p].status)) == Rank(qs[p].status);
    }
  }

  lemma EnrollAscends(cat: Cat.State, ms: Memberships, ps: Payments, c: Id, u: Id, env: EnrollEnv, p: Id)
    requires UniqueKeys(ps) && p in ps
    ensures
      var qs := Enroll(cat, ms, ps, c, u, env).1;
      p in qs && Rank(ps[p].status) <= Rank(qs[p].status)
  {
    hide CreateCheckout, AfterExpiry, UniqueKeys, PlanEnrollment;
    if c in cat.cohorts && cat.cohorts[c].expertId != u {
      var plan := PlanEnrollment(cat, AfterExpiry(ms, c, u, env.readings), c, u, env);
      if plan.Ok? && plan.value != JoinFree {
        var id := if plan.value.Resume? then plan.value.membershipId else env.membershipId;
        CheckoutsHappen(ps, CheckoutFor(cat.cohorts[c], c, u, id), env.paymentId, env.stripe);
      }
    }
  }

  lemma StepAscends(w: World, e: Event, cal: Cat.Calendar)
    requires Inv(w, cal) && Enabled(w, e) && Ascending(w.worker.rows, w.payments)
    ensures Ascending(Do(w, e, cal).worker.rows, Do(w, e, cal).payments)
  {
    hide Cat.After, AfterWebhook, Enroll, HandleMessage, Ascending, Cat.Inv, Worker.Inv, Sound, UniqueKeys, AllBacked;
    match e
    case Webhook(ev) => WebhookAscends(w.worker.rows, w.payments, ev);
    case Enrolls(c, u, env) =>
      var qs := Enroll(w.catalog, w.memberships, w.payments, c, u, env).1;
      forall p | p in w.payments
        ensures p in qs && Rank(w.payments[p].status) <= Rank(qs[p].status)
      {
        EnrollAscends(w.catalog, w.memberships, w.payments, c, u, env, p);
      }
      AscendingStays(w.worker.rows, w.payments, qs);
    case Work(step) => WorkAscends(w, step);
    case _ =>
  }

  lemma WorkAscends(w: World, step: Worker.Step)
    requires Enabled(w, Work(step)) && Ascending(w.worker.rows, w.payments)
    ensures Ascending(Worker.Do(PAYMENT_SCHEMAS, w.worker, step).rows, w.payments)
  {
    var rows := Worker.Do(PAYMENT_SCHEMAS, w.worker, step).rows;
    assert |rows| == |w.worker.rows|;
    forall k | 0 <= k < |rows|
      ensures rows[k].eventName == w.worker.rows[k].eventName && rows[k].payload == w.worker.rows[k].payload
    {
      assert rows[k] == w.worker.rows[k].(status := rows[k].status);
    }
  }

  lemma {:induction false} RunAscends(w: World, es: seq<Event>, cal: Cat.Calendar)
    requires Inv(w, cal) && Cat.IsCalendar(cal) && Runs(w, es, cal) && Ascending(w.worker.rows, w.payments)
    ensures Ascending(Run(w, es, cal).worker.rows, Run(w, es, cal).payments)
    decreases |es|
  {
    hide Inv, Do, Enabled, Ascending;
    if es != [] {
      StepKeeps(w, es[0], cal);
      StepAscends(w, es[0], cal);
      RunAscends(Do(w, es[0], cal), es[1..], cal);
    }
  }

  /** One message per outcome: after every run the outbox rows of one payment come in the order failed,
      succeeded, refunded, each at most once, and none runs ahead of the payment's status; so a message
      repeats only by being delivered again. */
  lemma OneMessagePerOutcome(es: seq<Event>, cal: Cat.Calendar)
    requires Cat.IsCalendar(cal) && Runs(EMPTY, es, cal)
    ensures
      var w := Run(EMPTY, es, cal);
      && Ascending(w.worker.rows, w.payments)
      && forall j, k :: 0 <= j < k < |w.worker.rows| && w.worker.rows[j].payload == w.worker.rows[k].payload ==>
           w.worker.rows[j].eventName != w.worker.rows[k].eventName
  {
    hide Inv, Runs, Run;
    EmptyOk(cal);
    RunAscends(EMPTY, es, cal);
  }

  // ---- live memberships side by side ----

  /** Two different memberships of one user in one workshop, w holding the workshop's cohorts. */
  ghost predicate Twins(w: World, ms: Memberships, i: Id, j: Id) {
    && i in ms && j in ms && i != j && ms[i].userId == ms[j].userId
    && ms[i].cohortId in w.catalog.cohorts && ms[j].cohortId in w.catalog.cohorts
    && w.catalog.cohorts[ms[i].cohortId].workshopId == w.catalog.cohorts[ms[j].cohortId].workshopId
  }

  ghost predicate LiveIn(w: World, i: Id) {
    i in w.memberships && IsLive(w.memberships[i])
  }

  /** The event delivers to membership i, which is not live, a success, or a refund that it has not had. */
  predicate Revives(w: World, e: Event, i: Id) {
    && DeliversTo(w, e, i) && i in w.memberships && !IsLive(w.memberships[i])
    && var name := w.worker.rows[e.message].eventName;
    (name == "payment.succeeded" || (name == "payment.refunded" && w.memberships[i].status != Refunded))
  }

  lemma DeliveryRevives(w: World, e: Event, cal: Cat.Calendar, i: Id)
    requires Inv(w, cal) && Enabled(w, e) && e.Deliver? && i in w.memberships && !IsLive(w.memberships[i])
    ensures LiveIn(Do(w, e, cal), i) <==> Revives(w, e, i)
  {
    hide Inv, IsReadings, CheckNow;
    RowTells(w, cal, e.message);
    var row := w.worker.rows[e.message];
    if row.payload.membershipId in w.memberships {
      HandledRow(w.catalog, w.memberships, row, e.readings);
    }
  }

  lemma DeliveryLeavesOthers(w: World, e: Event, cal: Cat.Calendar, i: Id)
    requires Enabled(w, e) && e.Deliver? && !DeliversTo(w, e, i)
    ensures RecordOf(Do(w, e, cal), i) == RecordOf(w, i)
  {
    hide IsReadings, CheckNow, OnEvent;
  }

  /** What an enrollment does to the memberships: at most one comes new, with a plan that found its user
      free; the others are as before, or as the expiry left them. */
  lemma EnrollAdds(cat: Cat.State, ms: Memberships, ps: Payments, c: Id, u: Id, env: EnrollEnv)
    ensures
      var ns, current := Enroll(cat, ms, ps, c, u, env).0, AfterExpiry(ms, c, u, env.readings);
      || ns == ms
      || ns == current
      || (&& c in cat.cohorts
          && var plan := PlanEnrollment(cat, current, c, u, env);
          && plan.Ok? && !plan.value.Resume? && env.membershipId in ns
          && ns == current[env.membershipId := ns[env.membershipId]]
          && ns[env.membershipId].userId == u && ns[env.membershipId].cohortId == c)
  {
    hide CreateCheckout, AfterExpiry, PlanEnrollment;
  }

  /** An enrollment creates no live membership beside another one, and makes none live. */
  lemma EnrollMakesNoTwin(w: World, c: Id, u: Id, env: EnrollEnv, cal: Cat.Calendar, i: Id, j: Id)
    requires Enabled(w, Enrolls(c, u, env)) && Twins(w, Do(w, Enrolls(c, u, env), cal).memberships, i, j)
    requires LiveIn(Do(w, Enrolls(c, u, env), cal), i) && LiveIn(Do(w, Enrolls(c, u, env), cal), j)
    ensures LiveIn(w, i) && LiveIn(w, j)
  {
    hide Enroll, IsReadings, AfterExpiry, PlanEnrollment, IsLive;
    var ns := Do(w, Enrolls(c, u, env), cal).memberships;
    var current := AfterExpiry(w.memberships, c, u, env.readings);
    EnrollAdds(w.catalog, w.memberships, w.payments, c, u, env);
    AgedLive(w.memberships, c, u, env.readings, i);
    AgedLive(w.memberships, c, u, env.readings, j);
    if ns != w.memberships && ns != current {
      if i == env.membershipId {
        NewIsAlone(w.catalog, current, c, u, env, j);
      } else if j == env.membershipId {
        NewIsAlone(w.catalog, current, c, u, env, i);
      }
    }
  }

  lemma AgedLive(ms: Memberships, c: Id, u: Id, r: Readings, i: Id)
    ensures i in AfterExpiry(ms, c, u, r) <==> i in ms
    ensures i in ms && IsLive(AfterExpiry(ms, c, u, r)[i]) ==> IsLive(ms[i])
  {
  }

  lemma NewIsAlone(cat: Cat.State, ms: Memberships, c: Id, u: Id, env: EnrollEnv, i: Id)
    requires c in cat.cohorts && i in ms && ms[i].userId == u && IsLive(ms[i]) && ms[i].cohortId in cat.cohorts
    requires cat.cohorts[ms[i].cohortId].workshopId == cat.cohorts[c].workshopId
    ensures var plan := PlanEnrollment(cat, ms, c, u, env); plan.Err? || plan.value.Resume?
  {
    assert ms[i].cohortId == c ==> i in LiveHere(ms, c, u);
  }

  /** When two live memberships of one user in one workshop come to stand side by side: exactly when one
      is live already and the step delivers to the other, which is not, a success or a first refund.
      An enrollment never does it, nor does anything else. */
  lemma TwinsBecomeLiveIff(w: World, e: Event, cal: Cat.Calendar, i: Id, j: Id)
    requires Inv(w, cal) && Enabled(w, e) && Twins(w, Do(w, e, cal).memberships, i, j)
    requires !(LiveIn(w, i) && LiveIn(w, j))
    ensures
      LiveIn(Do(w, e, cal), i) && LiveIn(Do(w, e, cal), j) <==>
        (Revives(w, e, i) && LiveIn(w, j)) || (Revives(w, e, j) && LiveIn(w, i))
  {
    hide Inv, Cat.After, AfterWebhook, Worker.Do, Enroll, HandleMessage, IsReadings, IsLive;
    if e.Enrolls? {
      if LiveIn(Do(w, e, cal), i) && LiveIn(Do(w, e, cal), j) {
        EnrollMakesNoTwin(w, e.cohortId, e.userId, e.env, cal, i, j);
      }
    } else if e.Deliver? {
      DeliveryOnTwin(w, e, cal, i);
      DeliveryOnTwin(w, e, cal, j);
    }
  }

  lemma DeliveryOnTwin(w: World, e: Event, cal: Cat.Calendar, i: Id)
    requires Inv(w, cal) && Enabled(w, e) && e.Deliver? && i in Do(w, e, cal).memberships
    ensures i in w.memberships
    ensures !IsLive(w.memberships[i]) ==> (LiveIn(Do(w, e, cal), i) <==> Revives(w, e, i))
    ensures !DeliversTo(w, e, i) ==> Do(w, e, cal).memberships[i] == w.memberships[i]
  {
    hide Inv, IsReadings, HandleMessage, IsLive;
    SameKeys(w, e.message, e.readings, cal);
    if !IsLive(w.memberships[i]) {
      DeliveryRevives(w, e, cal, i);
    }
    if !DeliversTo(w, e, i) {
      DeliveryLeavesOthers(w, e, cal, i);
    }
  }

  /** Two live memberships of one user in one workshop: after every run at least one of them is in
      reconciliation. */
  lemma LiveTwinsReconcile(es: seq<Event>, cal: Cat.Calendar, i: Id, j: Id)
    requires Cat.IsCalendar(cal) && Runs(EMPTY, es, cal)
    requires
      var w := Run(EMPTY, es, cal);
      Twins(w, w.memberships, i, j) && LiveIn(w, i) && LiveIn(w, j)
    ensures
      var ms := Run(EMPTY, es, cal).memberships;
      ms[i].status == AwaitingReconciliation || ms[j].status == AwaitingReconciliation
  {
    var ms := Run(EMPTY, es, cal).memberships;
    if Engaged(ms[i]) && Engaged(ms[j]) {
      OneMembershipPerWorkshop(es, cal, i, j);
    }
  }
}
