/** Where the messages come from: every outbox row goes back to a webhook of the run, and with it the time
    at which a member has joined. */
module SagaOrigins {
  import opened Prelude
  import opened Memberships
  import opened Payments
  import opened WebhookConvergence
  import opened Saga
  import opened SagaSafety
  import opened SagaTheorems
  import Cat = Catalog
  import Worker = OutboxWorker

  /** The webhooks of a run. */
  function Heard(es: seq<Event>): set<StripeEvent> {
    if es == [] then {} else (if es[0].Webhook? then {es[0].event} else {}) + Heard(es[1..])
  }

  lemma {:induction false} HeardInRun(es: seq<Event>, ev: StripeEvent)
    requires ev in Heard(es)
    ensures Webhook(ev) in es
  {
    if !(es[0].Webhook? && es[0].event == ev) {
      HeardInRun(es[1..], ev);
    }
  }

  /** The event reports what the row announces, about the payment of the row, and the row tells its time. */
  ghost predicate ComesFrom(row: Worker.Row, ps: Payments, ev: StripeEvent) {
    && row.payload.PaymentOutcome? && row.payload.paymentId in ps
    && Reported(ev).Some? && EventNameOf(Reported(ev).value) == row.eventName
    && row.payload.occurredAt == 1000 * CreatedAt(ev)
    && Concerns(ev, ps[row.payload.paymentId])
    && Rank(Reported(ev).value) <= Rank(ps[row.payload.paymentId].status)
  }

  ghost predicate HasOrigin(row: Worker.Row, ps: Payments, evs: set<StripeEvent>) {
    exists ev :: ev in evs && ComesFrom(row, ps, ev)
  }

  ghost predicate Origins(rows: seq<Worker.Row>, ps: Payments, evs: set<StripeEvent>) {
    forall k :: 0 <= k < |rows| ==> HasOrigin(rows[k], ps, evs)
  }

  /** A payment past pending keeps its session, a refunded one all of its row, and no status falls. */
  ghost predicate Matures(ps: Payments, qs: Payments) {
    forall p :: p in ps ==>
      && p in qs && Rank(ps[p].status) <= Rank(qs[p].status)
      && (ps[p].status != PaymentStatus.PENDING ==> qs[p].checkoutSession == ps[p].checkoutSession)
      && (ps[p].status == REFUNDED ==> qs[p] == ps[p])
  }

  lemma OriginStays(row: Worker.Row, ps: Payments, qs: Payments, ev: StripeEvent)
    requires ComesFrom(row, ps, ev) && Matures(ps, qs)
    ensures ComesFrom(row, qs, ev)
  {
    var p := row.payload.paymentId;
    assert Rank(Reported(ev).value) >= 1;
    assert ev.ChargeRefunded? ==> ps[p].status == REFUNDED;
  }

  lemma OriginsStay(rows: seq<Worker.Row>, ps: Payments, qs: Payments, evs: set<StripeEvent>, more: set<StripeEvent>)
    requires Origins(rows, ps, evs) && Matures(ps, qs) && evs <= more
    ensures Origins(rows, qs, more)
  {
    hide Matures;
    forall k | 0 <= k < |rows|
      ensures HasOrigin(rows[k], qs, more)
    {
      assert HasOrigin(rows[k], ps, evs);
      var ev :| ev in evs && ComesFrom(rows[k], ps, ev);
      OriginStays(rows[k], ps, qs, ev);
    }
  }

  lemma WebhookMatures(ps: Payments, ev: StripeEvent)
    requires UniqueKeys(ps)
    ensures Matures(ps, AfterWebhook(ps, ev).0)
  {
    hide AfterWebhook, UniqueKeys;
    WebhookMoves(ps, ev);
    var (qs, rows) := AfterWebhook(ps, ev);
    if rows != [] {
      var p, at :| ReportsMove(ps, qs, rows, p, at);
      assert forall q :: q in ps && q != p ==> qs[q] == ps[q];
    }
  }

  /** The row that a webhook writes comes from it. */
  lemma WebhookIsOrigin(ps: Payments, ev: StripeEvent)
    requires UniqueKeys(ps)
    ensures
      var (qs, rows) := AfterWebhook(ps, ev);
      forall k :: 0 <= k < |rows| ==> ComesFrom(rows[k], qs, ev)
  {
    RowTime(ps, ev);
    var m := MapWebhook(ps, ev);
    if m.Ok? && m.value.Some? {
      var t := m.value.value;
      TransitionIff(ps, ev, t.payment, t.status);
      IntentStored(ps, ev, t);
    }
  }

  /** A transition leaves the payment concerned by its event. */
  lemma IntentStored(ps: Payments, ev: StripeEvent, t: Transition)
    requires UniqueKeys(ps) && MapWebhook(ps, ev) == Ok(Some(t))
    ensures t.payment in ps && Concerns(ev, Moved(ps[t.payment], t))
  {
    TransitionIff(ps, ev, t.payment, t.status);
  }

  lemma EnrollMatures(w: World, c: Id, u: Id, env: EnrollEnv)
    requires UniqueKeys(w.payments)
    ensures Matures(w.payments, Enroll(w.catalog, w.memberships, w.payments, c, u, env).1)
  {
    hide CreateCheckout, AfterExpiry, UniqueKeys, PlanEnrollment;
    if c in w.catalog.cohorts && w.catalog.cohorts[c].expertId != u {
      var plan := PlanEnrollment(w.catalog, AfterExpiry(w.memberships, c, u, env.readings), c, u, env);
      if plan.Ok? && plan.value != JoinFree {
        var id := if plan.value.Resume? then plan.value.membershipId else env.membershipId;
        CheckoutFrame(w.payments, CheckoutFor(w.catalog.cohorts[c], c, u, id), env.paymentId, env.stripe);
      }
    }
  }

  lemma WorkKeepsOrigins(w: World, step: Worker.Step, evs: set<StripeEvent>)
    requires Enabled(w, Work(step)) && Origins(w.worker.rows, w.payments, evs)
    ensures Origins(Worker.Do(PAYMENT_SCHEMAS, w.worker, step).rows, w.payments, evs)
  {
    var rows := Worker.Do(PAYMENT_SCHEMAS, w.worker, step).rows;
    assert |rows| == |w.worker.rows|;
    forall k | 0 <= k < |rows|
      ensures HasOrigin(rows[k], w.payments, evs)
    {
      assert HasOrigin(w.worker.rows[k], w.payments, evs);
      assert rows[k] == w.worker.rows[k].(status := rows[k].status);
      var ev :| ev in evs && ComesFrom(w.worker.rows[k], w.payments, ev);
      assert ComesFrom(rows[k], w.payments, ev);
    }
  }

  lemma StepKeepsOrigins(w: World, e: Event, cal: Cat.Calendar, evs: set<StripeEvent>)
    requires Inv(w, cal) && Enabled(w, e) && Origins(w.worker.rows, w.payments, evs)
    ensures
      var v := Do(w, e, cal);
      Origins(v.worker.rows, v.payments, evs + if e.Webhook? then {e.event} else {})
  {
    hide Cat.After, AfterWebhook, Enroll, HandleMessage, Worker.Do, Cat.Inv, Worker.Inv, Sound, UniqueKeys, AllBacked;
    hide Matures, ComesFrom;
    match e
    case Webhook(ev) =>
      var (qs, more) := AfterWebhook(w.payments, ev);
      WebhookMatures(w.payments, ev);
      OriginsStay(w.worker.rows, w.payments, qs, evs, evs + {ev});
      WebhookIsOrigin(w.payments, ev);
      assert forall k :: 0 <= k < |more| ==> ComesFrom(more[k], qs, ev) && HasOrigin(more[k], qs, evs + {ev});
    case Enrolls(c, u, env) =>
      EnrollMatures(w, c, u, env);
      OriginsStay(w.worker.rows, w.payments, Do(w, e, cal).payments, evs, evs);
      assert evs + {} == evs;
    case Work(step) =>
      WorkKeepsOrigins(w, step, evs);
      assert evs + {} == evs;
    case _ =>
      assert evs + {} == evs;
  }

  lemma {:induction false} RunKeepsOrigins(w: World, es: seq<Event>, cal: Cat.Calendar, evs: set<StripeEvent>)
    requires Inv(w, cal) && Cat.IsCalendar(cal) && Runs(w, es, cal) && Origins(w.worker.rows, w.payments, evs)
    ensures Origins(Run(w, es, cal).worker.rows, Run(w, es, cal).payments, evs + Heard(es))
    decreases |es|
  {
    hide Inv, Do, Enabled, Origins;
    if es == [] {
      assert evs + Heard(es) == evs;
    } else {
      StepKeeps(w, es[0], cal);
      StepKeepsOrigins(w, es[0], cal, evs);
      var more := evs + if es[0].Webhook? then {es[0].event} else {};
      RunKeepsOrigins(Do(w, es[0], cal), es[1..], cal, more);
      assert more + Heard(es[1..]) == evs + Heard(es);
    }
  }

  /** Every message goes back to a webhook of the run: one that reports the outcome announced, about this
      very payment, at the time announced. */
  lemma MessagesComeFromWebhooks(es: seq<Event>, cal: Cat.Calendar, k: nat)
    requires Cat.IsCalendar(cal) && Runs(EMPTY, es, cal) && k < |Run(EMPTY, es, cal).worker.rows|
    ensures
      var w := Run(EMPTY, es, cal);
      exists ev :: Webhook(ev) in es && ComesFrom(w.worker.rows[k], w.payments, ev)
  {
    hide Inv, Runs, Run, ComesFrom;
    EmptyOk(cal);
    RunKeepsOrigins(EMPTY, es, cal, {});
    var w := Run(EMPTY, es, cal);
    assert HasOrigin(w.worker.rows[k], w.payments, {} + Heard(es));
    var ev :| ev in {} + Heard(es) && ComesFrom(w.worker.rows[k], w.payments, ev);
    HeardInRun(es, ev);
  }

  /** Since when a member is active: an active membership with a payment has joined at the time of a
      completed checkout that Stripe reported for its payment, in milliseconds. */
  lemma JoinedWhenPaid(es: seq<Event>, cal: Cat.Calendar, i: Id)
    requires Cat.IsCalendar(cal) && Runs(EMPTY, es, cal)
    requires
      var w := Run(EMPTY, es, cal);
      i in w.memberships && w.memberships[i].status == Active && w.memberships[i].paymentId.Some?
    ensures
      var w := Run(EMPTY, es, cal);
      var m := w.memberships[i];
      && m.paymentId.value in w.payments
      && exists ev ::
           && Webhook(ev) in es && ev.SessionCompleted? && ev.paid
           && w.payments[m.paymentId.value].checkoutSession == Some(ev.session)
           && Activated(m, 1000 * ev.created)
  {
    hide Run, Runs, Cat.Inv, Worker.Inv, TermsAgree, OneEngagement, ActiveArePaid, WithinCapacity, UniqueKeys;
    PaymentSafety(es, cal, i);
    ReachableOk(es, cal);
    var w := Run(EMPTY, es, cal);
    var m := w.memberships[i];
    var k: nat :| SuccessPublished(w, k, i) && Activated(m, w.worker.rows[k].payload.occurredAt);
    assert Backed(w.worker.rows[k], w.payments);
    SoleRow(w.payments, m.paymentId.value, w.worker.rows[k].payload.paymentId);
    MessagesComeFromWebhooks(es, cal, k);
    var ev :| Webhook(ev) in es && ComesFrom(w.worker.rows[k], w.payments, ev);
    assert ev.SessionCompleted? && ev.paid;
  }
}
