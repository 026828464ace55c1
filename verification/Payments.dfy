/** The payments table, checkout sessions and Stripe webhooks (PaymentSessionService). */
module Payments {
  import opened Prelude
  import opened OutboxWorker

  datatype PaymentStatus = PENDING | FAILED | SUCCEEDED | REFUNDED

  datatype Payment = Payment(
    membershipId: Id, userId: Id, cohortId: Id, amount: int, currency: string, status: PaymentStatus,
    checkoutSession: Option<Id>, paymentIntent: Option<Id>, checkoutUrl: Option<string>)

  type Payments = map<Id, Payment>

  function Rank(s: PaymentStatus): nat {
    match s case PENDING => 0 case FAILED => 1 case SUCCEEDED => 2 case REFUNDED => 3
  }

  // ---- the table and its unique indexes ----

  ghost predicate UniqueKeys(ps: Payments) {
    forall p, q :: p in ps && q in ps && p != q ==>
      && ps[p].membershipId != ps[q].membershipId
      && !(ps[p].checkoutSession.Some? && ps[p].checkoutSession == ps[q].checkoutSession)
      && !(ps[p].paymentIntent.Some? && ps[p].paymentIntent == ps[q].paymentIntent)
  }

  /** Writing row p with these contents would break a unique index. */
  predicate Collides(ps: Payments, p: Id, row: Payment) {
    exists q :: q in ps && q != p &&
      (|| ps[q].membershipId == row.membershipId
       || (row.checkoutSession.Some? && ps[q].checkoutSession == row.checkoutSession)
       || (row.paymentIntent.Some? && ps[q].paymentIntent == row.paymentIntent))
  }

  lemma WriteKeepsUnique(ps: Payments, p: Id, row: Payment)
    requires UniqueKeys(ps) && !Collides(ps, p, row)
    ensures UniqueKeys(ps[p := row])
  {
  }

  ghost function FindByMembership(ps: Payments, membershipId: Id): (r: Option<Id>)
    ensures r.Some? ==> r.value in ps && ps[r.value].membershipId == membershipId
    ensures r.None? ==> forall p :: p in ps ==> ps[p].membershipId != membershipId
  {
    if p :| p in ps && ps[p].membershipId == membershipId then Some(p) else None
  }

  // ---- createCheckoutSession ----

  datatype CheckoutInput = CheckoutInput(membershipId: Id, userId: Id, cohortId: Id, amount: int, currency: string)

  /** session is None for the empty string that stands in for a missing session id. */
  datatype Checkout = Checkout(paymentId: Id, session: Option<Id>, url: string)

  /** What Stripe does with the request for a session: it throws, it answers, or the service stops
      before it hears the answer. */
  datatype StripeReply =
    | NoSession
    | Session(id: Id, intent: Option<Id>, url: Option<string>)
    | ServiceStops

  function FreshRow(input: CheckoutInput): Payment {
    Payment(input.membershipId, input.userId, input.cohortId, input.amount, input.currency, PaymentStatus.PENDING,
            None, None, None)
  }

  /** From the call of Stripe on.  ps is the table at that moment; undone is what a thrown error
      makes of it (a row inserted by this very call is deleted again). */
  ghost function OpenSession(ps: Payments, undone: Payments, p: Id, row: Payment, reply: StripeReply)
    : (Payments, Outcome<Checkout>)
  {
    match reply
    case NoSession => (undone, Err(External))
    case ServiceStops => (ps, Err(External))
    case Session(id, intent, url) =>
      var updated := row.(checkoutSession := Some(id), paymentIntent := intent, checkoutUrl := url);
      if Collides(ps, p, updated) then (ps, Err(Database))
      else (ps[p := updated], if url.Some? then Ok(Checkout(p, Some(id), url.value)) else Err(External))
  }

  ghost function CreateCheckout(ps: Payments, input: CheckoutInput, newId: Id, reply: StripeReply)
    : (Payments, Outcome<Checkout>)
  {
    match FindByMembership(ps, input.membershipId)
    case Some(p) =>
      if ps[p].status != PaymentStatus.PENDING then (ps, Err(Validation))
      else if ps[p].checkoutUrl.Some? then (ps, Ok(Checkout(p, ps[p].checkoutSession, ps[p].checkoutUrl.value)))
      else OpenSession(ps, ps, p, FreshRow(input), reply)
    case None =>
      if newId in ps then (ps, Err(Database))
      else OpenSession(ps[newId := FreshRow(input)], ps, newId, FreshRow(input), reply)
  }

  /** What every call leaves of the table: other memberships' rows stay, the row of this membership
      stays unless it was pending, and a usable checkout means a pending row that carries this
      membership and, unless it was there with its own session already, the amounts asked for. */
  lemma CheckoutFrame(ps: Payments, input: CheckoutInput, newId: Id, reply: StripeReply)
    requires UniqueKeys(ps)
    ensures
      var (qs, r) := CreateCheckout(ps, input, newId, reply);
      && UniqueKeys(qs) && ps.Keys <= qs.Keys
      && (forall p :: p in ps && ps[p].membershipId != input.membershipId ==> qs[p] == ps[p])
      && (forall p :: p in ps && ps[p].status != PaymentStatus.PENDING ==> qs[p] == ps[p])
      && (forall p :: p in ps && qs[p] != ps[p] ==>
            && qs[p].status == PaymentStatus.PENDING && qs[p].membershipId == input.membershipId
            && qs[p].amount == input.amount && qs[p].currency == input.currency)
      && (forall p :: p in qs && p !in ps ==>
            && FindByMembership(ps, input.membershipId).None?
            && qs[p] == FreshRow(input).(checkoutSession := qs[p].checkoutSession,
                                         paymentIntent := qs[p].paymentIntent, checkoutUrl := qs[p].checkoutUrl))
      && (r.Ok? ==>
            && r.value.paymentId in qs && qs[r.value.paymentId].membershipId == input.membershipId
            && qs[r.value.paymentId].status == PaymentStatus.PENDING
            && qs[r.value.paymentId].checkoutSession == r.value.session
            && qs[r.value.paymentId].checkoutUrl == Some(r.value.url))
  {
    match FindByMembership(ps, input.membershipId)
    case Some(p) =>
      if reply.Session? {
        var updated := FreshRow(input).(checkoutSession := Some(reply.id), paymentIntent := reply.intent,
                                        checkoutUrl := reply.url);
        if !Collides(ps, p, updated) {
          WriteKeepsUnique(ps, p, updated);
        }
      }
    case None =>
      if newId !in ps {
        WriteKeepsUnique(ps, newId, FreshRow(input));
        var qs := ps[newId := FreshRow(input)];
        if reply.Session? {
          var updated := FreshRow(input).(checkoutSession := Some(reply.id), paymentIntent := reply.intent,
                                          checkoutUrl := reply.url);
          if !Collides(qs, newId, updated) {
            WriteKeepsUnique(qs, newId, updated);
          }
        }
      }
  }

  /** An open checkout is reused: when a row of the membership is pending and has a url, no reply of
      Stripe changes the table, and the answer is that row's id, session and url. */
  lemma CheckoutReuses(ps: Payments, input: CheckoutInput, newId: Id, reply: StripeReply, p: Id)
    requires UniqueKeys(ps) && p in ps && ps[p].membershipId == input.membershipId
    requires ps[p].status == PaymentStatus.PENDING && ps[p].checkoutUrl.Some?
    ensures CreateCheckout(ps, input, newId, reply) ==
              (ps, Ok(Checkout(p, ps[p].checkoutSession, ps[p].checkoutUrl.value)))
  {
    assert FindByMembership(ps, input.membershipId) == Some(p);
  }

  /** Stripe answers with a session and an intent that no other payment has. */
  ghost predicate AnswersAnew(ps: Payments, p: Id, reply: StripeReply) {
    && reply.Session?
    && forall q :: q in ps && q != p ==>
         && ps[q].checkoutSession != Some(reply.id)
         && (reply.intent.Some? ==> ps[q].paymentIntent != reply.intent)
  }

  /** The row that a new session makes: what was asked for, pending, with everything that Stripe said. */
  ghost predicate Opened(row: Payment, input: CheckoutInput, reply: StripeReply) {
    && reply.Session? && row.status == PaymentStatus.PENDING
    && row.membershipId == input.membershipId && row.userId == input.userId && row.cohortId == input.cohortId
    && row.amount == input.amount && row.currency == input.currency
    && row.checkoutSession == Some(reply.id) && row.paymentIntent == reply.intent && row.checkoutUrl == reply.url
  }

  /** A checkout for a membership without a payment succeeds exactly when the new id is free and Stripe
      answers with a new session that has a url; then its row is the one that Stripe's answer makes.  A
      Stripe error leaves the table as it was; a service that stops, or an answer that cannot be stored,
      leaves the new row without a session. */
  lemma FirstCheckoutIff(ps: Payments, input: CheckoutInput, newId: Id, reply: StripeReply)
    requires UniqueKeys(ps) && forall p :: p in ps ==> ps[p].membershipId != input.membershipId
    ensures
      var (qs, r) := CreateCheckout(ps, input, newId, reply);
      && (r.Ok? <==> newId !in ps && AnswersAnew(ps, newId, reply) && reply.url.Some?)
      && (r.Ok? ==>
            && newId in qs && Opened(qs[newId], input, reply) && qs == ps[newId := qs[newId]]
            && r.value == Checkout(newId, Some(reply.id), reply.url.value))
      && (reply.NoSession? || newId in ps ==> qs == ps)
      && (!reply.NoSession? && newId !in ps ==>
            && newId in qs && qs == ps[newId := qs[newId]]
            && (if AnswersAnew(ps, newId, reply) then Opened(qs[newId], input, reply)
                else qs[newId] == FreshRow(input)))
      && (r.Err? ==>
            && r.error == (if newId in ps || (reply.Session? && !AnswersAnew(ps, newId, reply)) then Database
                           else External)
            && forall p :: p in ps ==> p in qs && qs[p] == ps[p])
  {
    assert FindByMembership(ps, input.membershipId).None?;
    if newId !in ps && reply.Session? {
      var made := ps[newId := FreshRow(input)];
      var row := FreshRow(input).(
        checkoutSession := Some(reply.id), paymentIntent := reply.intent, checkoutUrl := reply.url);
      assert forall q :: q in ps && q != newId ==> q in made && made[q] == ps[q];
      if !AnswersAnew(ps, newId, reply) {
        var q :| q in ps && q != newId && (ps[q].checkoutSession == Some(reply.id) ||
                                           (reply.intent.Some? && ps[q].paymentIntent == reply.intent));
        assert made[q] == ps[q];
        assert Collides(made, newId, row);
      } else {
        assert forall q :: q in made && q != newId ==> q in ps && made[q] == ps[q];
      }
      assert made[newId := row] == ps[newId := row];
    }
  }

  /** A second checkout, for a payment whose first one stayed without a url, succeeds exactly when the
      payment is pending and Stripe answers with a new session that has a url; a payment past pending is
      refused, and a Stripe error leaves the table as it was. */
  lemma SecondCheckoutIff(ps: Payments, input: CheckoutInput, newId: Id, reply: StripeReply, p: Id)
    requires UniqueKeys(ps) && p in ps && ps[p].membershipId == input.membershipId && ps[p].checkoutUrl.None?
    ensures
      var (qs, r) := CreateCheckout(ps, input, newId, reply);
      && (r.Ok? <==> ps[p].status == PaymentStatus.PENDING && AnswersAnew(ps, p, reply) && reply.url.Some?)
      && (r.Ok? ==>
            && p in qs && Opened(qs[p], input, reply) && qs == ps[p := qs[p]]
            && r.value == Checkout(p, Some(reply.id), reply.url.value))
      && (!reply.Session? || ps[p].status != PaymentStatus.PENDING ==> qs == ps)
      && (r.Err? ==> r.error == if ps[p].status != PaymentStatus.PENDING then Validation
                                else if reply.Session? && !AnswersAnew(ps, p, reply) then Database else External)
  {
    assert FindByMembership(ps, input.membershipId) == Some(p);
    if reply.Session? {
      var row := FreshRow(input).(
        checkoutSession := Some(reply.id), paymentIntent := reply.intent, checkoutUrl := reply.url);
      assert Collides(ps, p, row) <==> !AnswersAnew(ps, p, reply);
    }
  }

  // ---- handleStripeWebhook ----

  /** Verified events.  SessionFailed stands for checkout.session.expired and
      checkout.session.async_payment_failed, which are handled alike. */
  datatype StripeEvent =
    | SessionCompleted(session: Id, paid: bool, intent: Option<Id>, created: int)
    | SessionFailed(session: Id, intent: Option<Id>, created: int)
    | ChargeRefunded(full: bool, intent: Option<Id>, created: int)
    | OtherEvent

  /** The Stripe time of an event, in seconds. */
  function CreatedAt(ev: StripeEvent): int {
    match ev
    case SessionCompleted(_, _, _, created) => created
    case SessionFailed(_, _, created) => created
    case ChargeRefunded(_, _, created) => created
    case OtherEvent => 0
  }

  datatype Transition = Transition(payment: Id, status: PaymentStatus, occurredAt: int, intent: Option<Id>)

  ghost function FindBySession(ps: Payments, session: Id): (r: Option<Id>)
    ensures r.Some? ==> r.value in ps && ps[r.value].checkoutSession == Some(session)
    ensures r.None? ==> forall p :: p in ps ==> ps[p].checkoutSession != Some(session)
  {
    if p :| p in ps && ps[p].checkoutSession == Some(session) then Some(p) else None
  }

  ghost function FindByIntent(ps: Payments, intent: Id): (r: Option<Id>)
    ensures r.Some? ==> r.value in ps && ps[r.value].paymentIntent == Some(intent)
    ensures r.None? ==> forall p :: p in ps ==> ps[p].paymentIntent != Some(intent)
  {
    if p :| p in ps && ps[p].paymentIntent == Some(intent) then Some(p) else None
  }

  /** mapWebhookToTransition */
  ghost function MapWebhook(ps: Payments, ev: StripeEvent): Outcome<Option<Transition>> {
    match ev
    case SessionCompleted(session, paid, intent, created) =>
      if !paid then Ok(None)
      else (match FindBySession(ps, session)
        case None => Err(NotFound)
        case Some(p) =>
          if ps[p].status == SUCCEEDED || ps[p].status == REFUNDED then Ok(None)
          else Ok(Some(Transition(p, SUCCEEDED, created * 1000, if intent.Some? then intent else ps[p].paymentIntent))))
    case SessionFailed(session, intent, created) =>
      (match FindBySession(ps, session)
        case None => Err(NotFound)
        case Some(p) =>
          if ps[p].status != PaymentStatus.PENDING then Ok(None)
          else Ok(Some(Transition(p, FAILED, created * 1000, if intent.Some? then intent else ps[p].paymentIntent))))
    case ChargeRefunded(full, intent, created) =>
      if !full || intent.None? then Ok(None)
      else (match FindByIntent(ps, intent.value)
        case None => Err(NotFound)
        case Some(p) =>
          if ps[p].status == REFUNDED then Ok(None)
          else Ok(Some(Transition(p, REFUNDED, created * 1000, intent))))
    case OtherEvent => Ok(None)
  }

  function EventNameOf(s: PaymentStatus): string {
    match s
    case PENDING => ""
    case FAILED => "payment.failed"
    case SUCCEEDED => "payment.succeeded"
    case REFUNDED => "payment.refunded"
  }

  /** nextPayment */
  function Moved(row: Payment, t: Transition): Payment {
    row.(status := t.status, paymentIntent := if t.intent.Some? then t.intent else row.paymentIntent)
  }

  /** The outbox row written with a transition. */
  function OutboxRowOf(row: Payment, t: Transition): Row {
    Row(EventNameOf(t.status), PaymentOutcome(row.membershipId, t.payment, row.userId, t.occurredAt), RowStatus.PENDING)
  }

  /** The table and the rows added to the outbox; an error leaves both alone. */
  ghost function HandleWebhook(ps: Payments, ev: StripeEvent): Outcome<(Payments, seq<Row>)> {
    match MapWebhook(ps, ev)
    case Err(e) => Err(e)
    case Ok(None) => Ok((ps, []))
    case Ok(Some(t)) =>
      var row := Moved(ps[t.payment], t);
      if Collides(ps, t.payment, row) then Err(Database)
      else Ok((ps[t.payment := row], [OutboxRowOf(ps[t.payment], t)]))
  }

  ghost function AfterWebhook(ps: Payments, ev: StripeEvent): (Payments, seq<Row>) {
    var o := HandleWebhook(ps, ev);
    if o.Ok? then o.value else (ps, [])
  }

  /** rows holds the one outbox row that announces that payment p moved up. */
  ghost predicate ReportsMove(ps: Payments, qs: Payments, rows: seq<Row>, p: Id, at: int) {
    && p in ps && p in qs && Rank(ps[p].status) < Rank(qs[p].status) && qs == ps[p := qs[p]]
    && rows == [Row(EventNameOf(qs[p].status), PaymentOutcome(ps[p].membershipId, p, ps[p].userId, at),
                    RowStatus.PENDING)]
  }

  /** A webhook changes at most one row, upwards in PENDING < FAILED < SUCCEEDED < REFUNDED, and
      writes an outbox row for that change and only then. */
  lemma WebhookMoves(ps: Payments, ev: StripeEvent)
    requires UniqueKeys(ps)
    ensures
      var (qs, rows) := AfterWebhook(ps, ev);
      && UniqueKeys(qs) && qs.Keys == ps.Keys
      && (forall p :: p in ps ==>
            && Rank(ps[p].status) <= Rank(qs[p].status)
            && qs[p] == ps[p].(status := qs[p].status, paymentIntent := qs[p].paymentIntent))
      && (rows == [] ==> qs == ps)
      && (rows != [] ==> exists p, at :: ReportsMove(ps, qs, rows, p, at))
  {
    match HandleWebhook(ps, ev)
    case Err(_) =>
    case Ok(v) =>
      var m := MapWebhook(ps, ev);
      if m.value.Some? {
        var t := m.value.value;
        WriteKeepsUnique(ps, t.payment, Moved(ps[t.payment], t));
        assert ReportsMove(ps, v.0, v.1, t.payment, t.occurredAt);
      }
  }

  /** The time that an outbox row announces is the event's, in milliseconds. */
  lemma RowTime(ps: Payments, ev: StripeEvent)
    ensures
      var rows := AfterWebhook(ps, ev).1;
      forall k :: 0 <= k < |rows| ==>
        rows[k].payload.PaymentOutcome? && rows[k].payload.occurredAt == 1000 * CreatedAt(ev)
  {
  }
}
