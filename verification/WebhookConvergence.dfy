/** Any list of webhooks for one payment: what it does does not depend on order or repetition. */
module WebhookConvergence {
  import opened Prelude
  import opened OutboxWorker
  import opened Payments

  /** The status a webhook reports; None if it reports none. */
  function Reported(ev: StripeEvent): Option<PaymentStatus> {
    match ev
    case SessionCompleted(_, paid, _, _) => if paid then Some(SUCCEEDED) else None
    case SessionFailed(_, _, _) => Some(FAILED)
    case ChargeRefunded(full, intent, _) => if full && intent.Some? then Some(REFUNDED) else None
    case OtherEvent => None
  }

  function RankOf(ev: StripeEvent): nat {
    if Reported(ev).Some? then Rank(Reported(ev).value) else 0
  }

  /** The event is about the payment with this checkout session and this payment intent. */
  predicate About(ev: StripeEvent, session: Id, intent: Id) {
    match ev
    case SessionCompleted(s, _, i, _) => s == session && (i.Some? ==> i.value == intent)
    case SessionFailed(s, i, _) => s == session && (i.Some? ==> i.value == intent)
    case ChargeRefunded(full, i, _) => i.Some? ==> i.value == intent
    case OtherEvent => true
  }

  ghost predicate AllAbout(ws: seq<StripeEvent>, session: Id, intent: Id) {
    forall ev | ev in ws :: About(ev, session, intent)
  }

  /** The greatest outcome received, PENDING < FAILED < SUCCEEDED < REFUNDED. */
  function MaxRank(start: nat, ws: seq<StripeEvent>): (m: nat)
    ensures start <= m && forall ev | ev in ws :: RankOf(ev) <= m
    ensures m == start || exists ev :: ev in ws && RankOf(ev) == m
  {
    if ws == [] then start
    else
      var n := |ws| - 1;
      var m := MaxRank(start, ws[..n]);
      assert ws == ws[..n] + [ws[n]];
      if RankOf(ws[n]) > m then assert ws[n] in ws; RankOf(ws[n]) else m
  }

  /** Webhook i reports more than the payment's first status and than every webhook before it. */
  ghost predicate IsRecord(start: nat, ws: seq<StripeEvent>, i: nat)
    requires i < |ws|
  {
    start < RankOf(ws[i]) && forall j :: 0 <= j < i ==> RankOf(ws[j]) < RankOf(ws[i])
  }

  /** The event names of the strict record highs, in order. */
  ghost function RecordHighs(start: nat, ws: seq<StripeEvent>): seq<string> {
    if ws == [] then []
    else
      var n := |ws| - 1;
      RecordHighs(start, ws[..n]) +
      if IsRecord(start, ws, n) && Reported(ws[n]).Some? then [EventNameOf(Reported(ws[n]).value)] else []
  }

  function Names(rows: seq<Row>): seq<string> {
    seq(|rows|, i requires 0 <= i < |rows| => rows[i].eventName)
  }

  ghost function RunWebhooks(ps: Payments, ws: seq<StripeEvent>): (Payments, seq<Row>) {
    if ws == [] then (ps, [])
    else
      var (qs, rows) := RunWebhooks(ps, ws[..|ws| - 1]);
      var (rs, more) := AfterWebhook(qs, ws[|ws| - 1]);
      (rs, rows + more)
  }

  ghost predicate IsPayment(ps: Payments, p: Id, session: Id, intent: Id) {
    UniqueKeys(ps) && p in ps && ps[p].checkoutSession == Some(session) && ps[p].paymentIntent == Some(intent)
  }

  /** One webhook about a payment whose intent is stored. */
  lemma OneWebhook(ps: Payments, p: Id, session: Id, intent: Id, ev: StripeEvent)
    requires IsPayment(ps, p, session, intent) && About(ev, session, intent)
    ensures
      var (qs, rows) := AfterWebhook(ps, ev);
      && IsPayment(qs, p, session, intent)
      && (if RankOf(ev) > Rank(ps[p].status)
          then qs == ps[p := ps[p].(status := Reported(ev).value)] && Names(rows) == [EventNameOf(Reported(ev).value)]
          else qs == ps && rows == [])
  {
    assert FindBySession(ps, session) == Some(p);
    assert FindByIntent(ps, intent) == Some(p);
    var m := MapWebhook(ps, ev);
    if m.Ok? && m.value.Some? {
      assert Moved(ps[p], m.value.value) == ps[p].(status := Reported(ev).value);
    }
  }

  lemma RecordIffAboveMax(start: nat, ws: seq<StripeEvent>)
    requires ws != []
    ensures IsRecord(start, ws, |ws| - 1) <==> RankOf(ws[|ws| - 1]) > MaxRank(start, ws[..|ws| - 1])
  {
    var n := |ws| - 1;
    assert forall j :: 0 <= j < n ==> ws[j] == ws[..n][j] && ws[j] in ws[..n];
    if IsRecord(start, ws, n) && MaxRank(start, ws[..n]) != start {
      var ev :| ev in ws[..n] && RankOf(ev) == MaxRank(start, ws[..n]);
      var j :| 0 <= j < n && ws[..n][j] == ev;
    }
  }

  /** For any list of webhooks about one payment whose intent is stored: the final status is the
      greatest received outcome, nothing else about the table changes, and the outbox rows written
      are exactly the strict record highs of the list, at most three. */
  lemma {:induction false} WebhooksConverge(ps: Payments, p: Id, session: Id, intent: Id, ws: seq<StripeEvent>)
    requires IsPayment(ps, p, session, intent) && AllAbout(ws, session, intent)
    ensures
      var (qs, rows) := RunWebhooks(ps, ws);
      && IsPayment(qs, p, session, intent) && qs == ps[p := ps[p].(status := qs[p].status)]
      && Rank(qs[p].status) == MaxRank(Rank(ps[p].status), ws)
      && Names(rows) == RecordHighs(Rank(ps[p].status), ws)
      && |rows| <= Rank(qs[p].status) - Rank(ps[p].status) <= 3
    decreases |ws|
  {
    hide AfterWebhook, About, IsRecord, UniqueKeys;
    if ws != [] {
      var n := |ws| - 1;
      assert ws == ws[..n] + [ws[n]];
      WebhooksConverge(ps, p, session, intent, ws[..n]);
      var (qs, rows) := RunWebhooks(ps, ws[..n]);
      OneWebhook(qs, p, session, intent, ws[n]);
      RecordIffAboveMax(Rank(ps[p].status), ws);
      var (rs, more) := AfterWebhook(qs, ws[n]);
      assert Names(rows + more) == Names(rows) + Names(more);
    }
  }

  /** Reordering or repeating webhooks changes nothing in the table. */
  lemma OrderIsIrrelevant(ps: Payments, p: Id, session: Id, intent: Id, ws: seq<StripeEvent>, vs: seq<StripeEvent>)
    requires IsPayment(ps, p, session, intent) && AllAbout(ws, session, intent)
    requires forall ev :: ev in ws <==> ev in vs
    ensures RunWebhooks(ps, ws).0 == RunWebhooks(ps, vs).0
  {
    hide AfterWebhook, RunWebhooks, About, UniqueKeys, RecordHighs;
    WebhooksConverge(ps, p, session, intent, ws);
    WebhooksConverge(ps, p, session, intent, vs);
    SameMax(Rank(ps[p].status), ws, vs);
  }

  lemma SameMax(start: nat, ws: seq<StripeEvent>, vs: seq<StripeEvent>)
    requires forall ev :: ev in ws <==> ev in vs
    ensures MaxRank(start, ws) == MaxRank(start, vs)
  {
  }

  lemma RunOne(ps: Payments, ev: StripeEvent)
    ensures RunWebhooks(ps, [ev]) == AfterWebhook(ps, ev)
  {
    var ws := [ev];
    assert ws[..|ws| - 1] == [] && RunWebhooks(ps, ws[..|ws| - 1]) == (ps, []);
    var (qs, rows) := AfterWebhook(ps, ws[|ws| - 1]);
    assert [] + rows == rows;
  }

  /** A refund that overtakes the first event to carry the intent is refused, and nothing records it. */
  lemma EarlyRefundIsLost(ps: Payments, intent: Id, created: int)
    requires forall q :: q in ps ==> ps[q].paymentIntent != Some(intent)
    ensures HandleWebhook(ps, ChargeRefunded(true, Some(intent), created)) == Err(NotFound)
    ensures RunWebhooks(ps, [ChargeRefunded(true, Some(intent), created)]) == (ps, [])
  {
    var ev := ChargeRefunded(true, Some(intent), created);
    assert FindByIntent(ps, intent).None?;
    assert AfterWebhook(ps, ev) == (ps, []);
    RunOne(ps, ev);
  }

  /** A payment that was paid before its intent was stored is stuck: no list of webhooks whatsoever
      changes its row again, so it never becomes REFUNDED. */
  lemma {:induction false} PaidWithoutIntentIsStuck(ps: Payments, p: Id, ws: seq<StripeEvent>)
    requires p in ps && (ps[p].status == SUCCEEDED || ps[p].status == REFUNDED) && ps[p].paymentIntent.None?
    ensures p in RunWebhooks(ps, ws).0 && RunWebhooks(ps, ws).0[p] == ps[p]
    decreases |ws|
  {
    if ws != [] {
      PaidWithoutIntentIsStuck(ps, p, ws[..|ws| - 1]);
      StuckForOne(RunWebhooks(ps, ws[..|ws| - 1]).0, p, ws[|ws| - 1]);
    }
  }

  lemma StuckForOne(ps: Payments, p: Id, ev: StripeEvent)
    requires p in ps && (ps[p].status == SUCCEEDED || ps[p].status == REFUNDED) && ps[p].paymentIntent.None?
    ensures p in AfterWebhook(ps, ev).0 && AfterWebhook(ps, ev).0[p] == ps[p]
  {
    var m := MapWebhook(ps, ev);
    assert m.Ok? && m.value.Some? ==> m.value.value.payment != p;
  }

  /** The final status is the greatest outcome, counting the status at the start, for every list of
      webhooks about a payment if and only if the payment's intent is stored or it is refunded
      already. */
  lemma ConvergesIff(ps: Payments, p: Id, session: Id, intent: Id)
    requires UniqueKeys(ps) && p in ps && ps[p].checkoutSession == Some(session)
    requires ps[p].paymentIntent.Some? ==> ps[p].paymentIntent == Some(intent)
    requires forall q :: q in ps && q != p ==> ps[q].paymentIntent != Some(intent)
    ensures (ps[p].paymentIntent.Some? || ps[p].status == REFUNDED) <==>
              forall ws | AllAbout(ws, session, intent) ::
                && p in RunWebhooks(ps, ws).0
                && Rank(RunWebhooks(ps, ws).0[p].status) == MaxRank(Rank(ps[p].status), ws)
  {
    if ps[p].paymentIntent.Some? {
      forall ws: seq<StripeEvent> | AllAbout(ws, session, intent)
        ensures p in RunWebhooks(ps, ws).0
        ensures Rank(RunWebhooks(ps, ws).0[p].status) == MaxRank(Rank(ps[p].status), ws)
      {
        WebhooksConverge(ps, p, session, intent, ws);
      }
    } else if ps[p].status == REFUNDED {
      forall ws: seq<StripeEvent> | AllAbout(ws, session, intent)
        ensures p in RunWebhooks(ps, ws).0
        ensures Rank(RunWebhooks(ps, ws).0[p].status) == MaxRank(Rank(ps[p].status), ws)
      {
        PaidWithoutIntentIsStuck(ps, p, ws);
      }
    } else {
      var refund := ChargeRefunded(true, Some(intent), 0);
      EarlyRefundIsLost(ps, intent, 0);
      assert AllAbout([refund], session, intent);
      assert refund in [refund];
      assert MaxRank(Rank(ps[p].status), [refund]) == 3;
    }
  }

  /** What puts a payment without an intent into that state: one paid session that carries none. */
  lemma PaidWithoutIntentOccurs(ps: Payments, p: Id, session: Id, created: int)
    requires UniqueKeys(ps) && p in ps && ps[p].checkoutSession == Some(session)
    requires ps[p].status == PaymentStatus.PENDING && ps[p].paymentIntent.None?
    ensures AfterWebhook(ps, SessionCompleted(session, true, None, created)).0 == ps[p := ps[p].(status := SUCCEEDED)]
  {
    var ev := SessionCompleted(session, true, None, created);
    assert FindBySession(ps, session) == Some(p);
    var t := Transition(p, SUCCEEDED, created * 1000, None);
    assert MapWebhook(ps, ev) == Ok(Some(t));
    assert Moved(ps[p], t) == ps[p].(status := SUCCEEDED);
  }

  // ---- lists about a payment whose intent is not stored yet ----

  /** What an event reports through the session; a refund reports through the intent. */
  function SessionRank(ev: StripeEvent): nat {
    if ev.ChargeRefunded? then 0 else RankOf(ev)
  }

  function SessionMax(start: nat, ws: seq<StripeEvent>): nat {
    if ws == [] then start
    else
      var m, r := SessionMax(start, ws[..|ws| - 1]), SessionRank(ws[|ws| - 1]);
      if r > m then r else m
  }

  predicate CarriesIntent(ev: StripeEvent) {
    (ev.SessionCompleted? || ev.SessionFailed?) && ev.intent.Some?
  }

  predicate IsRefund(ev: StripeEvent) {
    Reported(ev) == Some(REFUNDED)
  }

  /** Event k stores the intent: it carries it and reports more through the session than all before. */
  ghost predicate StoresIntent(start: nat, ws: seq<StripeEvent>, k: nat) {
    k < |ws| && CarriesIntent(ws[k]) && SessionRank(ws[k]) > SessionMax(start, ws[..k])
  }

  ghost predicate Stores(start: nat, ws: seq<StripeEvent>) {
    exists k: nat :: StoresIntent(start, ws, k)
  }

  /** A refund comes after an event that stores the intent. */
  ghost predicate RefundHeard(start: nat, ws: seq<StripeEvent>) {
    exists j: nat :: j < |ws| && IsRefund(ws[j]) && Stores(start, ws[..j])
  }

  lemma PrefixStores(start: nat, ws: seq<StripeEvent>, n: nat, k: nat)
    requires k < n <= |ws|
    ensures StoresIntent(start, ws[..n], k) <==> StoresIntent(start, ws, k)
  {
    assert ws[..n][..k] == ws[..k];
  }

  lemma StoresOneMore(start: nat, ws: seq<StripeEvent>)
    requires ws != []
    ensures
      var n := |ws| - 1;
      Stores(start, ws) <==> Stores(start, ws[..n]) || StoresIntent(start, ws, n)
  {
    var n := |ws| - 1;
    if Stores(start, ws[..n]) {
      var k: nat :| StoresIntent(start, ws[..n], k);
      PrefixStores(start, ws, n, k);
    }
    if Stores(start, ws) {
      var k: nat :| StoresIntent(start, ws, k);
      if k < n {
        PrefixStores(start, ws, n, k);
      }
    }
  }

  lemma HeardOneMore(start: nat, ws: seq<StripeEvent>)
    requires ws != []
    ensures
      var n := |ws| - 1;
      RefundHeard(start, ws) <==> RefundHeard(start, ws[..n]) || (Stores(start, ws[..n]) && IsRefund(ws[n]))
  {
    hide Stores, IsRefund;
    var n := |ws| - 1;
    if RefundHeard(start, ws[..n]) {
      var j: nat :| j < n && IsRefund(ws[..n][j]) && Stores(start, ws[..n][..j]);
      assert ws[..n][..j] == ws[..j] && IsRefund(ws[j]);
    }
    if RefundHeard(start, ws) {
      var j: nat :| j < |ws| && IsRefund(ws[j]) && Stores(start, ws[..j]);
      if j < n {
        assert ws[..n][..j] == ws[..j] && IsRefund(ws[..n][j]);
      }
    }
  }

  /** Where a payment that starts without an intent stands after these events. */
  ghost predicate Stands(row: Payment, was: Payment, intent: Id, ws: seq<StripeEvent>) {
    var start := Rank(was.status);
    && row == was.(status := row.status, paymentIntent := if Stores(start, ws) then Some(intent) else None)
    && Rank(row.status) == if RefundHeard(start, ws) then 3 else SessionMax(start, ws)
  }

  /** The table around a payment that starts without an intent. */
  ghost predicate Lonely(ps: Payments, p: Id, session: Id, intent: Id) {
    && UniqueKeys(ps) && p in ps && ps[p].checkoutSession == Some(session)
    && (ps[p].paymentIntent.Some? ==> ps[p].paymentIntent == Some(intent))
    && (forall q :: q in ps && q != p ==> ps[q].paymentIntent != Some(intent))
  }

  /** One event, whether the intent is stored or not. */
  lemma OneMore(ps: Payments, p: Id, session: Id, intent: Id, ev: StripeEvent)
    requires Lonely(ps, p, session, intent) && About(ev, session, intent)
    ensures
      var qs := AfterWebhook(ps, ev).0;
      Lonely(qs, p, session, intent) && Advances(ps[p], qs[p], intent, ev)
  {
    WebhookMoves(ps, ev);
    assert FindBySession(ps, session) == Some(p);
    if IsRefund(ev) {
      assert FindByIntent(ps, intent) == if ps[p].paymentIntent.None? then None else Some(p);
    }
  }

  lemma HeardMeansStored(start: nat, ws: seq<StripeEvent>)
    ensures RefundHeard(start, ws) ==> Stores(start, ws)
  {
    if RefundHeard(start, ws) {
      var j: nat :| j < |ws| && IsRefund(ws[j]) && Stores(start, ws[..j]);
      var k: nat :| StoresIntent(start, ws[..j], k);
      PrefixStores(start, ws, j, k);
    }
  }

  predicate HasRefund(ws: seq<StripeEvent>) {
    exists k :: 0 <= k < |ws| && IsRefund(ws[k])
  }

  lemma HasRefundOneMore(ws: seq<StripeEvent>)
    requires ws != []
    ensures HasRefund(ws) <==> HasRefund(ws[..|ws| - 1]) || IsRefund(ws[|ws| - 1])
  {
    var n := |ws| - 1;
    if HasRefund(ws[..n]) {
      var k :| 0 <= k < n && IsRefund(ws[..n][k]);
      assert IsRefund(ws[k]);
    }
    if HasRefund(ws) {
      var k :| 0 <= k < |ws| && IsRefund(ws[k]);
      assert k < n ==> IsRefund(ws[..n][k]);
    }
  }

  lemma MaxRankOneMore(start: nat, ws: seq<StripeEvent>)
    requires ws != []
    ensures
      var n := |ws| - 1;
      MaxRank(start, ws) == if RankOf(ws[n]) > MaxRank(start, ws[..n]) then RankOf(ws[n]) else MaxRank(start, ws[..n])
  {
  }

  /** Without refunds the greatest outcome is the greatest session outcome, and no session outcome is
      REFUNDED. */
  lemma {:induction false} SessionMaxIsMax(start: nat, ws: seq<StripeEvent>)
    requires start <= 3
    ensures SessionMax(start, ws) <= 3 && (SessionMax(start, ws) == 3 <==> start == 3)
    ensures MaxRank(start, ws) == if HasRefund(ws) then 3 else SessionMax(start, ws)
    decreases |ws|
  {
    hide MaxRank, HasRefund;
    if ws == [] {
      assert MaxRank(start, []) == start && !HasRefund([]) by { EmptyList(start); }
    } else {
      SessionMaxIsMax(start, ws[..|ws| - 1]);
      HasRefundOneMore(ws);
      MaxRankOneMore(start, ws);
    }
  }

  lemma EmptyList(start: nat)
    ensures MaxRank(start, []) == start && !HasRefund([])
  {
  }

  /** What one event does to the row. */
  ghost predicate Advances(row: Payment, next: Payment, intent: Id, ev: StripeEvent) {
    var r := Rank(row.status);
    && next == row.(status := next.status, paymentIntent := next.paymentIntent)
    && Rank(next.status) ==
         (if SessionRank(ev) > r || (IsRefund(ev) && row.paymentIntent.Some?) then RankOf(ev) else r)
    && next.paymentIntent == if SessionRank(ev) > r && CarriesIntent(ev) then Some(intent) else row.paymentIntent
  }

  lemma StandsStart(was: Payment, intent: Id)
    requires was.paymentIntent.None?
    ensures Stands(was, was, intent, [])
  {
  }

  lemma StandsNext(was: Payment, row: Payment, next: Payment, intent: Id, ws: seq<StripeEvent>)
    requires ws != [] && was.paymentIntent.None?
    requires Stands(row, was, intent, ws[..|ws| - 1]) && Advances(row, next, intent, ws[|ws| - 1])
    ensures Stands(next, was, intent, ws)
  {
    hide Stores, RefundHeard, IsRefund, SessionRank, CarriesIntent;
    var n, start := |ws| - 1, Rank(was.status);
    StoresOneMore(start, ws);
    HeardOneMore(start, ws);
    HeardMeansStored(start, ws[..n]);
    RefundsAreNoSessions(ws[n]);
  }

  lemma RefundsAreNoSessions(ev: StripeEvent)
    ensures IsRefund(ev) ==> SessionRank(ev) == 0 && RankOf(ev) == 3
    ensures SessionRank(ev) <= 2 && (SessionRank(ev) > 0 ==> SessionRank(ev) == RankOf(ev))
  {
  }

  lemma {:induction false} WebhooksStand(ps: Payments, p: Id, session: Id, intent: Id, ws: seq<StripeEvent>)
    requires Lonely(ps, p, session, intent) && ps[p].paymentIntent.None? && AllAbout(ws, session, intent)
    ensures
      var qs := RunWebhooks(ps, ws).0;
      Lonely(qs, p, session, intent) && Stands(qs[p], ps[p], intent, ws)
    decreases |ws|
  {
    assert p in ps;
    hide AfterWebhook, About, Stands, Advances, UniqueKeys;
    if ws == [] {
      StandsStart(ps[p], intent);
    } else {
      var n := |ws| - 1;
      assert ws == ws[..n] + [ws[n]];
      WebhooksStand(ps, p, session, intent, ws[..n]);
      var qs := RunWebhooks(ps, ws[..n]).0;
      OneMore(qs, p, session, intent, ws[n]);
      StandsNext(ps[p], qs[p], AfterWebhook(qs, ws[n]).0[p], intent, ws);
    }
  }

  lemma RefundHeardHasRefund(start: nat, ws: seq<StripeEvent>)
    ensures RefundHeard(start, ws) ==> HasRefund(ws)
  {
  }

  /** Which lists converge when the intent is not stored yet: the final status is the greatest outcome
      if and only if the payment was refunded already, or the list holds no refund, or one of its refunds
      comes after an event that stores the intent. */
  lemma ListConvergesIff(ps: Payments, p: Id, session: Id, intent: Id, ws: seq<StripeEvent>)
    requires Lonely(ps, p, session, intent) && ps[p].paymentIntent.None? && AllAbout(ws, session, intent)
    ensures
      var qs, start := RunWebhooks(ps, ws).0, Rank(ps[p].status);
      && p in qs
      && (Rank(qs[p].status) == MaxRank(start, ws) <==>
            ps[p].status == REFUNDED || !HasRefund(ws) || RefundHeard(start, ws))
  {
    hide RunWebhooks, StoresIntent, MaxRank, SessionMax, HasRefund, RefundHeard, UniqueKeys;
    RefundHeardHasRefund(Rank(ps[p].status), ws);
    WebhooksStand(ps, p, session, intent, ws);
    SessionMaxIsMax(Rank(ps[p].status), ws);
  }

  // ---- one event, seen from the payments ----

  /** The event refers to this payment: by its checkout session, or by its intent for a refund. */
  predicate Concerns(ev: StripeEvent, row: Payment) {
    match ev
    case SessionCompleted(s, _, _, _) => row.checkoutSession == Some(s)
    case SessionFailed(s, _, _) => row.checkoutSession == Some(s)
    case ChargeRefunded(_, i, _) => i.Some? && row.paymentIntent == i
    case OtherEvent => false
  }

  /** An event asks for a transition of payment p to a status exactly when it reports that status, it
      concerns p, and the status is higher than the one p has; and it is refused exactly when it
      reports a status and concerns no payment. */
  lemma TransitionIff(ps: Payments, ev: StripeEvent, p: Id, status: PaymentStatus)
    requires UniqueKeys(ps)
    ensures
      var m := MapWebhook(ps, ev);
      && ((m.Ok? && m.value.Some? && m.value.value.payment == p && m.value.value.status == status) <==>
            (&& p in ps && Reported(ev) == Some(status) && Concerns(ev, ps[p])
             && Rank(ps[p].status) < Rank(status)))
      && (m.Err? <==> Reported(ev).Some? && forall q :: q in ps ==> !Concerns(ev, ps[q]))
  {
    if p in ps && Reported(ev).Some? && Concerns(ev, ps[p]) {
      match ev
      case SessionCompleted(s, _, _, _) => assert FindBySession(ps, s) == Some(p);
      case SessionFailed(s, _, _) => assert FindBySession(ps, s) == Some(p);
      case ChargeRefunded(_, i, _) => assert FindByIntent(ps, i.value) == Some(p);
    }
  }

  /** The event carries an intent that another payment has. */
  ghost predicate IntentTaken(ps: Payments, ev: StripeEvent, p: Id) {
    CarriesIntent(ev) && exists q :: q in ps && q != p && ps[q].paymentIntent == ev.intent
  }

  /** A webhook is refused exactly when it reports a status and either concerns no payment, or would move
      the one that it concerns onto an intent that another payment has. */
  lemma WebhookRefusedIff(ps: Payments, ev: StripeEvent)
    requires UniqueKeys(ps)
    ensures HandleWebhook(ps, ev).Err? <==>
              && Reported(ev).Some?
              && forall p :: p in ps && Concerns(ev, ps[p]) ==>
                   Rank(ps[p].status) < Rank(Reported(ev).value) && IntentTaken(ps, ev, p)
  {
    var m := MapWebhook(ps, ev);
    if m.Ok? && m.value.Some? {
      var t := m.value.value;
      TransitionIff(ps, ev, t.payment, t.status);
      assert Collides(ps, t.payment, Moved(ps[t.payment], t)) <==> IntentTaken(ps, ev, t.payment);
      OneConcerned(ps, ev, t.payment);
    } else if m.Ok? && Reported(ev).Some? {
      TransitionIff(ps, ev, 0, Reported(ev).value);
      var p :| p in ps && Concerns(ev, ps[p]);
      TransitionIff(ps, ev, p, Reported(ev).value);
    } else if m.Err? {
      TransitionIff(ps, ev, 0, FAILED);
    }
  }

  lemma OneConcerned(ps: Payments, ev: StripeEvent, p: Id)
    requires UniqueKeys(ps) && p in ps && Concerns(ev, ps[p])
    ensures forall q :: q in ps && Concerns(ev, ps[q]) ==> q == p
  {
  }
}
