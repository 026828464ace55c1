/** One run of the saga, step by step: a workshop is published and gets a cohort, a student enrolls,
    the checkout fails and then succeeds, and the success is delivered before the failure.  It shows
    that the results about runs speak of something, and that their exceptions occur. */
module SagaExample {
  import opened Prelude
  import opened Memberships
  import opened Payments
  import opened CohortSchedule
  import opened Saga
  import Cat = Catalog
  import Worker = OutboxWorker
  import SessionSlots
  import ZoneOffset
  import CivilDate

  const EXPERT: Id := 10
  const STUDENT: Id := 20
  const WORKSHOP: Id := 1
  const LESSON: Id := 2
  const COHORT: Id := 3
  const MEMBERSHIP: Id := 4
  const PAYMENT: Id := 5
  const CHECKOUT: Id := 6
  const INTENT: Id := 7
  const START_DATE := "0100-00-10"
  const START := 10935 * DAY_MS + 9 * HOUR_MS

  /** Every zone is one hour ahead of UTC. */
  function Zones(): string -> ZoneOffset.Zone {
    _ => ConstantZone(60)
  }

  function Cal(): Cat.Calendar {
    Cat.CalendarOf(Zones())
  }

  /** Every reading of the clock is t. */
  function At(t: int): Readings {
    Readings(t, t, _ => t, _ => t, _ => t, t, t)
  }

  ghost predicate Leads(w: World, es: seq<Event>, v: World) {
    Runs(w, es, Cal()) && Run(w, es, Cal()) == v
  }

  lemma Stays(w: World)
    ensures Leads(w, [], w)
  {
  }

  lemma StepLeads(w: World, e: Event, u: World, es: seq<Event>, v: World)
    requires Enabled(w, e) && Do(w, e, Cal()) == u && Leads(u, es, v)
    ensures Leads(w, [e] + es, v)
  {
    hide Do, Enabled;
    assert ([e] + es)[1..] == es;
  }

  lemma {:induction false} RunLeads(w: World, es: seq<Event>, u: World, fs: seq<Event>, v: World)
    requires Leads(w, es, u) && Leads(u, fs, v)
    ensures Leads(w, es + fs, v)
    decreases |es|
  {
    hide Do, Enabled;
    if es == [] {
      assert es + fs == fs;
    } else {
      RunLeads(Do(w, es[0], Cal()), es[1..], u, fs, v);
      assert (es + fs)[1..] == es[1..] + fs;
    }
  }

  // ---- the workshop and its cohort ----

  function Lesson(title: Option<string>): CohortSchedule.Session {
    CohortSchedule.Session(LESSON, Slot(1, 3, 1), title, "10:00")
  }

  function Draft(sessions: seq<CohortSchedule.Session>, timezone: Option<string>): Cat.State {
    Cat.State(map[WORKSHOP := Cat.Workshop(EXPERT, "Drawing", 5, Cat.Draft, sessions, timezone)], map[])
  }

  const DRAFTED := Draft([], None)
  const SCHEDULED := Draft([Lesson(None)], Some("Etc/GMT-1"))
  const TITLED := Draft([Lesson(Some("Lines"))], Some("Etc/GMT-1"))
  const PUBLISHED := TITLED.(workshops := map[WORKSHOP := TITLED.workshops[WORKSHOP].(status := Cat.Published)])
  const OFFERED := PUBLISHED.(cohorts := map[COHORT := Cat.Cohort(
    WORKSHOP, EXPERT, "Etc/GMT-1", 100, "USD", START_DATE, 5, Window(START, START))])

  const DRAFTS := Cat.CreateWorkshop(WORKSHOP, EXPERT, "Drawing", 5)
  const SCHEDULES := Cat.ReplaceSessions(WORKSHOP, EXPERT, "Etc/GMT-1", [Lesson(None)])
  const TITLES := Cat.UpdateSession(WORKSHOP, EXPERT, LESSON, Some("Lines"), None)
  const PUBLISHES := Cat.PublishWorkshop(WORKSHOP, EXPERT)
  const OFFERS := Cat.CreateCohort(COHORT, EXPERT, WORKSHOP, 100, "USD", START_DATE, None)

  lemma OneSlotIsWellFormed(week: int, day: int)
    ensures SessionSlots.WellFormed([Slot(week, day, 1)])
  {
    var slots := [Slot(week, day, 1)];
    forall w, d
      ensures SessionSlots.Contiguous(SessionSlots.OrdersAt(slots, w, d))
    {
      assert slots[..0] == [];
      assert SessionSlots.OrdersAt(slots, w, d) == if w == week && d == day then [1] else [];
      assert SessionSlots.UpTo(1) == [1] && SessionSlots.UpTo(0) == [];
    }
  }

  lemma LessonsAreRequests()
    ensures Cat.IsRequest(DRAFTS) && Cat.IsRequest(SCHEDULES) && Cat.IsRequest(TITLES)
    ensures Cat.IsRequest(PUBLISHES) && Cat.IsRequest(OFFERS)
  {
    hide SessionSlots.WellFormed;
    OneSlotIsWellFormed(1, 3);
    assert SlotsOf([Lesson(None)]) == [Slot(1, 3, 1)];
    assert CivilDate.Value2("10:00", 0) == 10 && CivilDate.Value2("10:00", 3) == 0;
  }

  lemma Drafts(m: Cat.Members)
    ensures Cat.After(Cat.State(map[], map[]), DRAFTS, m, Cal()) == DRAFTED
  {
  }

  lemma Schedules(m: Cat.Members)
    ensures Cat.After(DRAFTED, SCHEDULES, m, Cal()) == SCHEDULED
  {
  }

  lemma Titles(m: Cat.Members)
    ensures Cat.After(SCHEDULED, TITLES, m, Cal()) == TITLED
  {
    var ss := [Lesson(None)];
    assert ss[0].id == LESSON;
    assert Cat.UpdatedSessions(ss, LESSON, Some("Lines"), None) == [Lesson(Some("Lines"))];
  }

  lemma Publishes(m: Cat.Members)
    ensures Cat.After(TITLED, PUBLISHES, m, Cal()) == PUBLISHED
  {
    assert "Drawing"[0] == 'D' && "Lines"[0] == 'L';
    assert !Cat.Blank("Drawing") && !Cat.Blank("Lines");
  }

  lemma Offers(m: Cat.Members)
    ensures Cat.After(PUBLISHED, OFFERS, m, Cal()) == OFFERED
  {
    hide DeriveCohortSessions, EarliestSession, CivilDate.DateOnlyWeekday;
    var ss := [Lesson(Some("Lines"))];
    YearNinetyNineDerives(LESSON, Some("Lines"));
    assert Cal().window(ss, "Etc/GMT-1", START_DATE) == WindowOf(ss, START_DATE, ConstantZone(60));
    assert WindowOf(ss, START_DATE, ConstantZone(60)) == Some(Window(START, START));
    assert Cal().startsRight(ss, START_DATE);
  }

  /** Nobody has enrolled yet. */
  function Idle(s: Cat.State): World {
    World(s, map[], map[], Worker.State([], map[], {}), 0)
  }

  function Asks(request: Cat.Request): Event {
    Manage(request, At(0))
  }

  const PREPARATION := [Asks(DRAFTS)] + ([Asks(SCHEDULES)] + ([Asks(TITLES)] +
                       ([Asks(PUBLISHES)] + ([Asks(OFFERS)] + []))))

  lemma AskLeads(s: Cat.State, request: Cat.Request, t: Cat.State, es: seq<Event>, v: World)
    requires Cat.IsRequest(request) && forall m :: Cat.After(s, request, m, Cal()) == t
    requires Leads(Idle(t), es, v)
    ensures Leads(Idle(s), [Asks(request)] + es, v)
  {
    hide Cat.After, Leads, Cat.IsRequest;
    StepLeads(Idle(s), Asks(request), Idle(t), es, v);
  }

  lemma PreparationLeads()
    ensures Leads(EMPTY, PREPARATION, Idle(OFFERED))
  {
    assert EMPTY == Idle(Cat.State(map[], map[]));
    hide Leads, Cat.After, Cat.IsRequest, Idle;
    LessonsAreRequests();
    Stays(Idle(OFFERED));
    forall m { Drafts(m); }
    forall m { Schedules(m); }
    forall m { Titles(m); }
    forall m { Publishes(m); }
    forall m { Offers(m); }
    AskLeads(PUBLISHED, OFFERS, OFFERED, [], Idle(OFFERED));
    AskLeads(TITLED, PUBLISHES, PUBLISHED, [Asks(OFFERS)] + [], Idle(OFFERED));
    AskLeads(SCHEDULED, TITLES, TITLED, [Asks(PUBLISHES)] + ([Asks(OFFERS)] + []), Idle(OFFERED));
    AskLeads(DRAFTED, SCHEDULES, SCHEDULED, [Asks(TITLES)] + ([Asks(PUBLISHES)] + ([Asks(OFFERS)] + [])),
             Idle(OFFERED));
    AskLeads(Cat.State(map[], map[]), DRAFTS, DRAFTED,
             [Asks(SCHEDULES)] + ([Asks(TITLES)] + ([Asks(PUBLISHES)] + ([Asks(OFFERS)] + []))), Idle(OFFERED));
  }

  // ---- enrollment, payment and delivery ----

  function Enrolled(status: MembershipStatus, joinedAt: Option<int>, expiresAt: Option<int>,
                    eventAt: Option<int>): Memberships {
    map[MEMBERSHIP := Membership(COHORT, STUDENT, Some(PAYMENT), status, joinedAt, expiresAt, eventAt)]
  }

  function Paid(status: PaymentStatus): Payments {
    map[PAYMENT := Payment(MEMBERSHIP, STUDENT, COHORT, 100, "USD", status, Some(CHECKOUT), Some(INTENT), Some("url"))]
  }

  function Row(name: string, status: Worker.RowStatus): Worker.Row {
    Worker.Row(name, Worker.PaymentOutcome(MEMBERSHIP, PAYMENT, STUDENT, 0), status)
  }

  const RESERVATION := Enrolled(PendingPayment, None, Some(RESERVATION_TTL_MS), None)
  const NO_WORK := Worker.State([], map[], {})
  const RESERVED := World(OFFERED, RESERVATION, Paid(PaymentStatus.PENDING), NO_WORK, 0)
  const ENROLLS := Enrolls(COHORT, STUDENT, EnrollEnv(
    At(0), MEMBERSHIP, 0, PAYMENT, StripeReply.Session(CHECKOUT, Some(INTENT), Some("url")), false))

  lemma NothingToExpire()
    ensures AfterExpiry(map[], COHORT, STUDENT, At(0)) == map[]
  {
  }

  lemma Reserves()
    ensures PlanEnrollment(OFFERED, map[], COHORT, STUDENT, ENROLLS.env) == Ok(Reserve)
  {
    assert LiveHere(map[], COHORT, STUDENT) == {};
    assert SeatsRead(map[], COHORT, At(0).seats) == {};
  }

  lemma OpensCheckout()
    ensures CreateCheckout(map[], CheckoutInput(MEMBERSHIP, STUDENT, COHORT, 100, "USD"), PAYMENT,
                           ENROLLS.env.stripe) ==
              (Paid(PaymentStatus.PENDING), Ok(Checkout(PAYMENT, Some(CHECKOUT), "url")))
  {
    var fresh_ := FreshRow(CheckoutInput(MEMBERSHIP, STUDENT, COHORT, 100, "USD"));
    var updated := Paid(PaymentStatus.PENDING)[PAYMENT];
    assert FindByMembership(map[], MEMBERSHIP).None?;
    assert !Collides(map[PAYMENT := fresh_], PAYMENT, updated);
    assert map[][PAYMENT := fresh_][PAYMENT := updated] == Paid(PaymentStatus.PENDING);
  }

  lemma EnrollsStep()
    ensures Enabled(Idle(OFFERED), ENROLLS) && Do(Idle(OFFERED), ENROLLS, Cal()) == RESERVED
  {
    hide AfterExpiry, PlanEnrollment, CreateCheckout;
    NothingToExpire();
    Reserves();
    OpensCheckout();
  }

  function Working(ms: Memberships, status: PaymentStatus, worker: Worker.State): World {
    World(OFFERED, ms, Paid(status), worker, 0)
  }

  const FAILS := Webhook(SessionFailed(CHECKOUT, Some(INTENT), 0))
  const SUCCEEDS := Webhook(SessionCompleted(CHECKOUT, true, Some(INTENT), 0))

  /** The worker on the way: a row is written, both are; they are fetched, the first is published and
      marked, the second is published. */
  const FAILURE_OUT := Worker.State([Row("payment.failed", Worker.PENDING)], map[], {})
  const BOTH_WRITTEN := Worker.State(
    [Row("payment.failed", Worker.PENDING), Row("payment.succeeded", Worker.PENDING)], map[], {})
  const FETCHED := BOTH_WRITTEN.(ticks := map[0 := Worker.Tick([0, 1], false)])
  const FIRST_SENT := FETCHED.(ticks := map[0 := Worker.Tick([0, 1], true)], published := {0})
  const FIRST_MARKED := Worker.State(
    [Row("payment.failed", Worker.PROCESSED), Row("payment.succeeded", Worker.PENDING)], map[0 := Worker.Tick([1],
        false)], {0})
  const BOTH_SENT := FIRST_MARKED.(ticks := map[0 := Worker.Tick([1], true)], published := {0, 1})

  const ACTIVE := Enrolled(Active, Some(0), None, Some(0))

  /** A webhook that moves the payment up to this status. */
  lemma MovesUp(was: PaymentStatus, ev: StripeEvent, status: PaymentStatus)
    requires (was == PaymentStatus.PENDING && ev == FAILS.event && status == FAILED) ||
             (was == FAILED && ev == SUCCEEDS.event && status == SUCCEEDED)
    ensures AfterWebhook(Paid(was), ev) == (Paid(status), [Row(EventNameOf(status), Worker.PENDING)])
  {
    var ps := Paid(was);
    assert PAYMENT in ps && ps[PAYMENT].checkoutSession == Some(CHECKOUT);
    assert FindBySession(ps, CHECKOUT) == Some(PAYMENT);
    var t := Transition(PAYMENT, status, 0, Some(INTENT));
    assert MapWebhook(ps, ev) == Ok(Some(t));
    assert Moved(ps[PAYMENT], t) == Paid(status)[PAYMENT];
    assert !Collides(ps, PAYMENT, Moved(ps[PAYMENT], t));
    assert ps[PAYMENT := Paid(status)[PAYMENT]] == Paid(status);
  }

  lemma WebhookSteps()
    ensures Do(RESERVED, FAILS, Cal()) == Working(RESERVATION, FAILED, FAILURE_OUT)
    ensures Do(Working(RESERVATION, FAILED, FAILURE_OUT), SUCCEEDS, Cal()) ==
              Working(RESERVATION, SUCCEEDED, BOTH_WRITTEN)
  {
    hide AfterWebhook;
    MovesUp(PaymentStatus.PENDING, FAILS.event, FAILED);
    MovesUp(FAILED, SUCCEEDS.event, SUCCEEDED);
  }

  lemma WorkSteps()
    ensures
      && var f := Worker.Fetch(0, [0, 1]);
      && Worker.Enabled(PAYMENT_SCHEMAS, BOTH_WRITTEN, f) && Worker.Do(PAYMENT_SCHEMAS, BOTH_WRITTEN, f) == FETCHED
      && Worker.Enabled(PAYMENT_SCHEMAS, FETCHED, Worker.Publish(0))
      && Worker.Do(PAYMENT_SCHEMAS, FETCHED, Worker.Publish(0)) == FIRST_SENT
      && Worker.Enabled(PAYMENT_SCHEMAS, FIRST_SENT, Worker.MarkSent(0))
      && Worker.Do(PAYMENT_SCHEMAS, FIRST_SENT, Worker.MarkSent(0)) == FIRST_MARKED
      && Worker.Enabled(PAYMENT_SCHEMAS, FIRST_MARKED, Worker.Publish(0))
      && Worker.Do(PAYMENT_SCHEMAS, FIRST_MARKED, Worker.Publish(0)) == BOTH_SENT
  {
  }

  lemma SeatHeld()
    ensures |SeatsRead(RESERVATION, COHORT, At(0).seats)| == 1
  {
    assert SeatsRead(RESERVATION, COHORT, At(0).seats) == {MEMBERSHIP};
  }

  lemma Delivers()
    ensures HandleMessage(OFFERED, RESERVATION, Row("payment.succeeded", Worker.PENDING), At(0)) == ACTIVE
  {
    SeatHeld();
  }

  lemma FailureDelivered(ms: Memberships)
    requires ms in {ACTIVE, Enrolled(AwaitingReconciliation, Some(0), None, Some(0))}
    ensures HandleMessage(OFFERED, ms, Row("payment.failed", Worker.PROCESSED), At(0)) ==
              Enrolled(if ms == ACTIVE then AwaitingReconciliation else PaymentFailed, Some(0), None, Some(0))
  {
  }

  /** Delivers the success. */
  const DELIVERS := Deliver(1, At(0))

  /** Delivers the failure, which was published before. */
  const DELIVERS_LATE := Deliver(0, At(0))

  const WORK := [Work(Worker.Fetch(0, [0, 1]))] + ([Work(Worker.Publish(0))] + ([Work(Worker.MarkSent(0))] +
                ([Work(Worker.Publish(0))] + [])))
  const SALE := [ENROLLS] + ([FAILS] + ([SUCCEEDS] + []))
  const EXAMPLE := PREPARATION + (SALE + (WORK + ([DELIVERS] + [])))

  const SOLD := Working(ACTIVE, SUCCEEDED, BOTH_SENT)

  lemma SaleLeads()
    ensures Leads(Idle(OFFERED), SALE, Working(RESERVATION, SUCCEEDED, BOTH_WRITTEN))
  {
    hide Leads, Do;
    EnrollsStep();
    WebhookSteps();
    var sold := Working(RESERVATION, SUCCEEDED, BOTH_WRITTEN);
    Stays(sold);
    StepLeads(Working(RESERVATION, FAILED, FAILURE_OUT), SUCCEEDS, sold, [], sold);
    StepLeads(RESERVED, FAILS, Working(RESERVATION, FAILED, FAILURE_OUT), [SUCCEEDS] + [], sold);
    StepLeads(Idle(OFFERED), ENROLLS, RESERVED, [FAILS] + ([SUCCEEDS] + []), sold);
  }

  lemma WorkerLeads(s: Worker.State, step: Worker.Step, t: Worker.State, es: seq<Event>, v: World)
    requires !step.Insert? && Worker.Enabled(PAYMENT_SCHEMAS, s, step) && Worker.Do(PAYMENT_SCHEMAS, s, step) == t
    requires Leads(Working(RESERVATION, SUCCEEDED, t), es, v)
    ensures Leads(Working(RESERVATION, SUCCEEDED, s), [Work(step)] + es, v)
  {
    hide Leads, Worker.Do, Worker.Enabled;
    StepLeads(Working(RESERVATION, SUCCEEDED, s), Work(step), Working(RESERVATION, SUCCEEDED, t), es, v);
  }

  lemma WorkLeads()
    ensures Leads(Working(RESERVATION, SUCCEEDED, BOTH_WRITTEN), WORK, Working(RESERVATION, SUCCEEDED, BOTH_SENT))
  {
    hide Leads, Worker.Do, Worker.Enabled;
    WorkSteps();
    var sent := Working(RESERVATION, SUCCEEDED, BOTH_SENT);
    var publish, mark := Worker.Publish(0), Worker.MarkSent(0);
    Stays(sent);
    WorkerLeads(FIRST_MARKED, publish, BOTH_SENT, [], sent);
    WorkerLeads(FIRST_SENT, mark, FIRST_MARKED, [Work(publish)] + [], sent);
    WorkerLeads(FETCHED, publish, FIRST_SENT, [Work(mark)] + ([Work(publish)] + []), sent);
    WorkerLeads(BOTH_WRITTEN, Worker.Fetch(0, [0, 1]), FETCHED,
                [Work(publish)] + ([Work(mark)] + ([Work(publish)] + [])), sent);
  }

  lemma ExampleLeads()
    ensures Leads(EMPTY, EXAMPLE, SOLD)
  {
    hide Leads, HandleMessage;
    var sent := Working(RESERVATION, SUCCEEDED, BOTH_SENT);
    Delivers();
    Stays(SOLD);
    StepLeads(sent, DELIVERS, SOLD, [], SOLD);
    WorkLeads();
    RunLeads(Working(RESERVATION, SUCCEEDED, BOTH_WRITTEN), WORK, sent, [DELIVERS] + [], SOLD);
    SaleLeads();
    RunLeads(Idle(OFFERED), SALE, Working(RESERVATION, SUCCEEDED, BOTH_WRITTEN), WORK + ([DELIVERS] + []), SOLD);
    PreparationLeads();
    RunLeads(EMPTY, PREPARATION, Idle(OFFERED), SALE + (WORK + ([DELIVERS] + [])), SOLD);
  }

  lemma LateStep(ms: Memberships)
    requires ms in {ACTIVE, Enrolled(AwaitingReconciliation, Some(0), None, Some(0))}
    ensures Enabled(Working(ms, SUCCEEDED, BOTH_SENT), DELIVERS_LATE)
    ensures Do(Working(ms, SUCCEEDED, BOTH_SENT), DELIVERS_LATE, Cal()) ==
              Working(Enrolled(if ms == ACTIVE then AwaitingReconciliation else PaymentFailed, Some(0), None, Some(0)),
                      SUCCEEDED, BOTH_SENT)
  {
    hide HandleMessage;
    FailureDelivered(ms);
  }

  /** The exceptions occur.  A run reaches a membership that is active and paid for while a published
      payment.failed of the same payment is still to be delivered; its first delivery moves the
      membership to reconciliation and the second one moves it on. */
  lemma ExceptionsOccur()
    ensures Cat.IsCalendar(Cal()) && Runs(EMPTY, EXAMPLE, Cal())
    ensures
      var w := Run(EMPTY, EXAMPLE, Cal());
      && MEMBERSHIP in w.memberships && w.memberships[MEMBERSHIP].status == Active
      && w.memberships[MEMBERSHIP].paymentId == Some(PAYMENT)
      && PAYMENT in w.payments && w.payments[PAYMENT].status == SUCCEEDED
      && Enabled(w, DELIVERS_LATE) && w.worker.rows[0].eventName == "payment.failed"
      && w.worker.rows[0].payload == Worker.PaymentOutcome(MEMBERSHIP, PAYMENT, STUDENT, 0)
      && var once := Do(w, DELIVERS_LATE, Cal());
      && Enabled(once, DELIVERS_LATE)
      && var twice := Do(once, DELIVERS_LATE, Cal());
      && MEMBERSHIP in once.memberships && once.memberships[MEMBERSHIP].status == AwaitingReconciliation
      && MEMBERSHIP in twice.memberships && twice.memberships[MEMBERSHIP].status == PaymentFailed
  {
    hide Leads, Do, Enabled;
    Cat.CalendarOfIsCalendar(Zones());
    ExampleLeads();
    assert Runs(EMPTY, EXAMPLE, Cal()) && Run(EMPTY, EXAMPLE, Cal()) == SOLD by { LeadsMeans(EMPTY, EXAMPLE, SOLD); }
    hide Runs, Run;
    LateStep(ACTIVE);
    LateStep(Enrolled(AwaitingReconciliation, Some(0), None, Some(0)));
  }

  lemma LeadsMeans(w: World, es: seq<Event>, v: World)
    requires Leads(w, es, v)
    ensures Runs(w, es, Cal()) && Run(w, es, Cal()) == v
  {
  }

  /** The run's cohort starts on a date that the catalog accepts and that is read back in another year,
      so that CohortDatesRight speaks of a cohort whose dates are wrong. */
  lemma WrongDatesOccur()
    ensures Runs(EMPTY, EXAMPLE, Cal())
    ensures
      var cohorts := Run(EMPTY, EXAMPLE, Cal()).catalog.cohorts;
      && COHORT in cohorts && CivilDate.ToUtcMidnight(cohorts[COHORT].startDate).Some?
      && CivilDate.YearOf(CivilDate.ToUtcMidnight(cohorts[COHORT].startDate).value) == 99
  {
    hide CivilDate.ToUtcMidnight, CivilDate.YearOf, CivilDate.FormatDateOnly, Leads;
    ExampleLeads();
    LeadsMeans(EMPTY, EXAMPLE, SOLD);
    hide Runs, Run;
    CivilDate.YearNinetyNine();
  }

  // ---- a refund, and the success once more ----

  const REFUNDED_ROWS := BOTH_SENT.rows + [Row("payment.refunded", Worker.PENDING)]
  const REFUND_WRITTEN := BOTH_SENT.(rows := REFUNDED_ROWS)
  const REFUND_FETCHED := REFUND_WRITTEN.(ticks := BOTH_SENT.ticks[1 := Worker.Tick([2], false)])
  const REFUND_SENT := REFUND_WRITTEN.(ticks := BOTH_SENT.ticks[1 := Worker.Tick([2], true)], published := {0, 1, 2})
  const GIVEN_BACK := Enrolled(Refunded, Some(0), None, Some(0))

  const REFUNDS := Webhook(ChargeRefunded(true, Some(INTENT), 0))
  const REFUND := [REFUNDS] + ([Work(Worker.Fetch(1, [2]))] + ([Work(Worker.Publish(1))] + ([Deliver(2, At(0))] + [])))

  lemma RefundSteps()
    ensures Do(SOLD, REFUNDS, Cal()) == Working(ACTIVE, REFUNDED, REFUND_WRITTEN)
    ensures Worker.Enabled(PAYMENT_SCHEMAS, REFUND_WRITTEN, Worker.Fetch(1, [2]))
    ensures Worker.Do(PAYMENT_SCHEMAS, REFUND_WRITTEN, Worker.Fetch(1, [2])) == REFUND_FETCHED
    ensures Worker.Enabled(PAYMENT_SCHEMAS, REFUND_FETCHED, Worker.Publish(1))
    ensures Worker.Do(PAYMENT_SCHEMAS, REFUND_FETCHED, Worker.Publish(1)) == REFUND_SENT
  {
    hide AfterWebhook;
    RefundMoves();
  }

  lemma RefundMoves()
    ensures AfterWebhook(Paid(SUCCEEDED), REFUNDS.event) == (Paid(REFUNDED), [Row("payment.refunded", Worker.PENDING)])
  {
    var ps := Paid(SUCCEEDED);
    assert PAYMENT in ps && ps[PAYMENT].paymentIntent == Some(INTENT);
    assert FindByIntent(ps, INTENT) == Some(PAYMENT);
    var t := Transition(PAYMENT, REFUNDED, 0, Some(INTENT));
    assert MapWebhook(ps, REFUNDS.event) == Ok(Some(t));
    assert !Collides(ps, PAYMENT, Moved(ps[PAYMENT], t));
    assert ps[PAYMENT := Moved(ps[PAYMENT], t)] == Paid(REFUNDED);
  }

  lemma RefundDelivered()
    ensures HandleMessage(OFFERED, ACTIVE, Row("payment.refunded", Worker.PENDING), At(0)) == GIVEN_BACK
    ensures HandleMessage(OFFERED, GIVEN_BACK, Row("payment.succeeded", Worker.PENDING), At(0)) ==
              Enrolled(AwaitingReconciliation, Some(0), None, Some(0))
  {
  }

  const TAKEN_BACK := Working(GIVEN_BACK, REFUNDED, REFUND_SENT)

  lemma RefundLeads()
    ensures Leads(SOLD, REFUND, TAKEN_BACK)
    ensures Enabled(TAKEN_BACK, DELIVERS)
    ensures Do(TAKEN_BACK, DELIVERS, Cal()).memberships == Enrolled(AwaitingReconciliation, Some(0), None, Some(0))
  {
    hide Leads, HandleMessage, Worker.Do, Worker.Enabled, AfterWebhook;
    RefundSteps();
    RefundDelivered();
    var fetch, publish := Work(Worker.Fetch(1, [2])), Work(Worker.Publish(1));
    var sent := Working(ACTIVE, REFUNDED, REFUND_SENT);
    Stays(TAKEN_BACK);
    StepLeads(sent, Deliver(2, At(0)), TAKEN_BACK, [], TAKEN_BACK);
    StepLeads(Working(ACTIVE, REFUNDED, REFUND_FETCHED), publish, sent, [Deliver(2, At(0))] + [], TAKEN_BACK);
    StepLeads(Working(ACTIVE, REFUNDED, REFUND_WRITTEN), fetch, Working(ACTIVE, REFUNDED, REFUND_FETCHED),
              [publish] + ([Deliver(2, At(0))] + []), TAKEN_BACK);
    StepLeads(SOLD, REFUNDS, Working(ACTIVE, REFUNDED, REFUND_WRITTEN),
              [fetch] + ([publish] + ([Deliver(2, At(0))] + [])), TAKEN_BACK);
  }

  /** A repeated success can undo a refund: in the run that goes on with a refund, the success delivered
      before is delivered again and moves the refunded membership to reconciliation. */
  lemma RepeatedSuccessOccurs()
    ensures Runs(EMPTY, EXAMPLE + REFUND, Cal()) && DELIVERS in EXAMPLE
    ensures
      var v := Run(EMPTY, EXAMPLE + REFUND, Cal());
      && MEMBERSHIP in v.memberships && v.memberships[MEMBERSHIP].status == Refunded
      && Enabled(v, DELIVERS) && v.worker.rows[1].eventName == "payment.succeeded"
      && var after := Do(v, DELIVERS, Cal()).memberships;
      MEMBERSHIP in after && after[MEMBERSHIP].status == AwaitingReconciliation
  {
    hide Leads, Do, Enabled;
    ExampleLeads();
    RefundLeads();
    RunLeads(EMPTY, EXAMPLE, SOLD, REFUND, TAKEN_BACK);
    LeadsMeans(EMPTY, EXAMPLE + REFUND, TAKEN_BACK);
    hide Runs, Run;
    assert EXAMPLE[|EXAMPLE| - 1] == DELIVERS;
  }
}
