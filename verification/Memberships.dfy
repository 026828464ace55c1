/** Cohort memberships: the entity, its transitions on payment events, and the seats they hold. */
module Memberships {
  import opened Prelude

  datatype MembershipStatus =
    PendingPayment | Active | PaymentFailed | Expired | Dropped | Refunded | AwaitingReconciliation

  datatype Membership = Membership(
    cohortId: Id, userId: Id, paymentId: Option<Id>, status: MembershipStatus,
    joinedAt: Option<int>, expiresAt: Option<int>, lastPaymentEventAt: Option<int>)

  type Memberships = map<Id, Membership>

  // ---- CohortMembership.update ----

  /** An optional argument: undefined keeps the field, null clears it. */
  datatype Field<+T> = Undefined | Null | Set(value: T)

  datatype MembershipPatch = MembershipPatch(
    paymentId: Field<Id>, status: Option<MembershipStatus>,
    joinedAt: Field<int>, expiresAt: Field<int>, lastPaymentEventAt: Field<int>)

  const NO_CHANGE := MembershipPatch(Undefined, None, Undefined, Undefined, Undefined)

  function Apply<T>(f: Field<T>, old_: Option<T>): Option<T> {
    match f case Undefined => old_ case Null => None case Set(v) => Some(v)
  }

  function Update(m: Membership, p: MembershipPatch): Membership {
    m.(paymentId := Apply(p.paymentId, m.paymentId),
       status := if p.status.Some? then p.status.value else m.status,
       joinedAt := Apply(p.joinedAt, m.joinedAt),
       expiresAt := Apply(p.expiresAt, m.expiresAt),
       lastPaymentEventAt := Apply(p.lastPaymentEventAt, m.lastPaymentEventAt))
  }

  function Later<T>(f: Field<T>, g: Field<T>): Field<T> {
    if g.Undefined? then f else g
  }

  /** Two updates in a row are one update in which the later argument wins where it is given. */
  lemma UpdatesCompose(m: Membership, p: MembershipPatch, q: MembershipPatch)
    ensures Update(Update(m, p), q) == Update(m, MembershipPatch(
      Later(p.paymentId, q.paymentId), if q.status.Some? then q.status else p.status,
      Later(p.joinedAt, q.joinedAt), Later(p.expiresAt, q.expiresAt),
      Later(p.lastPaymentEventAt, q.lastPaymentEventAt)))
  {
  }

  // ---- payment events ----

  datatype PaymentEvent = PaymentSucceeded | PaymentWasFailed | PaymentRefunded

  /** What handlePaymentSucceeded finds out before it activates a pending reservation. */
  datatype Check = Check(reservationExpired: bool, upcoming: bool, overCapacity: bool)

  function Reconcile(m: Membership, paymentId: Id, occurredAt: int): Membership {
    Update(m, NO_CHANGE.(status := Some(AwaitingReconciliation), paymentId := Set(paymentId),
                         lastPaymentEventAt := Set(occurredAt)))
  }

  /** handlePaymentSucceeded on one membership. */
  function OnSucceeded(m: Membership, paymentId: Id, occurredAt: int, check: Check): Membership {
    if m.status == Active then
      if m.paymentId == Some(paymentId) then m
      else Update(m, NO_CHANGE.(status := Some(AwaitingReconciliation), lastPaymentEventAt := Set(occurredAt)))
    else if m.status != PendingPayment || check.reservationExpired || !check.upcoming || check.overCapacity then
      Reconcile(m, paymentId, occurredAt)
    else
      Update(m, MembershipPatch(Set(paymentId), Some(Active), Set(occurredAt), Null, Set(occurredAt)))
  }

  /** applyPaymentOutcome on one membership; target is PaymentFailed or Refunded. */
  function OnOutcome(m: Membership, paymentId: Id, occurredAt: int, target: MembershipStatus): Membership {
    if m.status == target && m.paymentId == Some(paymentId) then m
    else if (target == PaymentFailed && m.status == Active) ||
            (target == Refunded && m.status != Active && m.status != Refunded) then
      Reconcile(m, paymentId, occurredAt)
    else
      Update(m, NO_CHANGE.(status := Some(target), paymentId := Set(paymentId), expiresAt := Null,
                           lastPaymentEventAt := Set(occurredAt)))
  }

  function OnEvent(m: Membership, o: PaymentEvent, paymentId: Id, occurredAt: int, check: Check): Membership {
    match o
    case PaymentSucceeded => OnSucceeded(m, paymentId, occurredAt, check)
    case PaymentWasFailed => OnOutcome(m, paymentId, occurredAt, PaymentFailed)
    case PaymentRefunded => OnOutcome(m, paymentId, occurredAt, Refunded)
  }

  /** What handling an event of its own payment makes of a membership m, over all its statuses.  activates:
      a success finds the reservation unexpired, the cohort not started and the seats within bounds. */
  predicate Handled(m: Membership, n: Membership, o: PaymentEvent, at: int, activates: bool) {
    var reconciled := m.(status := AwaitingReconciliation, lastPaymentEventAt := Some(at));
    match (o, m.status)
    case (PaymentSucceeded, Active) => n == m
    case (PaymentSucceeded, PendingPayment) =>
      n == if !activates then reconciled
           else m.(status := Active, joinedAt := Some(at), expiresAt := None, lastPaymentEventAt := Some(at))
    case (PaymentSucceeded, _) => n == reconciled
    case (PaymentWasFailed, PaymentFailed) => n == m
    case (PaymentWasFailed, Active) => n == reconciled
    case (PaymentWasFailed, _) =>
      n == m.(status := PaymentFailed, expiresAt := None, lastPaymentEventAt := Some(at))
    case (PaymentRefunded, Refunded) => n == m
    case (PaymentRefunded, Active) =>
      n == m.(status := Refunded, expiresAt := None, lastPaymentEventAt := Some(at))
    case (PaymentRefunded, _) => n == reconciled
  }

  lemma EventHandled(m: Membership, o: PaymentEvent, paymentId: Id, at: int, check: Check)
    requires m.paymentId == Some(paymentId)
    ensures Handled(m, OnEvent(m, o, paymentId, at, check), o, at,
                    !check.reservationExpired && check.upcoming && !check.overCapacity)
  {
  }

  /** When the first and the second handling of one event may find out different things (the clock
      has moved on), the second still leaves the record alone exactly unless it is a failure of an
      active membership: that one goes to reconciliation first and to payment_failed next. */
  lemma RedeliveryIsIdempotentIff(m: Membership, o: PaymentEvent, paymentId: Id, at: int, first: Check, second: Check)
    requires m.paymentId == Some(paymentId)
    ensures
      var once := OnEvent(m, o, paymentId, at, first);
      OnEvent(once, o, paymentId, at, second) == once <==> !(o == PaymentWasFailed && m.status == Active)
  {
  }

  /** The membership is active, or a payment.succeeded that finds out check would make it so. */
  predicate ActiveOnceTold(m: Membership, check: Check) {
    m.status == Active ||
    (m.status == PendingPayment && !check.reservationExpired && check.upcoming && !check.overCapacity)
  }

  /** Whether two different events about one payment end in the same status in both orders: a success
      and a failure do exactly when the membership is active once told of the success (both orders end
      in reconciliation), a success and a refund exactly when it is not, a failure and a refund never. */
  predicate OrderIrrelevant(m: Membership, o: PaymentEvent, e: PaymentEvent, check: Check) {
    match (o, e)
    case (PaymentSucceeded, PaymentWasFailed) => ActiveOnceTold(m, check)
    case (PaymentWasFailed, PaymentSucceeded) => ActiveOnceTold(m, check)
    case (PaymentSucceeded, PaymentRefunded) => !ActiveOnceTold(m, check)
    case (PaymentRefunded, PaymentSucceeded) => !ActiveOnceTold(m, check)
    case _ => false
  }

  /** When the final status does not depend on the order of delivery.  check is what handling a success
      first finds out; what the second handling finds out is of no consequence. */
  lemma OrderMattersIff(m: Membership, o: PaymentEvent, e: PaymentEvent, paymentId: Id, oAt: int, eAt: int,
                        check: Check, second: Check, third: Check)
    requires m.paymentId == Some(paymentId) && o != e
    ensures
      var oThenE := OnEvent(OnEvent(m, o, paymentId, oAt, check), e, paymentId, eAt, second);
      var eThenO := OnEvent(OnEvent(m, e, paymentId, eAt, check), o, paymentId, oAt, third);
      oThenE.status == eThenO.status <==> OrderIrrelevant(m, o, e, check)
  {
  }

  // ---- seats ----

  /** getSeatCounts counts the membership when it reads the clock as t. */
  predicate HoldsSeat(m: Membership, t: int) {
    m.status == Active || (m.status == PendingPayment && m.expiresAt.Some? && m.expiresAt.value > t)
  }

  /** The seats of a cohort as counted with the clock read as at(i) for membership i. */
  ghost function SeatsRead(ms: Memberships, cohortId: Id, at: Id -> int): set<Id> {
    set i | i in ms && ms[i].cohortId == cohortId && HoldsSeat(ms[i], at(i))
  }

  ghost function SeatsAt(ms: Memberships, cohortId: Id, t: int): set<Id> {
    set i | i in ms && ms[i].cohortId == cohortId && HoldsSeat(ms[i], t)
  }

  ghost function MembersOf(ms: Memberships, cohortId: Id): set<Id> {
    set i | i in ms && ms[i].cohortId == cohortId
  }

  /** Counting later finds no more seats. */
  lemma SeatsShrink(ms: Memberships, cohortId: Id, t: int, u: int)
    requires t <= u
    ensures |SeatsAt(ms, cohortId, u)| <= |SeatsAt(ms, cohortId, t)|
  {
    var a, b := SeatsAt(ms, cohortId, u), SeatsAt(ms, cohortId, t);
    assert forall i :: i in a ==> i in b;
    SubsetCardinality(a, b);
  }

  /** A count whose clock readings all lie between lo and hi lies between the counts at hi and lo. */
  lemma SeatsReadBounds(ms: Memberships, cohortId: Id, at: Id -> int, lo: int, hi: int)
    requires forall i :: lo <= at(i) <= hi
    ensures |SeatsAt(ms, cohortId, hi)| <= |SeatsRead(ms, cohortId, at)| <= |SeatsAt(ms, cohortId, lo)|
  {
    var a, b, c := SeatsAt(ms, cohortId, hi), SeatsRead(ms, cohortId, at), SeatsAt(ms, cohortId, lo);
    assert forall i :: i in a ==> i in b;
    assert forall i :: i in b ==> i in c;
    SubsetCardinality(a, b);
    SubsetCardinality(b, c);
  }
}
