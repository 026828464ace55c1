/** User connections: one row per pair of users, an upsert that doubles as mutual acceptance, and the
    views over the table.  User ids are compared as localeCompare orders them; that order is the
    order of the integers here. */
module Connections {
  import opened Prelude

  datatype ConnectionStatus = PENDING | ACCEPTED

  datatype Connection = Connection(
    userId1: Id, userId2: Id, requesterId: Id, status: ConnectionStatus, createdAt: int, updatedAt: int)

  type Table = map<Id, Connection>

  datatype ConnectionEvent =
    | Requested(connectionId: Id, requesterId: Id, recipientId: Id)
    | Accepted(connectionId: Id, requesterId: Id, accepterId: Id)
    | Rejected(connectionId: Id, rejecterId: Id, requesterId: Id)

  datatype State = State(users: set<Id>, table: Table, outbox: seq<ConnectionEvent>)

  /** The entity's constructor stores the pair in order. */
  function NewConnection(requester: Id, recipient: Id, now: int): Connection {
    if requester < recipient then Connection(requester, recipient, requester, PENDING, now, now)
    else Connection(recipient, requester, requester, PENDING, now, now)
  }

  function OtherSide(c: Connection): Id {
    if c.userId1 == c.requesterId then c.userId2 else c.userId1
  }

  // ---- the table ----

  ghost predicate UniquePairs(t: Table) {
    forall i, j :: i in t && j in t && i != j ==> !(t[i].userId1 == t[j].userId1 && t[i].userId2 == t[j].userId2)
  }

  ghost function FindPair(t: Table, u: Id, v: Id): (r: Option<Id>)
    ensures r.Some? ==> r.value in t && t[r.value].userId1 == u && t[r.value].userId2 == v
    ensures r.None? ==> forall i :: i in t ==> !(t[i].userId1 == u && t[i].userId2 == v)
  {
    if i :| i in t && t[i].userId1 == u && t[i].userId2 == v then Some(i) else None
  }

  /** The upsert: a pair that is new is inserted; a known pair is accepted unless the request comes
      from its original requester, in which case no row comes back and the mapper throws. */
  ghost function Upsert(s: State, id: Id, c: Connection, now: int): Outcome<(Table, Id)> {
    match FindPair(s.table, c.userId1, c.userId2)
    case Some(i) =>
      if s.table[i].requesterId == c.requesterId then Err(Database)
      else Ok((s.table[i := s.table[i].(status := ACCEPTED, updatedAt := now)], i))
    case None =>
      if id in s.table || c.userId1 !in s.users || c.userId2 !in s.users then Err(Database)
      else Ok((s.table[id := c], id))
  }

  // ---- the use cases ----

  ghost function SendRequest(s: State, id: Id, requester: Id, recipient: Id, now: int): Outcome<State> {
    if requester == recipient then Err(Conflict)
    else match Upsert(s, id, NewConnection(requester, recipient, now), now)
      case Err(e) => Err(e)
      case Ok((t, i)) =>
        if t[i].status == ACCEPTED then
          if t[i].requesterId !in s.users || OtherSide(t[i]) !in s.users then Err(NotFound)
          else Ok(s.(table := t, outbox := s.outbox + [Accepted(i, t[i].requesterId, OtherSide(t[i]))]))
        else if requester !in s.users || recipient !in s.users then Err(NotFound)
        else Ok(s.(table := t, outbox := s.outbox + [Requested(i, t[i].requesterId, recipient)]))
  }

  function Accept(s: State, id: Id, userId: Id, now: int): Outcome<State> {
    if id !in s.table then Err(NotFound)
    else
      var c := s.table[id];
      if OtherSide(c) != userId then Err(Forbidden)
      else if c.status == ACCEPTED then Ok(s)
      else if OtherSide(c) !in s.users || c.requesterId !in s.users then Err(NotFound)
      else Ok(s.(table := s.table[id := c.(status := ACCEPTED, updatedAt := now)],
                 outbox := s.outbox + [Accepted(id, c.requesterId, OtherSide(c))]))
  }

  function Reject(s: State, id: Id, userId: Id): Outcome<State> {
    if id !in s.table then Err(NotFound)
    else
      var c := s.table[id];
      if OtherSide(c) != userId then Err(Forbidden)
      else if c.status == ACCEPTED then Err(Conflict)
      else if OtherSide(c) !in s.users || c.requesterId !in s.users then Err(NotFound)
      else Ok(s.(table := s.table - {id}, outbox := s.outbox + [Rejected(id, OtherSide(c), c.requesterId)]))
  }

  datatype Action =
    | Register(userId: Id)
    | Send(id: Id, requester: Id, recipient: Id, now: int)
    | AcceptRequest(id: Id, userId: Id, now: int)
    | RejectRequest(id: Id, userId: Id)

  /** The user on whose behalf an action is called. */
  function Actor(a: Action): Id {
    match a
    case Register(u) => u
    case Send(_, requester, _, _) => requester
    case AcceptRequest(_, u, _) => u
    case RejectRequest(_, u) => u
  }

  /** One action; an error rolls everything back. */
  ghost function Do(s: State, a: Action): State {
    match a
    case Register(u) => s.(users := s.users + {u})
    case Send(id, requester, recipient, now) => Committed(s, SendRequest(s, id, requester, recipient, now))
    case AcceptRequest(id, u, now) => Committed(s, Accept(s, id, u, now))
    case RejectRequest(id, u) => Committed(s, Reject(s, id, u))
  }

  function Committed(s: State, o: Outcome<State>): State {
    if o.Ok? then o.value else s
  }

  // ---- what every action keeps ----

  predicate Normalized(c: Connection) {
    c.userId1 < c.userId2 && (c.requesterId == c.userId1 || c.requesterId == c.userId2)
  }

  ghost predicate Inv(s: State) {
    && UniquePairs(s.table)
    && forall i :: i in s.table ==>
         Normalized(s.table[i]) && s.table[i].userId1 in s.users && s.table[i].userId2 in s.users
  }

  /** How the rows may change: an accepted row stays accepted for good, with its pair and requester;
      a row is accepted only by an action of the user who did not request it; and a pending row goes
      away only when that user rejects it. */
  ghost predicate RowsMove(s: State, t: State, actor: Id) {
    && (forall i :: i in s.table && i in t.table ==>
          && t.table[i] == s.table[i].(status := t.table[i].status, updatedAt := t.table[i].updatedAt)
          && (s.table[i].status == ACCEPTED ==> t.table[i].status == ACCEPTED)
          && (t.table[i].status == ACCEPTED && s.table[i].status == PENDING ==> actor == OtherSide(s.table[i])))
    && (forall i :: i in s.table && i !in t.table ==> s.table[i].status == PENDING && actor == OtherSide(s.table[i]))
    && (forall i :: i in t.table && i !in s.table ==> t.table[i].status == PENDING && t.table[i].requesterId == actor)
  }

  lemma SendKeeps(s: State, id: Id, requester: Id, recipient: Id, now: int)
    requires Inv(s)
    ensures Inv(Do(s, Send(id, requester, recipient, now)))
    ensures RowsMove(s, Do(s, Send(id, requester, recipient, now)), requester)
  {
  }

  lemma StepKeeps(s: State, a: Action)
    requires Inv(s)
    ensures Inv(Do(s, a)) && RowsMove(s, Do(s, a), Actor(a))
  {
    match a
    case Send(id, requester, recipient, now) => SendKeeps(s, id, requester, recipient, now);
    case _ =>
  }

  ghost function Run(s: State, actions: seq<Action>): State
    decreases |actions|
  {
    if actions == [] then s else Run(Do(s, actions[0]), actions[1..])
  }

  const EMPTY := State({}, map[], [])

  lemma EmptyOk()
    ensures Inv(EMPTY) && Told(EMPTY)
  {
  }

  /** After every run there is at most one row per unordered pair, every row is normalized, and an
      accepted row is never undone or deleted. */
  lemma {:induction false} RunKeeps(s: State, actions: seq<Action>)
    requires Inv(s)
    ensures Inv(Run(s, actions))
    ensures forall i :: i in s.table && s.table[i].status == ACCEPTED ==>
              && i in Run(s, actions).table && Run(s, actions).table[i].status == ACCEPTED
              && Run(s, actions).table[i].requesterId == s.table[i].requesterId
              && Run(s, actions).table[i].userId1 == s.table[i].userId1
              && Run(s, actions).table[i].userId2 == s.table[i].userId2
    decreases |actions|
  {
    if actions != [] {
      StepKeeps(s, actions[0]);
      RunKeeps(Do(s, actions[0]), actions[1..]);
    }
  }

  /** Action a accepts the pending row i: other, the user who did not request the connection, calls
      it, and it is that user's own request or an acceptance of row i. */
  ghost predicate Accepts(s: State, a: Action, i: Id, other: Id) {
    && i in s.table && s.table[i].status == PENDING && OtherSide(s.table[i]) == other == Actor(a)
    && i in Do(s, a).table && Do(s, a).table[i].status == ACCEPTED
    && (if a.Send? then a.recipient == s.table[i].requesterId else a.AcceptRequest? && a.id == i)
  }

  lemma AcceptedByStep(s: State, a: Action, i: Id)
    requires Inv(s) && i in Do(s, a).table && Do(s, a).table[i].status == ACCEPTED
    requires i in s.table ==> s.table[i].status == PENDING
    ensures Accepts(s, a, i, OtherSide(Do(s, a).table[i]))
  {
    StepKeeps(s, a);
  }

  /** Acceptance over whole runs: a row that is accepted at the end and was not at the start was
      accepted by one particular action on the way, called by the user who did not request it. */
  lemma {:induction false} AcceptanceNeedsTheOtherSide(s: State, actions: seq<Action>, i: Id)
    requires Inv(s) && i in Run(s, actions).table && Run(s, actions).table[i].status == ACCEPTED
    requires i in s.table ==> s.table[i].status == PENDING
    ensures exists k :: 0 <= k < |actions| &&
              Accepts(Run(s, actions[..k]), actions[k], i, OtherSide(Run(s, actions).table[i]))
    decreases |actions|
  {
    hide Accepts, Inv, Do;
    var next, rest, other := Do(s, actions[0]), actions[1..], OtherSide(Run(s, actions).table[i]);
    StepKeeps(s, actions[0]);
    if i in next.table && next.table[i].status == ACCEPTED {
      RunKeeps(next, rest);
      AcceptedByStep(s, actions[0], i);
      assert Accepts(Run(s, actions[..0]), actions[0], i, other);
    } else {
      AcceptanceNeedsTheOtherSide(next, rest, i);
      var k :| 0 <= k < |rest| && Accepts(Run(next, rest[..k]), rest[k], i, other);
      assert actions[..k + 1][1..] == rest[..k];
      assert Accepts(Run(s, actions[..k + 1]), actions[k + 1], i, other);
    }
  }

  // ---- the outbox tells the table ----

  datatype Known = Known(requesterId: Id, otherId: Id, status: ConnectionStatus)

  function Learn(known: map<Id, Known>, e: ConnectionEvent): map<Id, Known> {
    match e
    case Requested(i, requester, recipient) => known[i := Known(requester, recipient, PENDING)]
    case Accepted(i, requester, accepter) => known[i := Known(requester, accepter, ACCEPTED)]
    case Rejected(i, _, _) => known - {i}
  }

  /** What a consumer of the outbox knows after reading these events in their order. */
  function Replay(events: seq<ConnectionEvent>): map<Id, Known> {
    if events == [] then map[] else Learn(Replay(events[..|events| - 1]), events[|events| - 1])
  }

  lemma ReplayOne(events: seq<ConnectionEvent>, e: ConnectionEvent)
    ensures Replay(events + [e]) == Learn(Replay(events), e)
  {
    assert (events + [e])[..|events|] == events;
  }

  ghost predicate Told(s: State) {
    Replay(s.outbox) == map i | i in s.table :: Known(s.table[i].requesterId, OtherSide(s.table[i]), s.table[i].status)
  }

  lemma StepTells(s: State, a: Action)
    requires Inv(s) && Told(s)
    ensures Told(Do(s, a))
  {
    hide Replay;
    var t := Do(s, a);
    if t.outbox != s.outbox {
      ReplayOne(s.outbox, t.outbox[|s.outbox|]);
    }
  }

  /** The events written with the changes are enough to rebuild the table: after every run, replaying
      the outbox gives each connection with its requester, the other side and the status. */
  lemma {:induction false} OutboxTellsTable(s: State, actions: seq<Action>)
    requires Inv(s) && Told(s)
    ensures Told(Run(s, actions))
    decreases |actions|
  {
    if actions != [] {
      StepKeeps(s, actions[0]);
      StepTells(s, actions[0]);
      OutboxTellsTable(Do(s, actions[0]), actions[1..]);
    }
  }

  /** A repeated request by the original requester throws and changes neither table nor outbox,
      whatever the state of the connection. */
  lemma RepeatedRequestIsNoOp(s: State, id: Id, fresh_: Id, requester: Id, recipient: Id, now: int)
    requires Inv(s) && id in s.table && s.table[id].requesterId == requester
    requires OtherSide(s.table[id]) == recipient
    ensures SendRequest(s, fresh_, requester, recipient, now) == Err(Database)
    ensures Do(s, Send(fresh_, requester, recipient, now)) == s
  {
    var c := NewConnection(requester, recipient, now);
    assert c.userId1 == s.table[id].userId1 && c.userId2 == s.table[id].userId2;
    assert FindPair(s.table, c.userId1, c.userId2) == Some(id);
  }

  /** Requests that cross are an acceptance: after a request, a request in the other direction
      connects the two users, whichever ids and times are involved. */
  lemma CrossingRequestsConnect(s: State, i: Id, j: Id, a: Id, b: Id, t: int, u: int)
    requires Inv(s) && a != b && a in s.users && b in s.users && i !in s.table
    requires StatusOf(s.table, a, b) == NONE
    ensures
      var v := Do(Do(s, Send(i, a, b, t)), Send(j, b, a, u));
      StatusOf(v.table, a, b) == CONNECTED && i in v.table && v.table[i].requesterId == a
  {
    var c := NewConnection(a, b, t);
    StatusFindsPair(s.table, a, b);
    var mid := Do(s, Send(i, a, b, t));
    assert mid.table == s.table[i := c];
    SendKeeps(s, i, a, b, t);
    assert FindPair(mid.table, c.userId1, c.userId2) == Some(i);
    var v := Do(mid, Send(j, b, a, u));
    SendKeeps(mid, j, b, a, u);
    assert v.table == mid.table[i := c.(status := ACCEPTED, updatedAt := u)];
    assert FindPair(v.table, c.userId1, c.userId2) == Some(i);
  }

  // ---- the views ----

  datatype ViewStatus = NONE | CONNECTED | PENDING_SENT | PENDING_RECEIVED

  function RowStatusFor(c: Connection, userId: Id): ViewStatus {
    if c.status == ACCEPTED then CONNECTED
    else if c.requesterId == userId then PENDING_SENT else PENDING_RECEIVED
  }

  /** GetConnectionStatusToUser */
  ghost function StatusOf(t: Table, userId: Id, targetId: Id): ViewStatus {
    var r := if userId < targetId then FindPair(t, userId, targetId) else FindPair(t, targetId, userId);
    if r.None? then NONE else RowStatusFor(t[r.value], userId)
  }

  lemma StatusFindsPair(t: Table, a: Id, b: Id)
    requires a != b
    ensures StatusOf(t, a, b) == NONE <==>
      var c := NewConnection(a, b, 0);
      forall i :: i in t ==> !(t[i].userId1 == c.userId1 && t[i].userId2 == c.userId2)
  {
  }

  function Mirrored(v: ViewStatus): ViewStatus {
    match v
    case PENDING_SENT => PENDING_RECEIVED
    case PENDING_RECEIVED => PENDING_SENT
    case _ => v
  }

  /** The two directions of the status view mirror each other. */
  lemma StatusMirrors(s: State, a: Id, b: Id)
    requires Inv(s)
    ensures StatusOf(s.table, b, a) == Mirrored(StatusOf(s.table, a, b))
  {
  }

  // ---- when an action succeeds, and what it writes ----

  /** Row i is the row of the two users. */
  predicate IsRowOf(t: Table, i: Id, a: Id, b: Id) {
    i in t && ((t[i].userId1 == a && t[i].userId2 == b) || (t[i].userId1 == b && t[i].userId2 == a))
  }

  lemma RowOfFound(s: State, i: Id, a: Id, b: Id)
    requires Inv(s) && IsRowOf(s.table, i, a, b)
    ensures a != b
    ensures (if a < b then FindPair(s.table, a, b) else FindPair(s.table, b, a)) == Some(i)
    ensures StatusOf(s.table, a, b) == RowStatusFor(s.table[i], a)
  {
  }

  /** A request to a user whom nothing links to the requester succeeds exactly for two known users and a
      fresh id; it writes one pending row, in the order of the ids and with the times of the request, and
      one event. */
  lemma FirstRequestIff(s: State, id: Id, a: Id, b: Id, now: int)
    requires Inv(s) && a != b && StatusOf(s.table, a, b) == NONE
    ensures
      var o := SendRequest(s, id, a, b, now);
      && (o.Ok? <==> a in s.users && b in s.users && id !in s.table)
      && (o.Err? ==> o.error == Database)
      && (o.Ok? ==>
            && o.value.users == s.users && o.value.outbox == s.outbox + [Requested(id, a, b)]
            && id in o.value.table && o.value.table == s.table[id := o.value.table[id]]
            && var row := o.value.table[id];
            && row.userId1 < row.userId2 && {row.userId1, row.userId2} == {a, b}
            && row.requesterId == a && row.status == PENDING && row.createdAt == now && row.updatedAt == now
            && StatusOf(o.value.table, a, b) == PENDING_SENT)
  {
    StatusFindsPair(s.table, a, b);
    var c := NewConnection(a, b, now);
    assert FindPair(s.table, c.userId1, c.userId2).None?;
    var o := SendRequest(s, id, a, b, now);
    if o.Ok? {
      SendKeeps(s, id, a, b, now);
      assert o.value.table == s.table[id := c];
      assert IsRowOf(o.value.table, id, a, b);
      RowOfFound(o.value, id, a, b);
    }
  }

  /** A request to a user with whom there is a row succeeds exactly when the row was requested by the other
      one; it accepts the row, pending or not, as of the time of the request, and writes one event. */
  lemma RequestBackIff(s: State, id: Id, i: Id, a: Id, b: Id, now: int)
    requires Inv(s) && IsRowOf(s.table, i, a, b)
    ensures
      var o := SendRequest(s, id, a, b, now);
      && (o.Ok? <==> s.table[i].requesterId == b)
      && (o.Err? ==> o.error == Database)
      && (o.Ok? ==> o.value == State(
            s.users, s.table[i := s.table[i].(status := ACCEPTED, updatedAt := now)], s.outbox + [Accepted(i, b, a)]))
  {
    RowOfFound(s, i, a, b);
    var c := NewConnection(a, b, now);
    assert FindPair(s.table, c.userId1, c.userId2) == Some(i);
  }

  /** A request to oneself is refused. */
  lemma NoSelfRequest(s: State, id: Id, a: Id, now: int)
    ensures SendRequest(s, id, a, a, now) == Err(Conflict)
  {
  }

  /** The user may answer the request: one of the two, and not the one who sent it. */
  predicate MayAnswer(t: Table, id: Id, userId: Id) {
    id in t && (t[id].userId1 == userId || t[id].userId2 == userId) && t[id].requesterId != userId
  }

  /** A request is accepted exactly by the one who may answer it.  The first time the row becomes accepted
      as of that time and one event is written, afterwards nothing changes. */
  lemma AcceptIff(s: State, id: Id, userId: Id, now: int)
    requires Inv(s)
    ensures
      var o := Accept(s, id, userId, now);
      && (o.Ok? <==> MayAnswer(s.table, id, userId))
      && (o.Err? ==> o.error == if id in s.table then Forbidden else NotFound)
      && (o.Ok? && s.table[id].status == ACCEPTED ==> o.value == s)
      && (o.Ok? && s.table[id].status == PENDING ==>
            && o.value == State(s.users, s.table[id := s.table[id].(status := ACCEPTED, updatedAt := now)],
                                s.outbox + [Accepted(id, s.table[id].requesterId, userId)])
            && StatusOf(o.value.table, userId, s.table[id].requesterId) == CONNECTED)
  {
    var o := Accept(s, id, userId, now);
    if o.Ok? {
      StepKeeps(s, AcceptRequest(id, userId, now));
      RowOfFound(o.value, id, userId, s.table[id].requesterId);
    }
  }

  /** A request is rejected exactly by the one who may answer it, and only while it is pending: the row is
      gone and one event is written. */
  lemma RejectIff(s: State, id: Id, userId: Id)
    requires Inv(s)
    ensures
      var o := Reject(s, id, userId);
      && (o.Ok? <==> MayAnswer(s.table, id, userId) && s.table[id].status == PENDING)
      && (o.Err? ==> o.error == if id !in s.table then NotFound
                                else if MayAnswer(s.table, id, userId) then Conflict else Forbidden)
      && (o.Ok? ==>
            && o.value.users == s.users
            && o.value.table == (map i | i in s.table && i != id :: s.table[i])
            && o.value.outbox == s.outbox + [Rejected(id, userId, s.table[id].requesterId)]
            && StatusOf(o.value.table, userId, s.table[id].requesterId) == NONE)
  {
    if MayAnswer(s.table, id, userId) && s.table[id].status == PENDING {
      RowOfFound(s, id, userId, s.table[id].requesterId);
    }
  }

  /** One entry of GetAllConnectedUserIds. */
  function EntryFor(c: Connection, userId: Id): (Id, ViewStatus) {
    if c.requesterId == userId then
      (if c.requesterId == c.userId1 then c.userId2 else c.userId1,
       if c.status == PENDING then PENDING_SENT else CONNECTED)
    else
      (c.requesterId, if c.status == PENDING then PENDING_RECEIVED else CONNECTED)
  }

  /** rows is an answer of findAllForUserId: the rows of the user, each once, in some order. */
  ghost predicate IsRowsOf(t: Table, userId: Id, rows: seq<Id>) {
    && (forall i :: i in rows <==> i in t && (t[i].userId1 == userId || t[i].userId2 == userId))
    && (forall j, k :: 0 <= j < k < |rows| ==> rows[j] != rows[k])
  }

  /** GetAllConnectedUserIds on that answer. */
  function AllEntries(t: Table, userId: Id, rows: seq<Id>): seq<(Id, ViewStatus)>
    requires forall k :: 0 <= k < |rows| ==> rows[k] in t
  {
    seq(|rows|, k requires 0 <= k < |rows| => EntryFor(t[rows[k]], userId))
  }

  /** The two views agree: the list of a user holds another user exactly when their status is not
      NONE, with that status, and only once. */
  lemma ViewsAgree(s: State, a: Id, rows: seq<Id>)
    requires Inv(s) && IsRowsOf(s.table, a, rows)
    ensures forall k :: 0 <= k < |rows| ==> rows[k] in s.table
    ensures
      var entries := AllEntries(s.table, a, rows);
      && (forall b, v :: (b, v) in entries <==> v != NONE && v == StatusOf(s.table, a, b))
      && (forall j, k :: 0 <= j < k < |entries| ==> entries[j].0 != entries[k].0)
  {
    forall k | 0 <= k < |rows|
      ensures rows[k] in s.table
    {
      assert rows[k] in rows;
    }
    var entries := AllEntries(s.table, a, rows);
    forall k | 0 <= k < |rows|
      ensures entries[k].1 == StatusOf(s.table, a, entries[k].0) != NONE
    {
      EntryIsStatus(s, a, rows[k]);
    }
    forall b | StatusOf(s.table, a, b) != NONE
      ensures (b, StatusOf(s.table, a, b)) in entries
    {
      var i := if a < b then FindPair(s.table, a, b).value else FindPair(s.table, b, a).value;
      assert i in rows;
      var k :| 0 <= k < |rows| && rows[k] == i;
      assert entries[k] == (b, StatusOf(s.table, a, b));
    }
    forall j, k | 0 <= j < k < |entries|
      ensures entries[j].0 != entries[k].0
    {
      assert rows[j] != rows[k];
      EntryNamesPair(s, a, rows[j]);
      EntryNamesPair(s, a, rows[k]);
    }
  }

  lemma EntryNamesPair(s: State, a: Id, i: Id)
    requires Inv(s) && i in s.table && (s.table[i].userId1 == a || s.table[i].userId2 == a)
    ensures
      var b := EntryFor(s.table[i], a).0;
      if a < b then s.table[i].userId1 == a && s.table[i].userId2 == b
      else b < a && s.table[i].userId1 == b && s.table[i].userId2 == a
  {
  }

  lemma EntryIsStatus(s: State, a: Id, i: Id)
    requires Inv(s) && i in s.table && (s.table[i].userId1 == a || s.table[i].userId2 == a)
    ensures EntryFor(s.table[i], a).1 == StatusOf(s.table, a, EntryFor(s.table[i], a).0) != NONE
  {
    EntryNamesPair(s, a, i);
    var b := EntryFor(s.table[i], a).0;
    assert (if a < b then FindPair(s.table, a, b) else FindPair(s.table, b, a)) == Some(i);
  }

  // ---- the repositories and the use cases ----

  class UserConnectionRepository {
    var rows: Table

    constructor ()
      ensures rows == map[]
    {
      rows := map[];
    }

    /** INSERT .. ON CONFLICT (user_id_1, user_id_2) DO UPDATE .. WHERE requester differs .. RETURNING */
    method UpsertRow(users: set<Id>, id: Id, connection: Connection, now: int) returns (r: Outcome<Id>)
      requires UniquePairs(rows)
      modifies this
      ensures
        var o := Upsert(State(users, old(rows), []), id, connection, now);
        match o
        case Ok(v) => rows == v.0 && r == Ok(v.1)
        case Err(e) => rows == old(rows) && r == Err(e)
    {
      if i :| i in rows && rows[i].userId1 == connection.userId1 && rows[i].userId2 == connection.userId2 {
        assert FindPair(rows, connection.userId1, connection.userId2) == Some(i);
        if rows[i].requesterId == connection.requesterId {
          return Err(Database);
        }
        rows := rows[i := rows[i].(status := ACCEPTED, updatedAt := now)];
        return Ok(i);
      }
      if id in rows || connection.userId1 !in users || connection.userId2 !in users {
        return Err(Database);
      }
      rows := rows[id := connection];
      return Ok(id);
    }
  }

  class OutboxEventRepository {
    var events: seq<ConnectionEvent>

    constructor ()
      ensures events == []
    {
      events := [];
    }

    method Create(e: ConnectionEvent)
      modifies this
      ensures events == old(events) + [e]
    {
      events := events + [e];
    }
  }

  ghost predicate Did(o: Outcome<State>, users: set<Id>, table: Table, events: seq<ConnectionEvent>, was: Table,
                      wasEvents: seq<ConnectionEvent>, r: Outcome<bool>) {
    match o
    case Ok(s) => r.Ok? && State(users, table, events) == s
    case Err(e) => r == Err(e) && table == was && events == wasEvents
  }

  /** SendConnectionRequest.exec: the transaction puts the row back when a user is not found. */
  method SendConnectionRequest(connections: UserConnectionRepository, outbox: OutboxEventRepository, users: set<Id>,
                               id: Id, requesterId: Id, recipientId: Id, now: int) returns (r: Outcome<bool>)
    requires UniquePairs(connections.rows)
    modifies connections, outbox
    ensures Did(SendRequest(State(users, old(connections.rows), old(outbox.events)), id, requesterId, recipientId, now),
                users, connections.rows, outbox.events, old(connections.rows), old(outbox.events), r)
  {
    if requesterId == recipientId {
      return Err(Conflict);
    }
    var before := connections.rows;
    var saved := connections.UpsertRow(users, id, NewConnection(requesterId, recipientId, now), now);
    if saved.Err? {
      return Err(saved.error);
    }
    var connection := connections.rows[saved.value];
    if connection.status == ACCEPTED {
      var accepter := if connection.requesterId == connection.userId1 then connection.userId2 else connection.userId1;
      if connection.requesterId !in users || accepter !in users {
        connections.rows := before;
        return Err(NotFound);
      }
      outbox.Create(Accepted(saved.value, connection.requesterId, accepter));
    } else {
      if requesterId !in users || recipientId !in users {
        connections.rows := before;
        return Err(NotFound);
      }
      outbox.Create(Requested(saved.value, connection.requesterId, recipientId));
    }
    return Ok(true);
  }

  /** AcceptConnection.exec */
  method AcceptConnection(connections: UserConnectionRepository, outbox: OutboxEventRepository, users: set<Id>,
                          id: Id, userId: Id, now: int) returns (r: Outcome<bool>)
    modifies connections, outbox
    ensures Did(Accept(State(users, old(connections.rows), old(outbox.events)), id, userId, now),
                users, connections.rows, outbox.events, old(connections.rows), old(outbox.events), r)
  {
    if id !in connections.rows {
      return Err(NotFound);
    }
    var before := connections.rows;
    var found := connections.rows[id];
    var recipientId := if found.userId1 == found.requesterId then found.userId2 else found.userId1;
    if recipientId != userId {
      return Err(Forbidden);
    }
    if found.status == ACCEPTED {
      return Ok(true);
    }
    connections.rows := connections.rows[id := found.(status := ACCEPTED, updatedAt := now)];
    if recipientId !in users || found.requesterId !in users {
      connections.rows := before;
      return Err(NotFound);
    }
    outbox.Create(Accepted(id, found.requesterId, recipientId));
    return Ok(true);
  }

  /** RejectConnection.exec */
  method RejectConnection(connections: UserConnectionRepository, outbox: OutboxEventRepository, users: set<Id>,
                          id: Id, userId: Id) returns (r: Outcome<bool>)
    modifies connections, outbox
    ensures Did(Reject(State(users, old(connections.rows), old(outbox.events)), id, userId),
                users, connections.rows, outbox.events, old(connections.rows), old(outbox.events), r)
  {
    if id !in connections.rows {
      return Err(NotFound);
    }
    var before := connections.rows;
    var found := connections.rows[id];
    var recipientId := if found.userId1 == found.requesterId then found.userId2 else found.userId1;
    if recipientId != userId {
      return Err(Forbidden);
    }
    if found.status == ACCEPTED {
      return Err(Conflict);
    }
    connections.rows := connections.rows - {id};
    if recipientId !in users || found.requesterId !in users {
      connections.rows := before;
      return Err(NotFound);
    }
    outbox.Create(Rejected(id, recipientId, found.requesterId));
    return Ok(true);
  }
}
