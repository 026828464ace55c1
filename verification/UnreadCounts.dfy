/** Unread notification counts: the stored count per user and the Redis counter in front of it
    (NotificationService, UnreadNotificationCountService, RedisUnreadNotificationCountCache). */
module UnreadCounts {
  import opened Prelude

  datatype Notification = Notification(recipientId: Id, isRead: bool)

  /** A counter key with its value and, if it has a time to live, the instant it expires. */
  datatype Entry = Entry(value: int, expiresAt: Option<int>)

  const TTL_MS := 30 * 60 * 1000

  /** counts holds the unread-count documents. */
  datatype State = State(notifications: map<Id, Notification>, counts: map<Id, int>, cache: map<Id, Entry>, clock: int)

  ghost function Unread(ns: map<Id, Notification>, userId: Id): set<Id> {
    set n | n in ns && ns[n].recipientId == userId && !ns[n].isRead
  }

  /** The stored count; an absent document means zero. */
  function Stored(s: State, userId: Id): int {
    if userId in s.counts then s.counts[userId] else 0
  }

  // ---- the Redis counter ----

  /** INCRBY: a missing key starts from 0 and gets no time to live; an existing key keeps its own. */
  function Incremented(cache: map<Id, Entry>, userId: Id, inc: int): map<Id, Entry> {
    cache[userId := if userId in cache then cache[userId].(value := cache[userId].value + inc) else Entry(inc, None)]
  }

  /** decrementByUserId: throws on a missing key and on a value that is too small. */
  function Decremented(cache: map<Id, Entry>, userId: Id, dec: int): Outcome<map<Id, Entry>> {
    if userId !in cache then Err(NotFound)
    else if cache[userId].value < dec then Err(Conflict)
    else Ok(cache[userId := cache[userId].(value := cache[userId].value - dec)])
  }

  // ---- the services ----

  /** createNotification: the notification and the stored count in one transaction, then the cache. */
  function Create(s: State, id: Id, recipient: Id): State {
    if id in s.notifications then s
    else s.(notifications := s.notifications[id := Notification(recipient, false)],
            counts := s.counts[recipient := Stored(s, recipient) + 1],
            cache := Incremented(s.cache, recipient, 1))
  }

  /** markRead: the transaction, then the cache.  An error of the cache is thrown after the
      transaction has been committed. */
  function MarkRead(s: State, id: Id, recipient: Id): (State, Outcome<bool>) {
    if id !in s.notifications then (s, Err(NotFound))
    else if s.notifications[id].isRead then (s, Ok(true))
    else if s.notifications[id].recipientId != recipient || recipient !in s.counts then (s, Err(NotFound))
    else
      var t := s.(notifications := s.notifications[id := s.notifications[id].(isRead := true)],
                  counts := s.counts[recipient := s.counts[recipient] - 1]);
      match Decremented(s.cache, recipient, 1)
      case Err(e) => (t, Err(e))
      case Ok(c) => (t.(cache := c), Ok(true))
  }

  /** getUnreadCountForUser: read through the cache, creating a missing document. */
  function ReadThrough(s: State, userId: Id): (State, int) {
    if userId in s.cache then (s, s.cache[userId].value)
    else
      (s.(counts := s.counts[userId := Stored(s, userId)],
          cache := s.cache[userId := Entry(Stored(s, userId), Some(s.clock + TTL_MS))]),
       Stored(s, userId))
  }

  datatype Action =
    | CreateNotification(id: Id, recipient: Id)
    | Read(id: Id, recipient: Id)
    | GetCount(userId: Id)
    | Elapse(until: int)   // time passes and Redis drops the keys that have expired

  predicate Enabled(s: State, a: Action) {
    a.Elapse? ==> s.clock <= a.until
  }

  function Do(s: State, a: Action): State {
    match a
    case CreateNotification(id, recipient) => Create(s, id, recipient)
    case Read(id, recipient) => MarkRead(s, id, recipient).0
    case GetCount(userId) => ReadThrough(s, userId).0
    case Elapse(until) =>
      s.(clock := until,
         cache := map u | u in s.cache && !(s.cache[u].expiresAt.Some? && s.cache[u].expiresAt.value <= until)
                    :: s.cache[u])
  }

  // ---- the invariant ----

  /** The stored count is the number of unread notifications; a cached count is between zero and the
      stored one, and a key with a time to live (one that setByUserId filled) is exact. */
  ghost predicate Inv(s: State) {
    && (forall u :: Stored(s, u) == |Unread(s.notifications, u)|)
    && (forall u :: u in s.cache ==> 0 <= s.cache[u].value <= Stored(s, u))
    && (forall u :: u in s.cache && s.cache[u].expiresAt.Some? ==> s.cache[u].value == Stored(s, u))
  }

  lemma OneMoreUnread(ns: map<Id, Notification>, id: Id, recipient: Id, u: Id)
    requires id !in ns
    ensures |Unread(ns[id := Notification(recipient, false)], u)| == |Unread(ns, u)| + if u == recipient then 1 else 0
  {
    var more := ns[id := Notification(recipient, false)];
    if u == recipient {
      assert Unread(more, u) == Unread(ns, u) + {id};
    } else {
      assert Unread(more, u) == Unread(ns, u);
    }
  }

  lemma OneFewerUnread(ns: map<Id, Notification>, id: Id, u: Id)
    requires id in ns && !ns[id].isRead
    ensures |Unread(ns[id := ns[id].(isRead := true)], u)| == |Unread(ns, u)| - if u == ns[id].recipientId then 1 else 0
  {
    var less := ns[id := ns[id].(isRead := true)];
    if u == ns[id].recipientId {
      assert Unread(less, u) == Unread(ns, u) - {id};
    } else {
      assert Unread(less, u) == Unread(ns, u);
    }
  }

  lemma CreateKeeps(s: State, id: Id, recipient: Id)
    requires Inv(s)
    ensures Inv(Create(s, id, recipient))
  {
    if id !in s.notifications {
      var t := Create(s, id, recipient);
      forall u
        ensures Stored(t, u) == |Unread(t.notifications, u)|
      {
        OneMoreUnread(s.notifications, id, recipient, u);
        assert Stored(s, u) == |Unread(s.notifications, u)|;
      }
    }
  }

  lemma MarkReadKeeps(s: State, id: Id, recipient: Id)
    requires Inv(s)
    ensures Inv(MarkRead(s, id, recipient).0)
  {
    var t := MarkRead(s, id, recipient).0;
    if t != s {
      forall u
        ensures Stored(t, u) == |Unread(t.notifications, u)|
      {
        OneFewerUnread(s.notifications, id, u);
        assert Stored(s, u) == |Unread(s.notifications, u)|;
      }
      assert Stored(t, recipient) >= 0;
    }
  }

  lemma StepKeeps(s: State, a: Action)
    requires Inv(s) && Enabled(s, a)
    ensures Inv(Do(s, a))
  {
    match a
    case CreateNotification(id, recipient) => CreateKeeps(s, id, recipient);
    case Read(id, recipient) => MarkReadKeeps(s, id, recipient);
    case GetCount(userId) =>
      assert Stored(s, userId) == |Unread(s.notifications, userId)|;
      assert forall u :: Stored(Do(s, a), u) == Stored(s, u);
    case Elapse(until) =>
      assert forall u :: Stored(Do(s, a), u) == Stored(s, u);
  }

  ghost predicate Runs(s: State, actions: seq<Action>)
    decreases |actions|
  {
    actions == [] || (Enabled(s, actions[0]) && Runs(Do(s, actions[0]), actions[1..]))
  }

  ghost function Run(s: State, actions: seq<Action>): State
    requires Runs(s, actions)
    decreases |actions|
  {
    if actions == [] then s else Run(Do(s, actions[0]), actions[1..])
  }

  /** Unread counts: over every run of creations, reads, read-throughs and key expiry, the stored
      count of every user is the number of the user's unread notifications, a present cache value
      is between zero and it, and the value is exact as long as the key lives that setByUserId
      filled. */
  lemma {:induction false} CountsAreRight(s: State, actions: seq<Action>)
    requires Inv(s) && Runs(s, actions)
    ensures Inv(Run(s, actions))
    decreases |actions|
  {
    if actions != [] {
      StepKeeps(s, actions[0]);
      CountsAreRight(Do(s, actions[0]), actions[1..]);
    }
  }

  const EMPTY := State(map[], map[], map[], 0)

  lemma EmptyOk()
    ensures Inv(EMPTY)
  {
    forall u
      ensures Stored(EMPTY, u) == |Unread(EMPTY.notifications, u)|
    {
      assert Unread(EMPTY.notifications, u) == {};
    }
  }

  // ---- what one action does ----

  /** A new notification is one more unread for its recipient and for nobody else; it adds one to the
      stored count and to the counter, whose time to live stays as it is. */
  lemma CreateAdds(s: State, id: Id, u: Id)
    ensures id in s.notifications ==> Create(s, id, u) == s
    ensures id !in s.notifications ==>
              var t := Create(s, id, u);
              && Unread(t.notifications, u) == Unread(s.notifications, u) + {id}
              && (forall v :: v != u ==> Unread(t.notifications, v) == Unread(s.notifications, v))
              && (forall v :: Stored(t, v) == Stored(s, v) + if v == u then 1 else 0)
              && t.cache.Keys == s.cache.Keys + {u} && t.clock == s.clock
              && (forall v :: v in s.cache && v != u ==> t.cache[v] == s.cache[v])
              && t.cache[u] ==
                   if u in s.cache then Entry(s.cache[u].value + 1, s.cache[u].expiresAt) else Entry(1, None)
  {
  }

  /** An unread notification of this recipient. */
  predicate IsUnreadOf(s: State, id: Id, u: Id) {
    id in s.notifications && !s.notifications[id].isRead && s.notifications[id].recipientId == u
  }

  /** A read is committed exactly for an unread notification of the reader: it is one fewer unread, and
      the stored count falls by one.  Only then the counter is asked, which falls by one if it can and
      makes the call fail if it cannot. */
  lemma MarkReadIff(s: State, id: Id, u: Id)
    requires Inv(s)
    ensures
      var (t, r) := MarkRead(s, id, u);
      if IsUnreadOf(s, id, u) then
        && Unread(t.notifications, u) == Unread(s.notifications, u) - {id}
        && (forall v :: v != u ==> Unread(t.notifications, v) == Unread(s.notifications, v))
        && (forall v :: Stored(t, v) == Stored(s, v) - if v == u then 1 else 0)
        && t.clock == s.clock
        && (if u in s.cache && s.cache[u].value >= 1 then
              r == Ok(true) && t.cache == s.cache[u := Entry(s.cache[u].value - 1, s.cache[u].expiresAt)]
            else
              r == Err(if u in s.cache then Conflict else NotFound) && t.cache == s.cache)
      else
        t == s && r == if id in s.notifications && s.notifications[id].isRead then Ok(true) else Err(NotFound)
  {
    if IsUnreadOf(s, id, u) {
      assert Stored(s, u) == |Unread(s.notifications, u)|;
      assert id in Unread(s.notifications, u);
    }
  }

  /** A read-through answers from the key if there is one and changes nothing; otherwise it answers with the
      number of unread notifications and keeps that for half an hour. */
  lemma ReadThroughFills(s: State, u: Id)
    requires Inv(s)
    ensures
      var (t, n) := ReadThrough(s, u);
      if u in s.cache then t == s && n == s.cache[u].value
      else
        && n == |Unread(s.notifications, u)| && t.notifications == s.notifications && t.clock == s.clock
        && (forall v :: Stored(t, v) == Stored(s, v))
        && t.cache == s.cache[u := Entry(n, Some(s.clock + 1800000))]
  {
    assert Stored(s, u) == |Unread(s.notifications, u)|;
  }

  // ---- when the answers are exact ----

  /** By how much a cached count falls short. */
  function Shortfall(s: State, userId: Id): int {
    if userId in s.cache then Stored(s, userId) - s.cache[userId].value else 0
  }

  /** A read-through answers with the number of unread notifications less the shortfall. */
  lemma AnswerFallsShort(s: State, userId: Id)
    requires Inv(s)
    ensures ReadThrough(s, userId).1 == |Unread(s.notifications, userId)| - Shortfall(s, userId)
  {
    assert Stored(s, userId) == |Unread(s.notifications, userId)|;
  }

  /** How many unread notifications an action makes the counter forget: INCRBY meets a missing key and
      starts from zero, whatever is stored. */
  function Forgotten(s: State, a: Action, u: Id): nat
    requires Inv(s)
  {
    assert Stored(s, u) == |Unread(s.notifications, u)|;
    if a.CreateNotification? && a.recipient == u && a.id !in s.notifications && u !in s.cache then Stored(s, u) else 0
  }

  /** The action commits a read while the counter stands at zero: the counter throws and stays. */
  predicate ReadsAtZero(s: State, a: Action, u: Id) {
    && a.Read? && a.recipient == u && a.id in s.notifications && !s.notifications[a.id].isRead
    && s.notifications[a.id].recipientId == u && u in s.counts && u in s.cache && s.cache[u].value == 0
  }

  /** The exact law of the shortfall in one step: it grows by what an increment of a missing key
      forgets, shrinks by one with a read at zero, and changes in no other way. */
  lemma ShortfallStep(s: State, a: Action, u: Id)
    requires Inv(s) && Enabled(s, a)
    ensures Shortfall(Do(s, a), u) == Shortfall(s, u) + Forgotten(s, a, u) - if ReadsAtZero(s, a, u) then 1 else 0
  {
  }

  /** The balance of Forgotten and ReadsAtZero over a run. */
  ghost function NetForgotten(s: State, actions: seq<Action>, u: Id): int
    requires Inv(s) && Runs(s, actions)
    decreases |actions|
  {
    if actions == [] then 0
    else
      StepKeeps(s, actions[0]);
      Forgotten(s, actions[0], u) - (if ReadsAtZero(s, actions[0], u) then 1 else 0)
      + NetForgotten(Do(s, actions[0]), actions[1..], u)
  }

  /** The law over runs: nothing else ever changes the shortfall. */
  lemma {:induction false} ShortfallRun(s: State, actions: seq<Action>, u: Id)
    requires Inv(s) && Runs(s, actions)
    ensures Shortfall(Run(s, actions), u) == Shortfall(s, u) + NetForgotten(s, actions, u)
    decreases |actions|
  {
    if actions != [] {
      StepKeeps(s, actions[0]);
      ShortfallStep(s, actions[0], u);
      ShortfallRun(Do(s, actions[0]), actions[1..], u);
    }
  }

  /** In every state of the run a read-through would answer with the number of unread notifications. */
  ghost predicate AnswersExact(s: State, actions: seq<Action>, u: Id)
    requires Runs(s, actions)
    decreases |actions|
  {
    && ReadThrough(s, u).1 == |Unread(s.notifications, u)|
    && (actions == [] || AnswersExact(Do(s, actions[0]), actions[1..], u))
  }

  /** No new notification for the user meets a missing key while unread ones are stored. */
  ghost predicate NoLossyIncrement(s: State, actions: seq<Action>, u: Id)
    requires Runs(s, actions)
    decreases |actions|
  {
    actions == [] ||
    (&& !(actions[0].CreateNotification? && actions[0].recipient == u && actions[0].id !in s.notifications
          && u !in s.cache && Stored(s, u) > 0)
     && NoLossyIncrement(Do(s, actions[0]), actions[1..], u))
  }

  /** From a state without a shortfall, a read-through would be exact in every state of a run if and
      only if no new notification meets a missing key while unread ones are stored. */
  lemma {:induction false} AnswersExactIff(s: State, actions: seq<Action>, u: Id)
    requires Inv(s) && Runs(s, actions) && Shortfall(s, u) == 0
    ensures AnswersExact(s, actions, u) <==> NoLossyIncrement(s, actions, u)
    decreases |actions|
  {
    AnswerFallsShort(s, u);
    if actions != [] {
      var next := Do(s, actions[0]);
      StepKeeps(s, actions[0]);
      ShortfallStep(s, actions[0], u);
      if Shortfall(next, u) == 0 {
        AnswersExactIff(next, actions[1..], u);
      } else {
        AnswerFallsShort(next, u);
      }
    }
  }

  /** A key made by an increment has no time to live: no run ever drops it, and no read-through ever
      refreshes it.  Its shortfall never grows, so once it is exact it stays exact. */
  lemma {:induction false} KeyWithoutTtlStays(s: State, actions: seq<Action>, u: Id)
    requires Inv(s) && Runs(s, actions) && u in s.cache && s.cache[u].expiresAt.None?
    ensures
      var t := Run(s, actions);
      && u in t.cache && t.cache[u].expiresAt.None? && 0 <= Shortfall(t, u) <= Shortfall(s, u)
    decreases |actions|
  {
    CountsAreRight(s, actions);
    if actions != [] {
      StepKeeps(s, actions[0]);
      ShortfallStep(s, actions[0], u);
      KeyWithoutTtlStays(Do(s, actions[0]), actions[1..], u);
    }
  }

  /** The shortfall is real: once the key that a read-through filled has expired, the next
      notification makes a key that starts from zero.  Reading both notifications repairs it, the
      second read by way of the error that the counter throws at zero. */
  lemma ExpiryLosesCount(u: Id)
    ensures
      var actions := [GetCount(u), CreateNotification(1, u), Elapse(TTL_MS), CreateNotification(2, u)];
      && Runs(EMPTY, actions)
      && var t := Run(EMPTY, actions);
      && Stored(t, u) == 2 && ReadThrough(t, u).1 == 1 && u in t.cache && t.cache[u].expiresAt.None?
      && Runs(t, [Read(1, u)]) && Runs(t, [Read(1, u), Read(2, u)])
      && var v := Run(t, [Read(1, u), Read(2, u)]);
      && MarkRead(Run(t, [Read(1, u)]), 2, u).1 == Err(Conflict)
      && Stored(v, u) == 0 && Shortfall(v, u) == 0 && ReadThrough(v, u).1 == 0
  {
    hide Run, Runs;
    ExpiryRun(u);
    RepairRun(u);
  }

  /** Two unread notifications, of which the counter knows one. */
  function OneShort(u: Id): State {
    State(map[1 := Notification(u, false), 2 := Notification(u, false)], map[u := 2], map[u := Entry(1, None)], TTL_MS)
  }

  lemma ExpiryRun(u: Id)
    ensures
      var actions := [GetCount(u), CreateNotification(1, u), Elapse(TTL_MS), CreateNotification(2, u)];
      Runs(EMPTY, actions) && Run(EMPTY, actions) == OneShort(u)
  {
    hide Run, Runs;
    var filled := Do(EMPTY, GetCount(u));
    assert filled == State(map[], map[u := 0], map[u := Entry(0, Some(TTL_MS))], 0);
    var one := Do(filled, CreateNotification(1, u));
    assert one == State(map[1 := Notification(u, false)], map[u := 1], map[u := Entry(1, Some(TTL_MS))], 0);
    var expired := Do(one, Elapse(TTL_MS));
    assert expired == State(map[1 := Notification(u, false)], map[u := 1], map[], TTL_MS);
    assert Do(expired, CreateNotification(2, u)) == OneShort(u);
    assert [CreateNotification(2, u)] + [] == [CreateNotification(2, u)];
    assert [Elapse(TTL_MS)] + [CreateNotification(2, u)] == [Elapse(TTL_MS), CreateNotification(2, u)];
    assert [CreateNotification(1, u)] + [Elapse(TTL_MS), CreateNotification(2, u)] ==
           [CreateNotification(1, u), Elapse(TTL_MS), CreateNotification(2, u)];
    assert [GetCount(u)] + [CreateNotification(1, u), Elapse(TTL_MS), CreateNotification(2, u)] ==
           [GetCount(u), CreateNotification(1, u), Elapse(TTL_MS), CreateNotification(2, u)];
    RunNone(OneShort(u));
    RunCons(expired, CreateNotification(2, u), []);
    RunCons(one, Elapse(TTL_MS), [CreateNotification(2, u)]);
    RunCons(filled, CreateNotification(1, u), [Elapse(TTL_MS), CreateNotification(2, u)]);
    RunCons(EMPTY, GetCount(u), [CreateNotification(1, u), Elapse(TTL_MS), CreateNotification(2, u)]);
  }

  lemma RepairRun(u: Id)
    ensures
      var t := OneShort(u);
      && Runs(t, [Read(1, u)]) && Runs(t, [Read(1, u), Read(2, u)])
      && var v := Run(t, [Read(1, u), Read(2, u)]);
      && MarkRead(Run(t, [Read(1, u)]), 2, u).1 == Err(Conflict)
      && Stored(v, u) == 0 && Shortfall(v, u) == 0 && ReadThrough(v, u).1 == 0
  {
    hide Run, Runs;
    var read := Do(OneShort(u), Read(1, u));
    var both := Do(read, Read(2, u));
    assert [Read(1, u)] + [] == [Read(1, u)] && [Read(2, u)] + [] == [Read(2, u)];
    assert [Read(1, u)] + [Read(2, u)] == [Read(1, u), Read(2, u)];
    RunNone(read);
    RunNone(both);
    RunCons(OneShort(u), Read(1, u), []);
    RunCons(read, Read(2, u), []);
    RunCons(OneShort(u), Read(1, u), [Read(2, u)]);
  }

  lemma RunNone(s: State)
    ensures Runs(s, []) && Run(s, []) == s
  {
  }

  lemma RunCons(s: State, a: Action, rest: seq<Action>)
    requires Enabled(s, a) && Runs(Do(s, a), rest)
    ensures Runs(s, [a] + rest) && Run(s, [a] + rest) == Run(Do(s, a), rest)
  {
    assert ([a] + rest)[1..] == rest;
  }

  // ---- the cache, the stores and the services as objects ----

  class RedisUnreadNotificationCountCache {
    var entries: map<Id, Entry>

    constructor ()
      ensures entries == map[]
    {
      entries := map[];
    }

    method GetByUserId(userId: Id) returns (count: Option<int>)
      ensures count == if userId in entries then Some(entries[userId].value) else None
    {
      count := if userId in entries then Some(entries[userId].value) else None;
    }

    method SetByUserId(userId: Id, count: int, now: int)
      modifies this
      ensures entries == old(entries)[userId := Entry(count, Some(now + TTL_MS))]
    {
      entries := entries[userId := Entry(count, Some(now + TTL_MS))];
    }

    method IncrementByUserId(userId: Id, inc: int) returns (count: int)
      modifies this
      ensures entries == Incremented(old(entries), userId, inc) && count == entries[userId].value
    {
      if userId !in entries {
        entries := entries[userId := Entry(0, None)];
      }
      count := entries[userId].value + inc;
      entries := entries[userId := entries[userId].(value := count)];
    }

    method DecrementByUserId(userId: Id, dec: int) returns (r: Outcome<int>)
      modifies this
      ensures
        match Decremented(old(entries), userId, dec)
        case Ok(c) => entries == c && r == Ok(c[userId].value)
        case Err(e) => entries == old(entries) && r == Err(e)
    {
      if userId !in entries {
        return Err(NotFound);
      }
      var existing := entries[userId].value;
      if existing < dec {
        return Err(Conflict);
      }
      entries := entries[userId := entries[userId].(value := existing - dec)];
      return Ok(existing - dec);
    }
  }

  class NotificationService {
    var notifications: map<Id, Notification>
    var counts: map<Id, int>
    const cache: RedisUnreadNotificationCountCache

    constructor (cache: RedisUnreadNotificationCountCache)
      ensures this.cache == cache && notifications == map[] && counts == map[]
    {
      this.cache, notifications, counts := cache, map[], map[];
    }

    ghost function Snapshot(clock: int): State
      reads this, cache
    {
      State(notifications, counts, cache.entries, clock)
    }

    method CreateNotification(id: Id, recipientId: Id, ghost now: int)
      modifies this, cache
      ensures Snapshot(now) == Create(old(Snapshot(now)), id, recipientId)
    {
      if id in notifications {
        return;
      }
      notifications := notifications[id := Notification(recipientId, false)];
      counts := counts[recipientId := (if recipientId in counts then counts[recipientId] else 0) + 1];
      var _ := cache.IncrementByUserId(recipientId, 1);
    }

    /** An error of the cache comes after the commit: the notification stays read. */
    method MarkAsRead(id: Id, recipientId: Id, ghost now: int) returns (r: Outcome<bool>)
      modifies this, cache
      ensures (Snapshot(now), r) == MarkRead(old(Snapshot(now)), id, recipientId)
    {
      if id !in notifications {
        return Err(NotFound);
      }
      if notifications[id].isRead {
        return Ok(true);
      }
      if notifications[id].recipientId != recipientId || recipientId !in counts {
        return Err(NotFound);
      }
      notifications := notifications[id := notifications[id].(isRead := true)];
      counts := counts[recipientId := counts[recipientId] - 1];
      var cached := cache.DecrementByUserId(recipientId, 1);
      return if cached.Ok? then Ok(true) else Err(cached.error);
    }

    /** UnreadNotificationCountService.getUnreadCountForUser */
    method GetUnreadCountForUser(userId: Id, now: int) returns (count: int)
      modifies this, cache
      ensures (Snapshot(now), count) == ReadThrough(old(Snapshot(now)), userId)
    {
      var cached := cache.GetByUserId(userId);
      if cached.Some? {
        return cached.value;
      }
      if userId !in counts {
        counts := counts[userId := 0];
      }
      count := counts[userId];
      assert counts == old(counts)[userId := count];
      cache.SetByUserId(userId, count, now);
    }
  }
}
