/** Keyset pagination of a user's accepted connections
    (getAcceptedConnectionsForUserPaginated and countAcceptedConnectionsForUser). */
module ConnectionPaging {
  import opened Prelude
  import opened Connections

  /** The position of a row in the order of the listing: updated_at, then id. */
  datatype Cursor = Cursor(connectedAt: int, connectionId: Id)

  datatype Page = Page(rows: seq<Id>, hasNextPage: bool, nextCursor: Option<Cursor>)

  /** case when user_id_1 = userId then user_id_2 else user_id_1 end */
  function ConnectedUser(c: Connection, userId: Id): Id {
    if c.userId1 == userId then c.userId2 else c.userId1
  }

  /** The rows that countAcceptedConnectionsForUser counts. */
  ghost function AcceptedOf(t: Table, userId: Id): set<Id> {
    set i | i in t && t[i].status == ACCEPTED && (t[i].userId1 == userId || t[i].userId2 == userId)
  }

  /** The condition that a cursor adds to the query. */
  predicate IsAfter(c: Cursor, t: Table, i: Id)
    requires i in t
  {
    t[i].updatedAt < c.connectedAt || (t[i].updatedAt == c.connectedAt && i < c.connectionId)
  }

  /** The rows of the query before ordering.  The join with the users drops rows of unknown users;
      the join with the profiles adds none, a user having at most one. */
  ghost function Matching(s: State, userId: Id, cursor: Option<Cursor>): (r: set<Id>)
    ensures r <= s.table.Keys
  {
    set i | i in AcceptedOf(s.table, userId) && ConnectedUser(s.table[i], userId) in s.users
      && (cursor.Some? ==> IsAfter(cursor.value, s.table, i))
  }

  // ---- order by updated_at desc, id desc ----

  predicate Precedes(t: Table, i: Id, j: Id)
    requires i in t && j in t
  {
    t[i].updatedAt > t[j].updatedAt || (t[i].updatedAt == t[j].updatedAt && i > j)
  }

  ghost function First(t: Table, s: set<Id>): (m: Id)
    requires s != {} && s <= t.Keys
    ensures m in s && forall j :: j in s && j != m ==> Precedes(t, m, j)
    decreases |s|
  {
    var x := AnyOf(s);
    if s == {x} then x
    else
      var m := First(t, s - {x});
      assert forall j :: j in s && j != x ==> j in s - {x};
      if Precedes(t, x, m) then x else m
  }

  ghost function Ordered(t: Table, s: set<Id>): (r: seq<Id>)
    requires s <= t.Keys
    ensures |r| == |s| && forall i :: i in r <==> i in s
    decreases |s|
  {
    if s == {} then []
    else
      var m := First(t, s);
      [m] + Ordered(t, s - {m})
  }

  ghost predicate Descending(t: Table, r: seq<Id>) {
    && (forall k :: 0 <= k < |r| ==> r[k] in t)
    && (forall j, k :: 0 <= j < k < |r| ==> Precedes(t, r[j], r[k]))
  }

  lemma {:induction false} OrderedDescends(t: Table, s: set<Id>)
    requires s <= t.Keys
    ensures Descending(t, Ordered(t, s))
    decreases |s|
  {
    if s != {} {
      var m := First(t, s);
      var rest := Ordered(t, s - {m});
      OrderedDescends(t, s - {m});
      forall k | 0 <= k < |rest|
        ensures Precedes(t, m, rest[k])
      {
        assert rest[k] in rest;
      }
    }
  }

  ghost function Elements(r: seq<Id>): set<Id> {
    set i | i in r
  }

  /** A descending list is the ordering of its elements. */
  lemma {:induction false} OrderIsUnique(t: Table, r: seq<Id>)
    requires Descending(t, r)
    ensures Elements(r) <= t.Keys && Ordered(t, Elements(r)) == r
  {
    if r != [] {
      var s := Elements(r);
      assert r[0] in s;
      var m := First(t, s);
      var k :| 0 <= k < |r| && r[k] == m;
      assert k == 0;
      assert s - {m} == Elements(r[1..]) by {
        assert forall i :: i in r[1..] ==> i in r && i != m;
      }
      OrderIsUnique(t, r[1..]);
      assert r == [r[0]] + r[1..];
    }
  }

  // ---- pages ----

  function CursorOf(t: Table, i: Id): Cursor
    requires i in t
  {
    Cursor(t[i].updatedAt, i)
  }

  ghost function GetPage(s: State, userId: Id, limit: nat, cursor: Option<Cursor>): Page
    requires limit >= 1
  {
    var matching := Ordered(s.table, Matching(s, userId, cursor));
    var rows := matching[..if |matching| < limit + 1 then |matching| else limit + 1];
    var hasNextPage := |rows| > limit;
    var sliced := if hasNextPage then rows[..|rows| - 1] else rows;
    assert hasNextPage ==> sliced[|sliced| - 1] in matching;
    Page(sliced, hasNextPage,
         if hasNextPage then Some(CursorOf(s.table, sliced[|sliced| - 1])) else None)
  }

  lemma AfterIsSuffix(t: Table, all: seq<Id>, k: nat, i: Id)
    requires Descending(t, all) && 1 <= k <= |all|
    ensures i in all && i in t && IsAfter(CursorOf(t, all[k - 1]), t, i) <==> i in all[k..]
  {
    assert forall j :: k <= j < |all| ==> all[j] in all[k..] by {
      assert all == all[..k] + all[k..];
    }
    if i in all[k..] {
      var j :| k <= j < |all| && all[j] == i;
      assert Precedes(t, all[k - 1], all[j]);
    } else if i in all {
      var j :| 0 <= j < |all| && all[j] == i;
      assert j == k - 1 || Precedes(t, all[j], all[k - 1]);
    }
  }

  /** All accepted connections of the user, in the order of the listing. */
  ghost function Listing(s: State, userId: Id): (r: seq<Id>)
    ensures forall k :: 0 <= k < |r| ==> r[k] in s.table
  {
    var matching := Matching(s, userId, None);
    assert forall i :: i in Ordered(s.table, matching) ==> i in s.table;
    Ordered(s.table, matching)
  }

  /** The cursor that goes on at position k of the listing: that of the row before. */
  ghost function CursorAt(s: State, userId: Id, k: nat): Option<Cursor>
    requires k <= |Listing(s, userId)|
  {
    if k == 0 then None else Some(CursorOf(s.table, Listing(s, userId)[k - 1]))
  }

  /** The cursor at position k selects the rows of the listing from that position on. */
  lemma CursorSelectsRest(s: State, userId: Id, k: nat)
    requires k <= |Listing(s, userId)|
    ensures Ordered(s.table, Matching(s, userId, CursorAt(s, userId, k))) == Listing(s, userId)[k..]
  {
    hide Ordered, Descending, IsAfter;
    var t, all := s.table, Listing(s, userId);
    if k == 0 {
      assert all[k..] == all;
    } else {
      OrderedDescends(t, Matching(s, userId, None));
      assert Descending(t, all[k..]) && all[k - 1] in all by { DescendingSuffix(t, all, k); }
      var after := Matching(s, userId, Some(CursorOf(t, all[k - 1])));
      forall i
        ensures i in after <==> i in all[k..]
      {
        AfterIsSuffix(t, all, k, i);
        assert i in all <==> i in Matching(s, userId, None);
      }
      assert after == Elements(all[k..]);
      OrderIsUnique(t, all[k..]);
    }
  }

  lemma DescendingSuffix(t: Table, all: seq<Id>, k: nat)
    requires Descending(t, all) && k <= |all|
    ensures Descending(t, all[k..])
  {
  }

  /** A page that is not the last one ends in a row of the selection, which the next cursor leaves
      behind. */
  lemma NextCursorAdvances(s: State, userId: Id, limit: nat, cursor: Option<Cursor>)
    requires limit >= 1
    ensures
      var page := GetPage(s, userId, limit, cursor);
      page.nextCursor.Some? ==> Matching(s, userId, page.nextCursor) < Matching(s, userId, cursor)
  {
    var page := GetPage(s, userId, limit, cursor);
    if page.nextCursor.Some? {
      var last := page.rows[|page.rows| - 1];
      assert last in Ordered(s.table, Matching(s, userId, cursor));
      assert last in Matching(s, userId, cursor) && last !in Matching(s, userId, page.nextCursor);
      assert forall i :: i in Matching(s, userId, page.nextCursor) ==> i in Matching(s, userId, cursor);
    }
  }

  /** All rows met by following nextCursor until there is no next page. */
  ghost function Follow(s: State, userId: Id, limit: nat, cursor: Option<Cursor>): (r: seq<Id>)
    requires limit >= 1
    decreases Matching(s, userId, cursor)
  {
    var page := GetPage(s, userId, limit, cursor);
    NextCursorAdvances(s, userId, limit, cursor);
    if page.nextCursor.None? then page.rows
    else page.rows + Follow(s, userId, limit, page.nextCursor)
  }

  /** The page of a query that selects these rows. */
  lemma PageOf(s: State, userId: Id, limit: nat, cursor: Option<Cursor>, selected: seq<Id>)
    requires limit >= 1 && Ordered(s.table, Matching(s, userId, cursor)) == selected
    ensures
      var page := GetPage(s, userId, limit, cursor);
      if |selected| > limit then
        && page.rows == selected[..limit] && selected[limit - 1] in s.table
        && page.nextCursor == Some(CursorOf(s.table, selected[limit - 1]))
      else
        page.rows == selected && page.nextCursor == None
  {
    var page := GetPage(s, userId, limit, cursor);
    assert forall k :: 0 <= k < |selected| ==> selected[k] in selected && selected[k] in s.table;
    hide Ordered, Matching;
    if |selected| > limit {
      assert selected[..limit + 1][..limit] == selected[..limit];
      assert page.rows == selected[..limit] && page.rows[limit - 1] == selected[limit - 1];
    } else {
      assert selected[..|selected|] == selected;
    }
  }

  /** The page at position k of the listing, and the cursor that it hands out. */
  lemma PageAt(s: State, userId: Id, limit: nat, k: nat)
    requires limit >= 1 && k <= |Listing(s, userId)|
    ensures
      var all, page := Listing(s, userId), GetPage(s, userId, limit, CursorAt(s, userId, k));
      if |all| - k > limit then
        page.rows == all[k..k + limit] && page.nextCursor == CursorAt(s, userId, k + limit)
      else
        page.rows == all[k..] && page.nextCursor == None
  {
    hide Ordered, Matching, Listing, GetPage;
    var all := Listing(s, userId);
    CursorSelectsRest(s, userId, k);
    PageOf(s, userId, limit, CursorAt(s, userId, k), all[k..]);
    if |all| - k > limit {
      assert all[k..][..limit] == all[k..k + limit] && all[k..][limit - 1] == all[k + limit - 1];
    }
  }

  lemma FollowStep(s: State, userId: Id, limit: nat, cursor: Option<Cursor>)
    requires limit >= 1
    ensures
      var page := GetPage(s, userId, limit, cursor);
      Follow(s, userId, limit, cursor) ==
        if page.nextCursor.None? then page.rows else page.rows + Follow(s, userId, limit, page.nextCursor)
  {
  }

  /** From any position, following the pages lists exactly the rest. */
  lemma {:induction false} FollowListsRest(s: State, userId: Id, limit: nat, k: nat)
    requires limit >= 1 && k <= |Listing(s, userId)|
    ensures Follow(s, userId, limit, CursorAt(s, userId, k)) == Listing(s, userId)[k..]
    decreases |Listing(s, userId)| - k
  {
    hide Ordered, Matching, GetPage, Listing, Follow;
    var all := Listing(s, userId);
    PageAt(s, userId, limit, k);
    FollowStep(s, userId, limit, CursorAt(s, userId, k));
    if |all| - k > limit {
      FollowListsRest(s, userId, limit, k + limit);
      assert CursorAt(s, userId, k + limit).Some?;
      assert all[k..] == all[k..k + limit] + all[k + limit..];
    } else {
      hide CursorAt;
    }
  }

  /** Without a cursor the query selects every accepted connection of the user. */
  lemma ListingIsComplete(s: State, userId: Id)
    requires Inv(s)
    ensures Matching(s, userId, None) == AcceptedOf(s.table, userId)
  {
    assert forall i :: i in AcceptedOf(s.table, userId) ==> i in Matching(s, userId, None);
  }

  /** Keyset paging is exact: on an unchanged table, following nextCursor from the start with any
      limit of at least one ends, and lists precisely the user's accepted connections in
      (updated_at, id) descending order, each once and each for another user, as many as
      countAcceptedConnectionsForUser counts. */
  lemma PagingIsExact(s: State, userId: Id, limit: nat)
    requires Inv(s) && limit >= 1
    ensures
      var listed := Follow(s, userId, limit, None);
      && Descending(s.table, listed)
      && (forall i :: i in listed <==> i in AcceptedOf(s.table, userId))
      && |listed| == |AcceptedOf(s.table, userId)|
      && DistinctPartners(s.table, userId, listed)
  {
    hide Inv, AcceptedOf, Matching, Descending, DistinctPartners, Ordered, Follow;
    FollowListsRest(s, userId, limit, 0);
    var all := Listing(s, userId);
    assert all[0..] == all;
    OrderedDescends(s.table, Matching(s, userId, None));
    ListingIsComplete(s, userId);
    PartnersDiffer(s, userId, all);
  }

  /** The connections are different ones, with different users on their other sides. */
  ghost predicate DistinctPartners(t: Table, userId: Id, r: seq<Id>)
    requires forall i :: i in r ==> i in t
  {
    forall j, k :: 0 <= j < k < |r| ==>
      r[j] != r[k] && ConnectedUser(t[r[j]], userId) != ConnectedUser(t[r[k]], userId)
  }

  lemma PartnersDiffer(s: State, userId: Id, r: seq<Id>)
    requires Inv(s) && Descending(s.table, r) && forall i :: i in r ==> i in AcceptedOf(s.table, userId)
    ensures DistinctPartners(s.table, userId, r)
  {
    hide Inv;
    forall j, k | 0 <= j < k < |r|
      ensures r[j] != r[k] && ConnectedUser(s.table[r[j]], userId) != ConnectedUser(s.table[r[k]], userId)
    {
      assert r[j] in r && r[k] in r && Precedes(s.table, r[j], r[k]);
      OnePartnerEach(s, userId, r[j], r[k]);
    }
  }

  lemma OnePartnerEach(s: State, userId: Id, i: Id, j: Id)
    requires Inv(s) && i in AcceptedOf(s.table, userId) && j in AcceptedOf(s.table, userId) && i != j
    ensures ConnectedUser(s.table[i], userId) != ConnectedUser(s.table[j], userId)
  {
  }
}
