/** The slot validator of replaceWorkshopSessionsBodyDTO (skill/src/application/dtos/workshop.dto.ts). */
module SessionSlots {
  import opened CohortSchedule
  import ZoneOffset
  import Sorting

  datatype Issue = DuplicateSlot(index: nat) | NotContiguous(week: int, day: int)

  predicate Less(a: int, b: int) { a < b }

  /** [1, 2, ..., k] */
  function UpTo(k: nat): (s: seq<int>)
    ensures |s| == k && forall i :: 0 <= i < k ==> s[i] == i + 1
  {
    seq(k, i => i + 1)
  }

  /** The session orders given for one day of one week, in the order given. */
  function OrdersAt(slots: seq<Slot>, week: int, day: int): seq<int> {
    if slots == [] then []
    else
      var last := slots[|slots| - 1];
      OrdersAt(slots[..|slots| - 1], week, day) + if last.week == week && last.day == day then [last.order] else []
  }

  /** A permutation of 1..k. */
  ghost predicate Contiguous(orders: seq<int>) {
    multiset(orders) == multiset(UpTo(|orders|))
  }

  ghost predicate WellFormed(slots: seq<Slot>) {
    forall w, d :: Contiguous(OrdersAt(slots, w, d))
  }

  lemma ContiguousIffSorted(orders: seq<int>)
    ensures Contiguous(orders) <==> Sorting.Sort(Less, orders) == UpTo(|orders|)
  {
    Sorting.SortPermutes(Less, orders);
    Sorting.SortSorts(Less, orders);
    if Contiguous(orders) {
      Sorting.SortedUnique(Less, Sorting.Sort(Less, orders), UpTo(|orders|));
    }
  }

  // ---- contiguous orders leave no duplicates ----

  /** The last slot adds its order to its own day and nothing to any other. */
  lemma LastOrderCounts(slots: seq<Slot>, week: int, day: int, order: int)
    requires slots != []
    ensures
      var n := |slots| - 1;
      multiset(OrdersAt(slots, week, day))[order] ==
        multiset(OrdersAt(slots[..n], week, day))[order] + if slots[n] == Slot(week, day, order) then 1 else 0
  {
    var n := |slots| - 1;
    var last := if slots[n].week == week && slots[n].day == day then [slots[n].order] else [];
    assert OrdersAt(slots, week, day) == OrdersAt(slots[..n], week, day) + last;
    hide OrdersAt;
  }

  lemma {:induction false} OrderListed(slots: seq<Slot>, i: nat)
    requires i < |slots|
    ensures multiset(OrdersAt(slots, slots[i].week, slots[i].day))[slots[i].order] >= 1
  {
    hide OrdersAt;
    LastOrderCounts(slots, slots[i].week, slots[i].day, slots[i].order);
    var n := |slots| - 1;
    if i < n {
      OrderListed(slots[..n], i);
    }
  }

  lemma {:induction false} OrderListedTwice(slots: seq<Slot>, i: nat, j: nat)
    requires i < j < |slots| && slots[i] == slots[j]
    ensures multiset(OrdersAt(slots, slots[i].week, slots[i].day))[slots[i].order] >= 2
  {
    hide OrdersAt;
    LastOrderCounts(slots, slots[i].week, slots[i].day, slots[i].order);
    var n := |slots| - 1;
    if j < n {
      OrderListedTwice(slots[..n], i, j);
    } else {
      OrderListed(slots[..n], i);
    }
  }

  lemma {:induction false} UpToOnce(k: nat, x: int)
    ensures multiset(UpTo(k))[x] == if 1 <= x <= k then 1 else 0
  {
    if k > 0 {
      assert UpTo(k) == UpTo(k - 1) + [k];
      UpToOnce(k - 1, x);
    }
  }

  /** Slots of an accepted list are unique. */
  lemma WellFormedDistinct(slots: seq<Slot>)
    requires WellFormed(slots)
    ensures Distinct(slots)
  {
    forall i, j | 0 <= i < j < |slots|
      ensures slots[i] != slots[j]
    {
      if slots[i] == slots[j] {
        OrderListedTwice(slots, i, j);
        var orders := OrdersAt(slots, slots[i].week, slots[i].day);
        assert Contiguous(orders);
        UpToOnce(|orders|, slots[i].order);
      }
    }
  }

  /** The derived schedule of an accepted list does not depend on the order of the submission. */
  lemma AcceptedScheduleIgnoresOrder(ss: seq<Session>, tt: seq<Session>, startDate: string, zone: ZoneOffset.Zone)
    requires WellFormed(SlotsOf(ss)) && multiset(ss) == multiset(tt)
    ensures DeriveCohortSessions(ss, startDate, zone) == DeriveCohortSessions(tt, startDate, zone)
  {
    WellFormedDistinct(SlotsOf(ss));
    ScheduleIgnoresOrder(ss, tt, startDate, zone);
  }

  // ---- the validator ----

  /** The inner loop: the sorted orders are compared with 1, 2, ... until one differs. */
  method IsContiguous(orders: seq<int>) returns (ok: bool)
    ensures ok <==> Contiguous(orders)
  {
    var sortedOrders := Sorting.Sort(Less, orders);
    ContiguousIffSorted(orders);
    ok := true;
    for i := 0 to |sortedOrders|
      invariant ok && sortedOrders[..i] == UpTo(i)
    {
      if sortedOrders[i] != i + 1 {
        ok := false;
        break;
      }
    }
    assert ok ==> sortedOrders == sortedOrders[..|sortedOrders|];
  }

  /** The map of the forEach pass: the orders of each day that occurs. */
  ghost predicate Groups(grouped: map<(int, int), seq<int>>, slots: seq<Slot>) {
    forall w, d :: OrdersAt(slots, w, d) == if (w, d) in grouped then grouped[(w, d)] else []
  }

  lemma ExtendGroups(grouped: map<(int, int), seq<int>>, slots: seq<Slot>, s: Slot)
    requires Groups(grouped, slots)
    ensures
      var orders := if (s.week, s.day) in grouped then grouped[(s.week, s.day)] else [];
      Groups(grouped[(s.week, s.day) := orders + [s.order]], slots + [s])
  {
    assert (slots + [s])[..|slots|] == slots;
  }

  /** The slot at this index occurs earlier in the list. */
  predicate RepeatsAt(slots: seq<Slot>, index: nat) {
    index < |slots| && slots[index] in slots[..index]
  }

  lemma DistinctIffNoRepeat(slots: seq<Slot>)
    ensures Distinct(slots) <==> forall i :: !RepeatsAt(slots, i)
  {
    if forall i :: !RepeatsAt(slots, i) {
      forall i, j | 0 <= i < j < |slots|
        ensures slots[i] != slots[j]
      {
        assert !RepeatsAt(slots, j);
        assert slots[..j][i] == slots[i];
      }
    }
  }

  /** The issues name exactly the repeated slots. */
  ghost predicate Reports(issues: seq<Issue>, slots: seq<Slot>) {
    forall issue :: issue in issues <==> issue.DuplicateSlot? && RepeatsAt(slots, issue.index)
  }

  lemma ReportNext(issues: seq<Issue>, slots: seq<Slot>, s: Slot)
    requires Reports(issues, slots)
    ensures Reports(if s in slots then issues + [DuplicateSlot(|slots|)] else issues, slots + [s])
  {
    var more := slots + [s];
    forall i: nat
      ensures RepeatsAt(more, i) <==> RepeatsAt(slots, i) || (i == |slots| && s in slots)
    {
      if i <= |slots| {
        assert more[..i] == slots[..i];
      }
    }
  }

  lemma NothingReported(issues: seq<Issue>, slots: seq<Slot>)
    requires Reports(issues, slots)
    ensures issues == [] <==> Distinct(slots)
  {
    DistinctIffNoRepeat(slots);
    if issues == [] {
      forall i
        ensures !RepeatsAt(slots, i)
      {
        assert DuplicateSlot(i) !in issues;
      }
    } else {
      assert issues[0] in issues;
    }
  }

  /** The forEach pass: repeated slots are reported and the orders are grouped by day. */
  method CollectSlots(slots: seq<Slot>)
    returns (issues: seq<Issue>, groups: seq<(int, int)>, grouped: map<(int, int), seq<int>>)
    ensures forall issue :: issue in issues <==> issue.DuplicateSlot? && RepeatsAt(slots, issue.index)
    ensures issues == [] <==> Distinct(slots)
    ensures Groups(grouped, slots)
    ensures forall g :: g in groups <==> g in grouped
  {
    var seen: set<Slot> := {};
    issues, groups, grouped := [], [], map[];
    assert Reports(issues, slots[..0]) && Groups(grouped, slots[..0]);
    assert slots[..|slots|] == slots;
    hide Distinct, Groups, OrdersAt, RepeatsAt, Reports;
    for index := 0 to |slots|
      invariant forall s :: s in seen <==> s in slots[..index]
      invariant Reports(issues, slots[..index])
      invariant forall g :: g in groups <==> g in grouped
      invariant Groups(grouped, slots[..index])
    {
      var s := slots[index];
      assert slots[..index + 1] == slots[..index] + [s];
      ReportNext(issues, slots[..index], s);
      ExtendGroups(grouped, slots[..index], s);
      if s in seen {
        issues := issues + [DuplicateSlot(index)];
      }
      seen := seen + {s};
      var orders := if (s.week, s.day) in grouped then grouped[(s.week, s.day)] else [];
      if (s.week, s.day) !in grouped {
        groups := groups + [(s.week, s.day)];
      }
      grouped := grouped[(s.week, s.day) := orders + [s.order]];
    }
    NothingReported(issues, slots);
    ReportsMeans(issues, slots);
  }

  lemma ReportsMeans(issues: seq<Issue>, slots: seq<Slot>)
    requires Reports(issues, slots)
    ensures forall issue :: issue in issues <==> issue.DuplicateSlot? && RepeatsAt(slots, issue.index)
  {
  }

  /** superRefine: it reports exactly the repeated slots and the days whose orders are no permutation
      of 1..k; so it accepts exactly when there is no such day. */
  method ValidateSlots(slots: seq<Slot>) returns (issues: seq<Issue>)
    ensures forall i :: DuplicateSlot(i) in issues <==> RepeatsAt(slots, i)
    ensures forall w, d :: NotContiguous(w, d) in issues <==> !Contiguous(OrdersAt(slots, w, d))
    ensures issues == [] <==> WellFormed(slots)
  {
    hide Contiguous, OrdersAt, RepeatsAt, Distinct;
    var groups, grouped;
    issues, groups, grouped := CollectSlots(slots);
    for g := 0 to |groups|
      invariant forall i :: DuplicateSlot(i) in issues <==> RepeatsAt(slots, i)
      invariant forall w, d :: NotContiguous(w, d) in issues <==>
                  exists k :: 0 <= k < g && groups[k] == (w, d) && !Contiguous(grouped[groups[k]])
      invariant issues == [] <==> Distinct(slots) && forall k :: 0 <= k < g ==> Contiguous(grouped[groups[k]])
    {
      var ok := IsContiguous(grouped[groups[g]]);
      if !ok {
        issues := issues + [NotContiguous(groups[g].0, groups[g].1)];
      }
    }
    AllGroups(slots, groups, grouped);
    if WellFormed(slots) {
      WellFormedDistinct(slots);
    }
  }

  lemma AllGroups(slots: seq<Slot>, groups: seq<(int, int)>, grouped: map<(int, int), seq<int>>)
    requires Groups(grouped, slots) && forall g :: g in groups <==> g in grouped
    ensures WellFormed(slots) <==> forall k :: 0 <= k < |groups| ==> Contiguous(grouped[groups[k]])
    ensures forall w, d :: !Contiguous(OrdersAt(slots, w, d)) <==>
              exists k :: 0 <= k < |groups| && groups[k] == (w, d) && !Contiguous(grouped[groups[k]])
  {
    assert Contiguous([]);
    hide Contiguous, OrdersAt;
    forall k | 0 <= k < |groups|
      ensures grouped[groups[k]] == OrdersAt(slots, groups[k].0, groups[k].1)
    {
      assert groups[k] in grouped;
    }
  }
}
