/** The schedule of a cohort, derived from the sessions of its workshop
    (skill/src/utils/cohortSchedule.ts). */
module CohortSchedule {
  import opened Prelude
  import opened CivilDate
  import opened ZoneOffset
  import Sorting

  const DAY_MS := 86400000
  const HOUR_MS := 3600000

  /** Where a session stands in the workshop: weekNumber from 1, dayOfWeek with Monday as 0, and
      sessionOrder within that day. */
  datatype Slot = Slot(week: int, day: int, order: int)

  /** startTime is HH:mm. */
  datatype Session = Session(id: Id, slot: Slot, title: Option<string>, startTime: string)

  datatype DerivedSession = DerivedSession(session: Session, date: string, startsAt: int)

  datatype Window = Window(first: int, last: int)

  datatype CohortStatus = Upcoming | Running | Completed

  /** The request schemas' pattern for start times. */
  predicate IsTime(s: string) {
    && |s| == 5 && s[2] == ':'
    && IsDigit(s[0]) && IsDigit(s[1]) && IsDigit(s[3]) && IsDigit(s[4])
    && Value2(s, 0) <= 23 && Value2(s, 3) <= 59
  }

  /** What the request schemas guarantee of every stored session. */
  predicate IsSession(s: Session) {
    IsSlot(s.slot) && IsTime(s.startTime)
  }

  predicate IsSlot(s: Slot) {
    s.week >= 1 && 0 <= s.day <= 6 && s.order >= 1
  }

  predicate AllSessions(ss: seq<Session>) {
    forall i :: 0 <= i < |ss| ==> IsSession(ss[i])
  }

  // ---- sortSessions ----

  /** The comparator of sortSessions puts l strictly before r. */
  predicate Before(l: Session, r: Session) {
    if l.slot.week != r.slot.week then l.slot.week < r.slot.week
    else if l.slot.day != r.slot.day then l.slot.day < r.slot.day
    else l.slot.order < r.slot.order
  }

  function SortSessions(ss: seq<Session>): (r: seq<Session>)
    ensures |r| == |ss|
  {
    Sorting.Sort(Before, ss)
  }

  lemma SortSessionsCorrect(ss: seq<Session>)
    ensures multiset(SortSessions(ss)) == multiset(ss)
    ensures Sorting.Sorted(Before, SortSessions(ss))
  {
    Sorting.SortPermutes(Before, ss);
    Sorting.SortSorts(Before, ss);
  }

  lemma SortKeepsSessions(ss: seq<Session>)
    requires AllSessions(ss)
    ensures AllSessions(SortSessions(ss))
  {
    SortSessionsCorrect(ss);
    var r := SortSessions(ss);
    forall i | 0 <= i < |r|
      ensures IsSession(r[i])
    {
      assert r[i] in multiset(ss);
    }
  }

  /** getEarliestWorkshopSession. */
  function EarliestSession(ss: seq<Session>): Session
    requires ss != []
  {
    SortSessions(ss)[0]
  }

  // ---- deriveCohortSessions ----

  function OffsetDays(earliest: Session, s: Session): int {
    (s.slot.week - earliest.slot.week) * 7 + (s.slot.day - earliest.slot.day)
  }

  /** localDateTimeToUtc on a date and a time; None when it throws.  (The request schemas let no
      other times through than HH:mm.) */
  function DateTimeToUtc(date: string, time: string, zone: Zone): Option<int> {
    match ToUtcMidnight(date)
    case None => None
    case Some(d) =>
      if !IsTime(time) then None
      else LocalToUtc(zone, d * DAY_MS + Value2(time, 0) * HOUR_MS + Value2(time, 3) * MINUTE_MS)
  }

  /** A session held on day d. */
  function HeldOn(d: int, s: Session, zone: Zone): Option<DerivedSession> {
    if !(-999999 <= YearOf(d) <= 999999) then None
    else match DateTimeToUtc(FormatDateOnly(d), s.startTime, zone)
      case None => None
      case Some(t) => Some(DerivedSession(s, FormatDateOnly(d), t))
  }

  /** Array.prototype.map with a function that may throw. */
  function MapAll<A, B>(f: A -> Option<B>, s: seq<A>): (r: Option<seq<B>>)
    ensures r.Some? ==> |r.value| == |s| && forall i :: 0 <= i < |s| ==> f(s[i]) == Some(r.value[i])
  {
    if s == [] then Some([])
    else
      var x, xs := f(s[0]), MapAll(f, s[1..]);
      if x.Some? && xs.Some? then Some([x.value] + xs.value) else None
  }

  /** None when deriveCohortSessions throws: no session, a start date of the wrong shape, a date
      past the year 9999, or an offset text that the parser refuses. */
  function DeriveCohortSessions(ss: seq<Session>, startDate: string, zone: Zone): Option<seq<DerivedSession>> {
    if ss == [] then None
    else match ToUtcMidnight(startDate)
      case None => None
      case Some(start) =>
        MapAll((s: Session) => HeldOn(start + OffsetDays(EarliestSession(ss), s), s, zone), SortSessions(ss))
  }

  ghost function SessionsOf(ds: seq<DerivedSession>): seq<Session> {
    seq(|ds|, i requires 0 <= i < |ds| => ds[i].session)
  }

  /** ds holds the sorted sessions, each OffsetDays after the day start. */
  ghost predicate IsSchedule(ds: seq<DerivedSession>, sorted: seq<Session>, start: int, zone: Zone) {
    |ds| == |sorted| && sorted != [] &&
    forall i :: 0 <= i < |ds| ==> HeldOn(start + OffsetDays(sorted[0], sorted[i]), sorted[i], zone) == Some(ds[i])
  }

  lemma DeriveIsSchedule(ss: seq<Session>, startDate: string, zone: Zone)
    requires DeriveCohortSessions(ss, startDate, zone).Some?
    ensures ss != [] && ToUtcMidnight(startDate).Some?
    ensures IsSchedule(DeriveCohortSessions(ss, startDate, zone).value, SortSessions(ss),
                       ToUtcMidnight(startDate).value, zone)
  {
    hide HeldOn, ToUtcMidnight, SortSessions, OffsetDays;
  }

  lemma ScheduleSessions(ds: seq<DerivedSession>, sorted: seq<Session>, start: int, zone: Zone)
    requires IsSchedule(ds, sorted, start, zone)
    ensures SessionsOf(ds) == sorted
  {
    hide HeldOn, OffsetDays;
    forall i | 0 <= i < |ds|
      ensures ds[i].session == sorted[i]
    {
      HeldOnSession(start + OffsetDays(sorted[0], sorted[i]), sorted[i], zone);
    }
  }

  lemma OffsetsMonotone(earliest: Session, l: Session, r: Session)
    requires IsSession(l) && IsSession(r) && !Before(r, l)
    ensures OffsetDays(earliest, l) <= OffsetDays(earliest, r)
  {
  }

  lemma FirstIsLeast(ss: seq<Session>, i: nat, j: nat)
    requires AllSessions(ss) && i <= j < |ss|
    ensures
      var sorted := SortSessions(ss);
      0 <= OffsetDays(sorted[0], sorted[i]) <= OffsetDays(sorted[0], sorted[j])
  {
    var sorted := SortSessions(ss);
    SortSessionsCorrect(ss);
    SortKeepsSessions(ss);
    assert !Before(sorted[i], sorted[0]);
    assert i == j || !Before(sorted[j], sorted[i]);
    OffsetsMonotone(sorted[0], sorted[0], sorted[i]);
    OffsetsMonotone(sorted[0], sorted[i], sorted[j]);
  }

  lemma HeldOnSession(d: int, s: Session, zone: Zone)
    requires HeldOn(d, s, zone).Some?
    ensures HeldOn(d, s, zone).value.session == s
    ensures -999999 <= YearOf(d) <= 999999 && HeldOn(d, s, zone).value.date == FormatDateOnly(d)
    ensures ToUtcMidnight(FormatDateOnly(d)).Some?
  {
  }

  /** The derived sessions are the workshop's sessions in sorted order; session number i is held
      OffsetDays after the normalised start date, and these offsets start at zero and never
      decrease. */
  lemma DerivedSessions(ss: seq<Session>, startDate: string, zone: Zone)
    requires AllSessions(ss) && DeriveCohortSessions(ss, startDate, zone).Some?
    ensures ss != [] && ToUtcMidnight(startDate).Some?
    ensures
      var ds := DeriveCohortSessions(ss, startDate, zone).value;
      var sorted := SortSessions(ss);
      && SessionsOf(ds) == sorted && multiset(sorted) == multiset(ss) && Sorting.Sorted(Before, sorted)
      && IsSchedule(ds, sorted, ToUtcMidnight(startDate).value, zone)
      && OffsetDays(sorted[0], sorted[0]) == 0
      && (forall i, j :: 0 <= i <= j < |sorted| ==>
            0 <= OffsetDays(sorted[0], sorted[i]) <= OffsetDays(sorted[0], sorted[j]))
  {
    DeriveIsSchedule(ss, startDate, zone);
    SortSessionsCorrect(ss);
    ScheduleSessions(DeriveCohortSessions(ss, startDate, zone).value, SortSessions(ss),
                     ToUtcMidnight(startDate).value, zone);
    forall i, j | 0 <= i <= j < |ss|
      ensures
        var sorted := SortSessions(ss);
        0 <= OffsetDays(sorted[0], sorted[i]) <= OffsetDays(sorted[0], sorted[j])
    {
      FirstIsLeast(ss, i, j);
    }
  }

  /** A derived date names the day it was computed from. */
  lemma DerivedDate(start: int, d: int, s: Session, zone: Zone)
    requires HeldOn(d, s, zone).Some?
    requires YearOf(start) >= 100 && start <= d
    ensures ToUtcMidnight(HeldOn(d, s, zone).value.date) == Some(d)
  {
    HeldOnSession(d, s, zone);
    YearMonotone(start, d);
    FormattedReadable(d);
    DateRoundTrip(d);
  }

  lemma ScheduleDate(ds: seq<DerivedSession>, sorted: seq<Session>, start: int, zone: Zone, i: nat)
    requires IsSchedule(ds, sorted, start, zone) && i < |ds|
    requires YearOf(start) >= 100 && OffsetDays(sorted[0], sorted[i]) >= 0
    ensures ds[i].session == sorted[i]
    ensures ToUtcMidnight(ds[i].date) == Some(start + OffsetDays(sorted[0], sorted[i]))
    ensures Weekday(start) == sorted[0].slot.day && 0 <= sorted[i].slot.day <= 6 ==>
              DateOnlyWeekday(ds[i].date) == Some(sorted[i].slot.day)
  {
    hide HeldOn, ToUtcMidnight, FormatDateOnly, YearOf, Weekday;
    var d := start + OffsetDays(sorted[0], sorted[i]);
    HeldOnSession(d, sorted[i], zone);
    DerivedDate(start, d, sorted[i], zone);
    if Weekday(start) == sorted[0].slot.day && 0 <= sorted[i].slot.day <= 6 {
      WeekdayShift(start, sorted[i].slot.week - sorted[0].slot.week, sorted[i].slot.day);
    }
  }

  lemma OffsetsInDays(sorted: seq<Session>)
    ensures forall i :: 0 <= i < |sorted| ==>
              OffsetDays(sorted[0], sorted[i]) ==
                7 * (sorted[i].slot.week - sorted[0].slot.week) + (sorted[i].slot.day - sorted[0].slot.day)
  {
  }

  /** A start in the year 99 is read back a century later, on another weekday. */
  lemma EarlyStartIsWrong(ds: seq<DerivedSession>, sorted: seq<Session>, start: int, zone: Zone)
    requires IsSchedule(ds, sorted, start, zone) && YearOf(start) == 99
    ensures ToUtcMidnight(ds[0].date) != Some(start)
    ensures DateOnlyWeekday(ds[0].date) != Some(Weekday(start))
    ensures ds[0].session == sorted[0]
  {
    hide HeldOn, YearOf, Weekday, DateOnlyWeekday, ToUtcMidnight, FormatDateOnly;
    assert OffsetDays(sorted[0], sorted[0]) == 0;
    HeldOnSession(start, sorted[0], zone);
    Year99ReadsBackWrong(start);
  }

  /** The dates are right exactly when the normalised start date is not before the year 100: the
      first date names the start date and every other one the day as many weeks and weekdays after it as
      its session is after the first one; and, the start date falling on the weekday of the earliest
      session, every derived date read back as a string falls on the weekday of its session. */
  lemma DerivedDates(ss: seq<Session>, startDate: string, zone: Zone)
    requires AllSessions(ss) && DeriveCohortSessions(ss, startDate, zone).Some?
    ensures ss != [] && ToUtcMidnight(startDate).Some?
    ensures
      var ds, start := DeriveCohortSessions(ss, startDate, zone).value, ToUtcMidnight(startDate).value;
      && ds != [] && (ToUtcMidnight(ds[0].date) == Some(start) <==> YearOf(start) >= 100)
      && (YearOf(start) >= 100 ==>
            forall i :: 0 <= i < |ds| ==>
              var first, slot := ds[0].session.slot, ds[i].session.slot;
              ToUtcMidnight(ds[i].date) == Some(start + 7 * (slot.week - first.week) + (slot.day - first.day)))
      && (DateOnlyWeekday(startDate) == Some(EarliestSession(ss).slot.day) ==>
            (YearOf(start) >= 100 <==>
              forall i :: 0 <= i < |ds| ==> DateOnlyWeekday(ds[i].date) == Some(ds[i].session.slot.day)))
  {
    hide HeldOn, ToUtcMidnight, FormatDateOnly, SortSessions, DeriveCohortSessions, OffsetDays, IsSchedule, CivilOf;
    hide YearOf, Weekday;
    DerivedSessions(ss, startDate, zone);
    StringsStartIn99(startDate);
    var ds := DeriveCohortSessions(ss, startDate, zone).value;
    var start := ToUtcMidnight(startDate).value;
    var sorted := SortSessions(ss);
    SortKeepsSessions(ss);
    assert |ds| == |ss| by { assert |SessionsOf(ds)| == |ds|; }
    if YearOf(start) >= 100 {
      forall i | 0 <= i < |ds|
        ensures ToUtcMidnight(ds[i].date) == Some(start + OffsetDays(sorted[0], sorted[i]))
        ensures ds[i].session == sorted[i]
        ensures Weekday(start) == sorted[0].slot.day ==> DateOnlyWeekday(ds[i].date) == Some(ds[i].session.slot.day)
      {
        ScheduleDate(ds, sorted, start, zone, i);
      }
      OffsetsInDays(sorted);
      assert ToUtcMidnight(ds[0].date) == Some(start);
    } else {
      EarlyStartIsWrong(ds, sorted, start, zone);
    }
  }

  // ---- the start times ----

  /** A wall-clock time read as if it were UTC: midnight of the day that the date names, and the hours
      and minutes that the digits of the time spell. */
  function WallClockAt(date: string, time: string): int
    requires ToUtcMidnight(date).Some? && IsTime(time)
  {
    var hours := 10 * DigitValue(time[0]) + DigitValue(time[1]);
    var minutes := 10 * DigitValue(time[3]) + DigitValue(time[4]);
    86400000 * ToUtcMidnight(date).value + 60000 * (60 * hours + minutes)
  }

  /** The wall-clock time at which a derived session starts. */
  function WallClock(d: DerivedSession): int
    requires IsSession(d.session) && ToUtcMidnight(d.date).Some?
  {
    WallClockAt(d.date, d.session.startTime)
  }

  lemma HeldOnStart(d: int, s: Session, zone: Zone)
    requires IsSession(s) && HeldOn(d, s, zone).Some?
    ensures
      var held := HeldOn(d, s, zone).value;
      && held.session == s && ToUtcMidnight(held.date).Some?
      && LocalToUtc(zone, WallClock(held)) == Some(held.startsAt)
  {
    hide ToUtcMidnight, FormatDateOnly, YearOf, LocalToUtc;
  }

  lemma StartIsConverted(ss: seq<Session>, startDate: string, zone: Zone, i: nat)
    requires AllSessions(ss) && DeriveCohortSessions(ss, startDate, zone).Some?
    requires i < |DeriveCohortSessions(ss, startDate, zone).value|
    ensures
      var d := DeriveCohortSessions(ss, startDate, zone).value[i];
      && IsSession(d.session) && ToUtcMidnight(d.date).Some?
      && LocalToUtc(zone, WallClock(d)) == Some(d.startsAt)
  {
    hide DeriveCohortSessions, ToUtcMidnight, SortSessions, OffsetDays, LocalToUtc, HeldOn, WallClock, IsSession;
    DerivedSessions(ss, startDate, zone);
    SortKeepsSessions(ss);
    var ds, start := DeriveCohortSessions(ss, startDate, zone).value, ToUtcMidnight(startDate).value;
    var sorted := SortSessions(ss);
    assert |ds| == |sorted| by { assert |SessionsOf(ds)| == |ds|; }
    HeldOnStart(start + OffsetDays(sorted[0], sorted[i]), sorted[i], zone);
  }

  /** Every derived session starts when its wall clock says, in the zone: around one change of the offset
      its start shows that time exactly outside the gap that the change may open. */
  lemma StartsShowWallClock(ss: seq<Session>, startDate: string, zone: Zone, i: nat,
                            reach: int, change: int, a: int, b: int)
    requires AllSessions(ss) && DeriveCohortSessions(ss, startDate, zone).Some?
    requires i < |DeriveCohortSessions(ss, startDate, zone).value| && reach >= 0
    ensures
      var d := DeriveCohortSessions(ss, startDate, zone).value[i];
      && IsSession(d.session) && ToUtcMidnight(d.date).Some?
      && (OneChangeNear(zone, WallClock(d), reach, change, a, b) ==>
            (Shows(zone, WallClock(d), d.startsAt) <==> !InGap(WallClock(d), change, a, b)))
  {
    hide DeriveCohortSessions, ToUtcMidnight, WallClock, LocalToUtc;
    StartIsConverted(ss, startDate, zone, i);
    var d := DeriveCohortSessions(ss, startDate, zone).value[i];
    if OneChangeNear(zone, WallClock(d), reach, change, a, b) {
      ThreeRoundsSuffice(zone, WallClock(d), reach, change, a, b);
    }
  }

  /** In a zone with a constant offset every derived session starts at its wall clock less the offset. */
  lemma StartsInConstantZone(ss: seq<Session>, startDate: string, minutes: int, i: nat)
    requires AllSessions(ss) && DeriveCohortSessions(ss, startDate, ConstantZone(minutes)).Some?
    requires i < |DeriveCohortSessions(ss, startDate, ConstantZone(minutes)).value|
    ensures
      var d := DeriveCohortSessions(ss, startDate, ConstantZone(minutes)).value[i];
      && IsSession(d.session) && ToUtcMidnight(d.date).Some?
      && d.startsAt == WallClock(d) - 60000 * minutes
  {
    hide DeriveCohortSessions, ToUtcMidnight, WallClock, LocalToUtc;
    StartIsConverted(ss, startDate, ConstantZone(minutes), i);
    ConstantOffset(minutes, WallClock(DeriveCohortSessions(ss, startDate, ConstantZone(minutes)).value[i]));
  }

  // ---- when there is a schedule ----

  /** A session of day d can be dated, in four digits of year, and its wall clock converts. */
  predicate CanBeHeld(d: int, s: Session, zone: Zone)
    requires IsSession(s)
  {
    && 0 <= YearOf(d) <= 9999
    && FormattedParses(d)
    && LocalToUtc(zone, WallClockAt(FormatDateOnly(d), s.startTime)).Some?
  }

  predicate FormattedParses(d: int)
    requires 0 <= YearOf(d) <= 9999
    ensures FormattedParses(d)
  {
    FormattedReadable(d);
    ToUtcMidnight(FormatDateOnly(d)).Some?
  }

  lemma HeldIff(d: int, s: Session, zone: Zone)
    requires IsSession(s)
    ensures HeldOn(d, s, zone).Some? <==> CanBeHeld(d, s, zone)
  {
    hide LocalToUtc, YearOf, FormatDateOnly, ToUtcMidnight;
    if -999999 <= YearOf(d) <= 999999 {
      FormattedReadable(d);
    }
  }

  lemma MapAllIff<A, B>(f: A -> Option<B>, s: seq<A>)
    ensures MapAll(f, s).Some? <==> forall i :: 0 <= i < |s| ==> f(s[i]).Some?
  {
    if s != [] {
      MapAllIff(f, s[1..]);
      assert forall i :: 1 <= i < |s| ==> s[i] == s[1..][i - 1];
    }
  }

  lemma DerivesIffHeld(ss: seq<Session>, startDate: string, zone: Zone)
    ensures DeriveCohortSessions(ss, startDate, zone).Some? <==>
              && ss != [] && ToUtcMidnight(startDate).Some?
              && var sorted, start := SortSessions(ss), ToUtcMidnight(startDate).value;
              forall i :: 0 <= i < |sorted| ==> HeldOn(start + OffsetDays(sorted[0], sorted[i]), sorted[i], zone).Some?
  {
    hide HeldOn, OffsetDays, SortSessions, ToUtcMidnight;
    if ss != [] && ToUtcMidnight(startDate).Some? {
      var sorted, start := SortSessions(ss), ToUtcMidnight(startDate).value;
      MapAllIff((s: Session) => HeldOn(start + OffsetDays(EarliestSession(ss), s), s, zone), sorted);
    }
  }

  /** A schedule is derived exactly when there are sessions, the start date has the shape YYYY-MM-DD, and
      every session can be held on its day. */
  lemma DerivesIff(ss: seq<Session>, startDate: string, zone: Zone)
    requires AllSessions(ss)
    ensures AllSessions(SortSessions(ss))
    ensures DeriveCohortSessions(ss, startDate, zone).Some? <==>
              && ss != [] && IsDateOnly(startDate)
              && var sorted, start := SortSessions(ss), ToUtcMidnight(startDate).value;
              forall i :: 0 <= i < |sorted| ==> CanBeHeld(start + OffsetDays(sorted[0], sorted[i]), sorted[i], zone)
  {
    hide HeldOn, CanBeHeld, OffsetDays, SortSessions, ToUtcMidnight, IsDateOnly, IsSession, DeriveCohortSessions;
    SortKeepsSessions(ss);
    ReadableIff(startDate);
    DerivesIffHeld(ss, startDate, zone);
    if ss != [] && ToUtcMidnight(startDate).Some? {
      var sorted, start := SortSessions(ss), ToUtcMidnight(startDate).value;
      forall i | 0 <= i < |sorted|
        ensures HeldOn(start + OffsetDays(sorted[0], sorted[i]), sorted[i], zone).Some? <==>
                  CanBeHeld(start + OffsetDays(sorted[0], sorted[i]), sorted[i], zone)
      {
        HeldIff(start + OffsetDays(sorted[0], sorted[i]), sorted[i], zone);
      }
    }
  }

  // ---- one session in a zone with a constant offset ----

  function ConstantZone(minutes: int): Zone {
    t => Some(minutes)
  }

  lemma ConstantOffset(minutes: int, local: int)
    ensures LocalToUtc(ConstantZone(minutes), local) == Some(local - minutes * MINUTE_MS)
  {
    FixedPointStays(ConstantZone(minutes), local, local - minutes * MINUTE_MS, 2);
  }

  /** A workshop of one session has a schedule from every start date in the years up to 9999. */
  lemma OneSessionDerives(s: Session, startDate: string, minutes: int)
    requires IsSession(s) && ToUtcMidnight(startDate).Some? && 0 <= YearOf(ToUtcMidnight(startDate).value) <= 9999
    ensures EarliestSession([s]) == s
    ensures
      var start := ToUtcMidnight(startDate).value;
      var held := HeldOn(start, s, ConstantZone(minutes));
      held.Some? && DeriveCohortSessions([s], startDate, ConstantZone(minutes)) == Some([held.value])
  {
    hide ToUtcMidnight, FormatDateOnly, YearOf, LocalToUtc, IsSlot;
    var start, zone := ToUtcMidnight(startDate).value, ConstantZone(minutes);
    var date := FormatDateOnly(start);
    FormattedReadable(start);
    ConstantOffset(minutes, ToUtcMidnight(date).value * DAY_MS
                            + Value2(s.startTime, 0) * HOUR_MS + Value2(s.startTime, 3) * MINUTE_MS);
    hide HeldOn, IsTime;
    assert SortSessions([s]) == [s];
    assert OffsetDays(s, s) == 0;
    MapOne((x: Session) => HeldOn(start + OffsetDays(EarliestSession([s]), x), x, zone), s);
  }

  lemma MapOne<A, B>(f: A -> Option<B>, x: A)
    ensures MapAll(f, [x]) == if f(x).Some? then Some([f(x).value]) else None
  {
    assert [x][1..] == [];
    assert f(x).Some? ==> [f(x).value] + [] == [f(x).value];
  }

  lemma TenOClock(date: string, minutes: int)
    requires ToUtcMidnight(date).Some?
    ensures DateTimeToUtc(date, "10:00", ConstantZone(minutes)) ==
              Some(ToUtcMidnight(date).value * DAY_MS + 10 * HOUR_MS - minutes * MINUTE_MS)
  {
    hide ToUtcMidnight, LocalToUtc;
    ConstantOffset(minutes, ToUtcMidnight(date).value * DAY_MS + 10 * HOUR_MS);
    assert Value2("10:00", 0) == 10 && Value2("10:00", 3) == 0;
  }

  /** The start date of YearNinetyNine is accepted and gives a schedule, for a session on the weekday
      that the date names (a Thursday); the schedule's date names a Friday. */
  lemma YearNinetyNineDerives(id: Id, title: Option<string>)
    ensures
      var s := Session(id, Slot(1, 3, 1), title, "10:00");
      var ds := DeriveCohortSessions([s], "0100-00-10", ConstantZone(60));
      && IsSession(s) && EarliestSession([s]) == s && DateOnlyWeekday("0100-00-10") == Some(s.slot.day)
      && ds == Some([DerivedSession(s, "0099-12-10", 10935 * DAY_MS + 9 * HOUR_MS)])
      && DateOnlyWeekday("0099-12-10") == Some(4)
  {
    hide DeriveCohortSessions, YearOf, EarliestSession, FormatDateOnly, ToUtcMidnight, DateOnlyWeekday, DateTimeToUtc;
    var s := Session(id, Slot(1, 3, 1), title, "10:00");
    assert Value2("10:00", 0) == 10 && Value2("10:00", 3) == 0;
    assert IsSession(s);
    hide IsSession, IsSlot, IsTime;
    YearNinetyNine();
    YearNinetyNineWeekdays();
    OneSessionDerives(s, "0100-00-10", 60);
    TenOClock("0099-12-10", 60);
  }

  // ---- the order of the sessions does not matter ----

  function SlotsOf(ss: seq<Session>): seq<Slot> {
    seq(|ss|, i requires 0 <= i < |ss| => ss[i].slot)
  }

  ghost predicate Distinct(slots: seq<Slot>) {
    forall i, j :: 0 <= i < j < |slots| ==> slots[i] != slots[j]
  }

  /** Submitting the same sessions in another order derives the same schedule. */
  lemma ScheduleIgnoresOrder(ss: seq<Session>, tt: seq<Session>, startDate: string, zone: Zone)
    requires Distinct(SlotsOf(ss)) && multiset(ss) == multiset(tt)
    ensures DeriveCohortSessions(ss, startDate, zone) == DeriveCohortSessions(tt, startDate, zone)
  {
    assert |ss| == |multiset(ss)| == |multiset(tt)| == |tt|;
    forall i, j | 0 <= i < |ss| && 0 <= j < |ss| && ss[i] != ss[j]
      ensures Before(ss[i], ss[j]) || Before(ss[j], ss[i])
    {
      assert SlotsOf(ss)[i] != SlotsOf(ss)[j];
    }
    Sorting.SortForgetsOrder(Before, ss, tt);
  }

  // ---- deriveCohortWindow and getDerivedCohortStatus ----

  function MinStart(ds: seq<DerivedSession>): (m: int)
    requires ds != []
    ensures exists i :: 0 <= i < |ds| && m == ds[i].startsAt
    ensures forall i :: 0 <= i < |ds| ==> m <= ds[i].startsAt
  {
    if |ds| == 1 then ds[0].startsAt
    else
      var m := MinStart(ds[1..]);
      if ds[0].startsAt < m then ds[0].startsAt else m
  }

  function MaxStart(ds: seq<DerivedSession>): (m: int)
    requires ds != []
    ensures exists i :: 0 <= i < |ds| && m == ds[i].startsAt
    ensures forall i :: 0 <= i < |ds| ==> ds[i].startsAt <= m
  {
    if |ds| == 1 then ds[0].startsAt
    else
      var m := MaxStart(ds[1..]);
      if ds[0].startsAt > m then ds[0].startsAt else m
  }

  function CohortWindow(ds: seq<DerivedSession>): (w: Window)
    requires ds != []
    ensures w.first <= w.last
  {
    Window(MinStart(ds), MaxStart(ds))
  }

  function StatusAt(w: Window, now: int): CohortStatus {
    if now < w.first then Upcoming else if now > w.last then Completed else Running
  }

  /** What the status means for the schedule: a cohort is upcoming exactly before all of its sessions
      start, completed exactly after all have started, and running in between, at both ends included. */
  lemma StatusOfSchedule(ds: seq<DerivedSession>, now: int)
    requires ds != []
    ensures StatusAt(CohortWindow(ds), now) == Upcoming <==> forall i :: 0 <= i < |ds| ==> now < ds[i].startsAt
    ensures StatusAt(CohortWindow(ds), now) == Completed <==> forall i :: 0 <= i < |ds| ==> now > ds[i].startsAt
  {
    hide MinStart, MaxStart;
  }

  /** The window that a cohort of these sessions starting on this date gets; None when the
      derivation throws. */
  function WindowOf(ss: seq<Session>, startDate: string, zone: Zone): (w: Option<Window>)
    ensures w.Some? ==> w.value.first <= w.value.last
  {
    match DeriveCohortSessions(ss, startDate, zone)
    case None => None
    case Some(ds) => if ds == [] then None else Some(CohortWindow(ds))
  }
}
