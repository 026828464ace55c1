/** Workshops and their cohorts: WorkshopService, the management half of CohortService and the
    cohort store, as operations on one catalog value. */
module Catalog {
  import opened Prelude
  import opened CohortSchedule
  import opened SessionSlots
  import CivilDate
  import ZoneOffset

  datatype WorkshopStatus = Draft | Published | Archived

  datatype Workshop = Workshop(
    expertId: Id, title: string, maxCohortSize: int, status: WorkshopStatus,
    sessions: seq<Session>, timezone: Option<string>)

  /** The price, the currency and the start date are what a member signs up for; window holds
      firstSessionStartsAt and lastSessionStartsAt. */
  datatype Cohort = Cohort(
    workshopId: Id, expertId: Id, workshopTimezone: string, spotPriceAmount: int, currency: string,
    startDate: string, maxStudents: int, window: Window)

  datatype State = State(workshops: map<Id, Workshop>, cohorts: map<Id, Cohort>)

  /** The schedule arithmetic as the services call it: the window of sessions in a time zone from a
      start date (None when it throws), and whether a start date falls on the weekday of the
      earliest session. */
  datatype Calendar = Calendar(
    window: (seq<Session>, string, string) -> Option<Window>,
    startsRight: (seq<Session>, string) -> bool)

  ghost predicate IsCalendar(cal: Calendar) {
    forall ss, tz, d :: cal.window(ss, tz, d).Some? ==>
      cal.window(ss, tz, d).value.first <= cal.window(ss, tz, d).value.last
  }

  function CalendarOf(zones: string -> ZoneOffset.Zone): Calendar {
    Calendar(
      (ss: seq<Session>, tz: string, d: string) => WindowOf(ss, d, zones(tz)),
      (ss: seq<Session>, d: string) => ss != [] && CivilDate.DateOnlyWeekday(d) == Some(EarliestSession(ss).slot.day))
  }

  lemma CalendarOfIsCalendar(zones: string -> ZoneOffset.Zone)
    ensures IsCalendar(CalendarOf(zones))
  {
    var cal := CalendarOf(zones);
    forall ss, tz, d | cal.window(ss, tz, d).Some?
      ensures cal.window(ss, tz, d).value.first <= cal.window(ss, tz, d).value.last
    {
      hide DeriveCohortSessions;
      assert cal.window(ss, tz, d) == WindowOf(ss, d, zones(tz));
    }
  }

  /** What updateCohort may be asked to change. */
  datatype CohortPatch = CohortPatch(
    spotPriceAmount: Option<int>, currency: Option<string>, startDate: Option<string>, maxStudents: Option<int>)

  /** The memberships of the cohort that a request names: how many there are, and how many seats
      are held at the moment of the count. */
  datatype Members = Members(count: nat, held: nat)

  datatype Request =
    | CreateWorkshop(id: Id, expertId: Id, title: string, maxCohortSize: int)
    | UpdateWorkshop(id: Id, expertId: Id, newTitle: Option<string>, newSize: Option<int>)
    | ReplaceSessions(id: Id, expertId: Id, timezone: string, sessions: seq<Session>)
    | UpdateSession(id: Id, expertId: Id, sessionId: Id, newSessionTitle: Option<string>, startTime: Option<string>)
    | PublishWorkshop(id: Id, expertId: Id)
    | CreateCohort(id: Id, expertId: Id, workshopId: Id, spotPriceAmount: int, currency: string,
                   startDate: string, maxStudents: Option<int>)
    | UpdateCohort(id: Id, expertId: Id, patch: CohortPatch)
    | DeleteCohort(id: Id, expertId: Id)

  /** What the request schemas let through. */
  ghost predicate IsRequest(r: Request) {
    match r
    case ReplaceSessions(_, _, _, ss) => AllSessions(ss) && WellFormed(SlotsOf(ss))
    case UpdateSession(_, _, _, _, t) => t.Some? ==> IsTime(t.value)
    case CreateWorkshop(_, _, _, n) => n > 0
    case UpdateWorkshop(_, _, _, n) => n.Some? ==> n.value > 0
    case CreateCohort(_, _, _, _, _, _, n) => n.Some? ==> n.value > 0
    case UpdateCohort(_, _, p) => p.maxStudents.Some? ==> p.maxStudents.value > 0
    case _ => true
  }

  // ---- WorkshopService ----

  ghost predicate HasCohorts(s: State, workshopId: Id) {
    exists c :: c in s.cohorts && s.cohorts[c].workshopId == workshopId
  }

  /** ensureWorkshopIsNotFrozen followed by getOwnedDraftWorkshop. */
  ghost function OwnedDraft(s: State, id: Id, expertId: Id): Outcome<Workshop> {
    if HasCohorts(s, id) then Err(Conflict)
    else if id !in s.workshops then Err(NotFound)
    else if s.workshops[id].expertId != expertId then Err(Forbidden)
    else if s.workshops[id].status != Draft then Err(Conflict)
    else Ok(s.workshops[id])
  }

  predicate Blank(s: string) {
    forall i :: 0 <= i < |s| ==> s[i] in " \t\r\n"
  }

  function UpdatedSessions(ss: seq<Session>, id: Id, title: Option<string>, time: Option<string>): (r: seq<Session>)
    ensures |r| == |ss|
    ensures SlotsOf(r) == SlotsOf(ss)
  {
    seq(|ss|, i requires 0 <= i < |ss| =>
      if ss[i].id == id then
        ss[i].(title := if title.Some? then title else ss[i].title,
               startTime := if time.Some? then time.value else ss[i].startTime)
      else ss[i])
  }

  ghost function EditWorkshop(s: State, r: Request): Outcome<State>
    requires r.UpdateWorkshop? || r.ReplaceSessions? || r.UpdateSession?
  {
    match OwnedDraft(s, r.id, r.expertId)
    case Err(e) => Err(e)
    case Ok(w) =>
      match r
      case UpdateWorkshop(id, _, title, size) =>
        Ok(s.(workshops := s.workshops[id := w.(
          title := if title.Some? then title.value else w.title,
          maxCohortSize := if size.Some? then size.value else w.maxCohortSize)]))
      case ReplaceSessions(id, _, tz, ss) =>
        Ok(s.(workshops := s.workshops[id := w.(sessions := ss, timezone := Some(tz))]))
      case UpdateSession(id, _, sid, title, time) =>
        if !exists i :: 0 <= i < |w.sessions| && w.sessions[i].id == sid then Err(NotFound)
        else Ok(s.(workshops := s.workshops[id := w.(sessions := UpdatedSessions(w.sessions, sid, title, time))]))
  }

  /** No validation error is found by publishWorkshop. */
  predicate ReadyToPublish(w: Workshop) {
    && !Blank(w.title) && w.maxCohortSize != 0 && w.timezone.Some? && w.sessions != []
    && forall i :: 0 <= i < |w.sessions| ==> !Untitled(w.sessions[i])
  }

  predicate Untitled(s: Session) {
    s.title.None? || Blank(s.title.value)
  }

  function Publish(s: State, id: Id, expertId: Id): Outcome<State> {
    if id !in s.workshops then Err(NotFound)
    else
      var w := s.workshops[id];
      if w.expertId != expertId then Err(Forbidden)
      else if w.status != Draft then Err(Conflict)
      else if !ReadyToPublish(w) then Err(Validation)
      else Ok(s.(workshops := s.workshops[id := w.(status := Published)]))
  }

  // ---- CohortService: cohorts ----

  predicate Overlaps(v: Window, w: Window) {
    v.first <= w.last && v.last >= w.first
  }

  /** findOverlappingByWorkshopId finds a cohort. */
  ghost predicate OverlapFound(cohorts: map<Id, Cohort>, workshopId: Id, w: Window, exclude: Option<Id>) {
    exists c ::
      && c in cohorts && cohorts[c].workshopId == workshopId
      && Overlaps(cohorts[c].window, w) && exclude != Some(c)
  }

  /** deriveSchedule */
  function DeriveSchedule(cal: Calendar, w: Workshop, startDate: string): Outcome<Window> {
    if w.sessions == [] || w.timezone.None? || !cal.startsRight(w.sessions, startDate) then Err(Validation)
    else match cal.window(w.sessions, w.timezone.value, startDate)
      case None => Err(Validation)
      case Some(v) => Ok(v)
  }

  ghost function AddCohort(s: State, r: Request, cal: Calendar): Outcome<State>
    requires r.CreateCohort?
  {
    if r.workshopId !in s.workshops then Err(NotFound)
    else
      var w := s.workshops[r.workshopId];
      if w.expertId != r.expertId then Err(Forbidden)
      else if w.status != Published || w.timezone.None? || w.sessions == [] then Err(Conflict)
      else if EarliestSession(w.sessions).slot.week != 1 then Err(Validation)
      else match DeriveSchedule(cal, w, r.startDate)
        case Err(e) => Err(e)
        case Ok(v) =>
          if OverlapFound(s.cohorts, r.workshopId, v, None) then Err(Conflict)
          else if r.id in s.cohorts then Err(Database)
          else Ok(s.(cohorts := s.cohorts[r.id := Cohort(
            r.workshopId, r.expertId, w.timezone.value, r.spotPriceAmount, r.currency, r.startDate,
            if r.maxStudents.Some? then r.maxStudents.value else w.maxCohortSize, v)]))
  }

  /** getOwnedCohort */
  function OwnedCohort(s: State, id: Id, expertId: Id): Outcome<Cohort> {
    if id !in s.cohorts then Err(NotFound)
    else if s.cohorts[id].expertId != expertId then Err(Forbidden)
    else Ok(s.cohorts[id])
  }

  /** The guard of updateCohort for cohorts with memberships. */
  predicate PatchAllowed(p: CohortPatch, m: Members) {
    m.count > 0 ==>
      p.startDate.None? && p.spotPriceAmount.None? && p.currency.None? &&
      (p.maxStudents.Some? ==> p.maxStudents.value >= m.held)
  }

  /** updateMutableFields */
  function Patched(c: Cohort, p: CohortPatch, w: Window): Cohort {
    c.(spotPriceAmount := if p.spotPriceAmount.Some? then p.spotPriceAmount.value else c.spotPriceAmount,
       currency := if p.currency.Some? then p.currency.value else c.currency,
       startDate := if p.startDate.Some? then p.startDate.value else c.startDate,
       maxStudents := if p.maxStudents.Some? then p.maxStudents.value else c.maxStudents,
       window := w)
  }

  ghost function ChangeCohort(s: State, id: Id, expertId: Id, p: CohortPatch, m: Members, cal: Calendar)
    : Outcome<State>
  {
    match OwnedCohort(s, id, expertId)
    case Err(e) => Err(e)
    case Ok(c) =>
      if c.workshopId !in s.workshops then Err(NotFound)
      else if !PatchAllowed(p, m) then Err(Conflict)
      else if p.startDate.None? then Ok(s.(cohorts := s.cohorts[id := Patched(c, p, c.window)]))
      else match DeriveSchedule(cal, s.workshops[c.workshopId], p.startDate.value)
        case Err(e) => Err(e)
        case Ok(v) =>
          if OverlapFound(s.cohorts, c.workshopId, v, Some(id)) then Err(Conflict)
          else Ok(s.(cohorts := s.cohorts[id := Patched(c, p, v)]))
  }

  function RemoveCohort(s: State, id: Id, expertId: Id, m: Members): Outcome<State> {
    match OwnedCohort(s, id, expertId)
    case Err(e) => Err(e)
    case Ok(_) => if m.count > 0 then Err(Conflict) else Ok(s.(cohorts := s.cohorts - {id}))
  }

  /** One request; an error leaves the catalog as it was. */
  ghost function Handle(s: State, r: Request, m: Members, cal: Calendar): Outcome<State> {
    match r
    case CreateWorkshop(id, expertId, title, size) =>
      if id in s.workshops then Err(Database)
      else Ok(s.(workshops := s.workshops[id := Workshop(expertId, title, size, Draft, [], None)]))
    case PublishWorkshop(id, expertId) => Publish(s, id, expertId)
    case CreateCohort(_, _, _, _, _, _, _) => AddCohort(s, r, cal)
    case UpdateCohort(id, expertId, p) => ChangeCohort(s, id, expertId, p, m, cal)
    case DeleteCohort(id, expertId) => RemoveCohort(s, id, expertId, m)
    case _ => EditWorkshop(s, r)
  }

  ghost function After(s: State, r: Request, m: Members, cal: Calendar): State {
    var o := Handle(s, r, m, cal);
    if o.Ok? then o.value else s
  }

  // ---- what every request keeps ----

  ghost predicate WorkshopOk(w: Workshop) {
    && AllSessions(w.sessions) && WellFormed(SlotsOf(w.sessions)) && w.maxCohortSize > 0
    && (w.status == Published ==> ReadyToPublish(w))
  }

  lemma EmptyDraftOk(r: Request)
    requires r.CreateWorkshop? && IsRequest(r)
    ensures WorkshopOk(Workshop(r.expertId, r.title, r.maxCohortSize, Draft, [], None))
  {
    assert SlotsOf([]) == [];
  }

  /** The stored window is what deriving it again from the workshop would give. */
  ghost predicate Agrees(s: State, c: Cohort, cal: Calendar) {
    && c.workshopId in s.workshops
    && var w := s.workshops[c.workshopId];
    && w.status == Published && w.expertId == c.expertId && w.timezone == Some(c.workshopTimezone)
    && cal.window(w.sessions, c.workshopTimezone, c.startDate) == Some(c.window)
    && cal.startsRight(w.sessions, c.startDate)
    && c.window.first <= c.window.last && c.maxStudents > 0
  }

  ghost predicate Disjoint(s: State) {
    forall c, d :: c in s.cohorts && d in s.cohorts && c != d && s.cohorts[c].workshopId == s.cohorts[d].workshopId ==>
      !Overlaps(s.cohorts[c].window, s.cohorts[d].window)
  }

  ghost predicate Inv(s: State, cal: Calendar) {
    && (forall w :: w in s.workshops ==> WorkshopOk(s.workshops[w]))
    && (forall c :: c in s.cohorts ==> Agrees(s, s.cohorts[c], cal))
    && Disjoint(s)
  }

  lemma EditKeeps(s: State, r: Request, cal: Calendar)
    requires Inv(s, cal) && IsRequest(r) && (r.UpdateWorkshop? || r.ReplaceSessions? || r.UpdateSession?)
    requires EditWorkshop(s, r).Ok?
    ensures Inv(EditWorkshop(s, r).value, cal)
  {
    hide WellFormed;
    var t := EditWorkshop(s, r).value;
    assert forall c :: c in s.cohorts ==> s.cohorts[c].workshopId != r.id;
    forall w | w in t.workshops
      ensures WorkshopOk(t.workshops[w])
    {
      assert w != r.id ==> t.workshops[w] == s.workshops[w];
    }
  }

  lemma PublishKeeps(s: State, id: Id, expertId: Id, cal: Calendar)
    requires Inv(s, cal) && Publish(s, id, expertId).Ok?
    ensures Inv(Publish(s, id, expertId).value, cal)
  {
    hide WellFormed;
  }

  lemma AddKeeps(s: State, r: Request, cal: Calendar)
    requires Inv(s, cal) && IsCalendar(cal) && IsRequest(r) && r.CreateCohort? && AddCohort(s, r, cal).Ok?
    ensures Inv(AddCohort(s, r, cal).value, cal)
  {
    hide WellFormed, EarliestSession;
  }

  lemma ChangeKeeps(s: State, id: Id, expertId: Id, p: CohortPatch, m: Members, cal: Calendar)
    requires Inv(s, cal) && IsCalendar(cal) && IsRequest(UpdateCohort(id, expertId, p))
    requires ChangeCohort(s, id, expertId, p, m, cal).Ok?
    ensures Inv(ChangeCohort(s, id, expertId, p, m, cal).value, cal)
  {
    hide WellFormed;
  }

  /** No draft has cohorts, so the freeze check refuses nothing that the others would let through: a
      workshop may be edited exactly by its owner and exactly as long as it is a draft. */
  lemma EditAllowedIff(s: State, id: Id, expertId: Id, cal: Calendar)
    requires Inv(s, cal)
    ensures OwnedDraft(s, id, expertId).Ok? <==>
              && id in s.workshops && s.workshops[id].expertId == expertId && s.workshops[id].status == Draft
    ensures id in s.workshops && s.workshops[id].status == Draft ==> !HasCohorts(s, id)
  {
    hide WellFormed;
    assert forall c :: c in s.cohorts ==> Agrees(s, s.cohorts[c], cal);
  }

  /** The window that deriveSchedule answers is the tightest one around the derived start times, and it
      answers one only if the start date falls on the weekday of the earliest session. */
  lemma DerivedWindowIsTight(w: Workshop, startDate: string, zones: string -> ZoneOffset.Zone)
    requires DeriveSchedule(CalendarOf(zones), w, startDate).Ok?
    ensures w.timezone.Some? && w.sessions != []
    ensures CivilDate.DateOnlyWeekday(startDate) == Some(EarliestSession(w.sessions).slot.day)
    ensures
      var v := DeriveSchedule(CalendarOf(zones), w, startDate).value;
      var ds := DeriveCohortSessions(w.sessions, startDate, zones(w.timezone.value));
      && ds.Some? && (forall i :: 0 <= i < |ds.value| ==> v.first <= ds.value[i].startsAt <= v.last)
      && (exists i :: 0 <= i < |ds.value| && ds.value[i].startsAt == v.first)
      && (exists i :: 0 <= i < |ds.value| && ds.value[i].startsAt == v.last)
  {
    hide DeriveCohortSessions, EarliestSession, CivilDate.DateOnlyWeekday, MinStart, MaxStart;
  }

  /** Every request keeps the catalog's invariant: windows agree with their frozen workshops, and
      the windows of one workshop do not overlap. */
  lemma RequestKeeps(s: State, r: Request, m: Members, cal: Calendar)
    requires Inv(s, cal) && IsCalendar(cal) && IsRequest(r)
    ensures Inv(After(s, r, m, cal), cal)
  {
    hide WellFormed, EditWorkshop, Publish, AddCohort, ChangeCohort, WorkshopOk;
    if Handle(s, r, m, cal).Ok? {
      match r
      case CreateWorkshop(_, _, _, _) =>
        EmptyDraftOk(r);
      case PublishWorkshop(id, expertId) => PublishKeeps(s, id, expertId, cal);
      case CreateCohort(_, _, _, _, _, _, _) => AddKeeps(s, r, cal);
      case UpdateCohort(id, expertId, p) => ChangeKeeps(s, id, expertId, p, m, cal);
      case DeleteCohort(_, _) =>
      case _ => EditKeeps(s, r, cal);
    }
  }

  // ---- when a request succeeds, and what it stores ----

  /** The start date falls on the weekday of the earliest session, and v is the window of the dates that
      are derived from it. */
  ghost predicate ScheduleIs(w: Workshop, startDate: string, zones: string -> ZoneOffset.Zone, v: Window) {
    && w.sessions != [] && w.timezone.Some?
    && CivilDate.DateOnlyWeekday(startDate) == Some(EarliestSession(w.sessions).slot.day)
    && var derived := DeriveCohortSessions(w.sessions, startDate, zones(w.timezone.value));
    derived.Some? && derived.value != [] && v == CohortWindow(derived.value)
  }

  lemma ScheduleIff(w: Workshop, startDate: string, zones: string -> ZoneOffset.Zone, v: Window)
    ensures DeriveSchedule(CalendarOf(zones), w, startDate) == Ok(v) <==> ScheduleIs(w, startDate, zones, v)
    ensures DeriveSchedule(CalendarOf(zones), w, startDate).Err? ==>
              DeriveSchedule(CalendarOf(zones), w, startDate).error == Validation
  {
    hide DeriveCohortSessions, EarliestSession, CivilDate.DateOnlyWeekday, CohortWindow;
  }

  /** Every other cohort of the workshop is over before v begins, or begins after v is over. */
  ghost predicate KeepsApart(cohorts: map<Id, Cohort>, workshopId: Id, v: Window, exclude: Option<Id>) {
    forall c :: c in cohorts && cohorts[c].workshopId == workshopId && exclude != Some(c) ==>
      cohorts[c].window.last < v.first || v.last < cohorts[c].window.first
  }

  lemma ApartIff(cohorts: map<Id, Cohort>, workshopId: Id, v: Window, exclude: Option<Id>)
    ensures KeepsApart(cohorts, workshopId, v, exclude) <==> !OverlapFound(cohorts, workshopId, v, exclude)
  {
  }

  lemma EarliestWeek(ss: seq<Session>)
    requires AllSessions(ss) && ss != []
    ensures EarliestSession(ss).slot.week == 1 <==> exists i :: 0 <= i < |ss| && ss[i].slot.week == 1
  {
    SortSessionsCorrect(ss);
    SortKeepsSessions(ss);
    var sorted := SortSessions(ss);
    assert sorted[0] in multiset(ss);
    var j :| 0 <= j < |ss| && ss[j] == sorted[0];
    if i :| 0 <= i < |ss| && ss[i].slot.week == 1 {
      assert ss[i] in multiset(sorted);
      var k :| 0 <= k < |sorted| && sorted[k] == ss[i];
      assert k == 0 || !Before(sorted[k], sorted[0]);
    }
  }

  /** A cohort is created exactly for the owner of a published workshop that has a session in week 1, on a
      start date with a schedule, apart from the workshop's other cohorts; and it stores what was asked for,
      the workshop's time zone and, unless asked otherwise, its size. */
  lemma CohortCreatedIff(s: State, r: Request, m: Members, zones: string -> ZoneOffset.Zone, v: Window)
    requires Inv(s, CalendarOf(zones)) && r.CreateCohort?
    ensures
      var o := Handle(s, r, m, CalendarOf(zones));
      && (o.Ok? && r.id in o.value.cohorts && o.value.cohorts[r.id].window == v <==>
            && r.workshopId in s.workshops
            && var w := s.workshops[r.workshopId];
            && w.expertId == r.expertId && w.status == Published
            && (exists i :: 0 <= i < |w.sessions| && w.sessions[i].slot.week == 1)
            && ScheduleIs(w, r.startDate, zones, v) && KeepsApart(s.cohorts, r.workshopId, v, None)
            && r.id !in s.cohorts)
      && (o.Ok? ==>
            && r.workshopId in s.workshops && r.id in o.value.cohorts
            && var w, cohort := s.workshops[r.workshopId], o.value.cohorts[r.id];
            && o.value == s.(cohorts := s.cohorts[r.id := cohort])
            && cohort.workshopId == r.workshopId && cohort.expertId == r.expertId
            && Some(cohort.workshopTimezone) == w.timezone
            && cohort.spotPriceAmount == r.spotPriceAmount && cohort.currency == r.currency
            && cohort.startDate == r.startDate
            && Some(cohort.maxStudents) == if r.maxStudents.Some? then r.maxStudents else Some(w.maxCohortSize))
  {
    hide EarliestSession, ScheduleIs, OverlapFound, DeriveSchedule, KeepsApart, WellFormed, Agrees, Disjoint;
    if r.workshopId in s.workshops {
      var w := s.workshops[r.workshopId];
      assert WorkshopOk(w);
      ScheduleIff(w, r.startDate, zones, v);
      ApartIff(s.cohorts, r.workshopId, v, None);
      if w.status == Published {
        EarliestWeek(w.sessions);
      }
    }
  }

  /** A cohort is changed exactly by its owner, with members only in its maxStudents and to no less than
      the held seats, and with a new start date only where there is a schedule, apart from the workshop's
      other cohorts; its window is then that of the schedule, or the old one. */
  lemma CohortChangedIff(s: State, id: Id, expertId: Id, p: CohortPatch, m: Members, zones: string -> ZoneOffset.Zone,
                         v: Window)
    requires Inv(s, CalendarOf(zones))
    ensures
      var o := Handle(s, UpdateCohort(id, expertId, p), m, CalendarOf(zones));
      o.Ok? && id in o.value.cohorts && o.value.cohorts[id].window == v <==>
        && id in s.cohorts && s.cohorts[id].expertId == expertId && s.cohorts[id].workshopId in s.workshops
        && (m.count > 0 ==>
              && p.startDate == None && p.spotPriceAmount == None && p.currency == None
              && (p.maxStudents.Some? ==> m.held <= p.maxStudents.value))
        && (p.startDate == None ==> v == s.cohorts[id].window)
        && (p.startDate.Some? ==>
              && ScheduleIs(s.workshops[s.cohorts[id].workshopId], p.startDate.value, zones, v)
              && KeepsApart(s.cohorts, s.cohorts[id].workshopId, v, Some(id)))
  {
    var cal := CalendarOf(zones);
    hide ScheduleIs, OverlapFound, DeriveSchedule, KeepsApart, Agrees, WorkshopOk, Disjoint, CalendarOf;
    if id in s.cohorts {
      AgreesWithWorkshop(s, id, cal);
      hide Inv;
      ApartIff(s.cohorts, s.cohorts[id].workshopId, v, Some(id));
      if p.startDate.Some? {
        ScheduleIff(s.workshops[s.cohorts[id].workshopId], p.startDate.value, zones, v);
      }
    }
  }

  lemma AgreesWithWorkshop(s: State, id: Id, cal: Calendar)
    requires Inv(s, cal) && id in s.cohorts
    ensures s.cohorts[id].workshopId in s.workshops
  {
    assert Agrees(s, s.cohorts[id], cal);
  }

  /** A changed cohort stores exactly what was asked for, and nothing else of it or of the catalog
      changes. */
  lemma CohortChangeStores(s: State, id: Id, expertId: Id, p: CohortPatch, m: Members, cal: Calendar)
    requires Handle(s, UpdateCohort(id, expertId, p), m, cal).Ok?
    ensures
      var t := Handle(s, UpdateCohort(id, expertId, p), m, cal).value;
      && id in s.cohorts && id in t.cohorts && t == s.(cohorts := s.cohorts[id := t.cohorts[id]])
      && var c, d := s.cohorts[id], t.cohorts[id];
      && d == c.(spotPriceAmount := d.spotPriceAmount, currency := d.currency, startDate := d.startDate,
                 maxStudents := d.maxStudents, window := d.window)
      && Stores(p.spotPriceAmount, c.spotPriceAmount, d.spotPriceAmount)
      && Stores(p.currency, c.currency, d.currency)
      && Stores(p.startDate, c.startDate, d.startDate)
      && Stores(p.maxStudents, c.maxStudents, d.maxStudents)
  {
    hide OverlapFound, DeriveSchedule, PatchAllowed;
  }

  /** The new value is the one asked for, or the old one if none was. */
  predicate Stores<T(==)>(asked: Option<T>, was: T, now: T) {
    asked == Some(now) || (asked == None && now == was)
  }

  /** A cohort is deleted exactly by its owner and without members; all others stay. */
  lemma CohortDeletedIff(s: State, id: Id, expertId: Id, m: Members, cal: Calendar)
    ensures
      var o := Handle(s, DeleteCohort(id, expertId), m, cal);
      && (o.Ok? <==> id in s.cohorts && s.cohorts[id].expertId == expertId && m.count == 0)
      && (o.Ok? ==>
            && o.value.workshops == s.workshops
            && o.value.cohorts == map c | c in s.cohorts && c != id :: s.cohorts[c])
  {
  }

  /** A new workshop is a draft without sessions and without a time zone. */
  lemma WorkshopCreatedIff(s: State, r: Request, m: Members, cal: Calendar)
    requires r.CreateWorkshop?
    ensures
      var o := Handle(s, r, m, cal);
      && (o.Ok? <==> r.id !in s.workshops) && (o.Err? ==> o.error == Database)
      && (o.Ok? ==> o.value == s.(workshops := s.workshops[
            r.id := Workshop(r.expertId, r.title, r.maxCohortSize, Draft, [], None)]))
  {
  }

  /** A workshop is published exactly by its owner, from a draft with a title, a time zone and sessions that
      all have titles; nothing but its status changes. */
  lemma WorkshopPublishedIff(s: State, id: Id, expertId: Id, m: Members, cal: Calendar)
    requires Inv(s, cal)
    ensures
      var o := Handle(s, PublishWorkshop(id, expertId), m, cal);
      && (o.Ok? <==>
            && id in s.workshops && s.workshops[id].expertId == expertId && s.workshops[id].status == Draft
            && Visible(s.workshops[id].title) && s.workshops[id].timezone != None && |s.workshops[id].sessions| > 0
            && forall i :: 0 <= i < |s.workshops[id].sessions| ==>
                 s.workshops[id].sessions[i].title.Some? && Visible(s.workshops[id].sessions[i].title.value))
      && (o.Ok? ==> o.value == s.(workshops := s.workshops[id := s.workshops[id].(status := Published)]))
  {
    hide WellFormed;
    assert id in s.workshops ==> WorkshopOk(s.workshops[id]);
  }

  /** The text has a character that is not white space. */
  predicate Visible(s: string) {
    exists i :: 0 <= i < |s| && s[i] != ' ' && s[i] != '\t' && s[i] != '\r' && s[i] != '\n'
  }

  /** What the edits of a draft store: the title and the size, or the time zone and all the sessions, or the
      title and the start time of one session, everything else staying as it was. */
  lemma EditStores(s: State, r: Request, m: Members, cal: Calendar)
    requires Inv(s, cal) && (r.UpdateWorkshop? || r.ReplaceSessions? || r.UpdateSession?)
    ensures
      var o := Handle(s, r, m, cal);
      && (o.Ok? <==>
            && r.id in s.workshops && s.workshops[r.id].expertId == r.expertId && s.workshops[r.id].status == Draft
            && (r.UpdateSession? ==>
                  exists i :: 0 <= i < |s.workshops[r.id].sessions| && s.workshops[r.id].sessions[i].id == r.sessionId))
      && (o.Ok? ==>
            && r.id in o.value.workshops && o.value == s.(workshops := s.workshops[r.id := o.value.workshops[r.id]])
            && var w, x := s.workshops[r.id], o.value.workshops[r.id];
            match r
            case UpdateWorkshop(_, _, title, size) =>
              && x == w.(title := x.title, maxCohortSize := x.maxCohortSize)
              && Stores(title, w.title, x.title) && Stores(size, w.maxCohortSize, x.maxCohortSize)
            case ReplaceSessions(_, _, tz, ss) => x == w.(sessions := ss, timezone := Some(tz))
            case UpdateSession(_, _, sid, title, time) =>
              && x == w.(sessions := x.sessions) && |x.sessions| == |w.sessions|
              && forall i :: 0 <= i < |w.sessions| ==> SessionStores(w.sessions[i], x.sessions[i], sid, title, time))
  {
    hide WellFormed;
    EditAllowedIff(s, r.id, r.expertId, cal);
    hide OwnedDraft, Inv;
    OwnedDraftIs(s, r.id, r.expertId);
  }

  predicate SessionStores(was: Session, now: Session, id: Id, title: Option<string>, time: Option<string>) {
    if was.id != id then now == was
    else
      && now == was.(title := now.title, startTime := now.startTime)
      && now.title == (if title.Some? then title else was.title) && Stores(time, was.startTime, now.startTime)
  }

  lemma OwnedDraftIs(s: State, id: Id, expertId: Id)
    ensures OwnedDraft(s, id, expertId).Ok? ==>
              id in s.workshops && OwnedDraft(s, id, expertId).value == s.workshops[id]
  {
  }

  ghost predicate HasSchedule(w: Workshop, startDate: string, zones: string -> ZoneOffset.Zone) {
    exists v :: ScheduleIs(w, startDate, zones, v)
  }

  lemma HasScheduleIff(w: Workshop, startDate: string, zones: string -> ZoneOffset.Zone)
    ensures HasSchedule(w, startDate, zones) <==> DeriveSchedule(CalendarOf(zones), w, startDate).Ok?
    ensures DeriveSchedule(CalendarOf(zones), w, startDate).Err? ==>
              DeriveSchedule(CalendarOf(zones), w, startDate).error == Validation
  {
    hide ScheduleIs, DeriveSchedule;
    var o := DeriveSchedule(CalendarOf(zones), w, startDate);
    if HasSchedule(w, startDate, zones) {
      var v :| ScheduleIs(w, startDate, zones, v);
      ScheduleIff(w, startDate, zones, v);
    } else if o.Ok? {
      ScheduleIff(w, startDate, zones, o.value);
    } else {
      ScheduleIff(w, startDate, zones, Window(0, 0));
    }
  }

  /** Why the creation or the change of a cohort is refused. */
  lemma CohortRefusals(s: State, r: Request, m: Members, zones: string -> ZoneOffset.Zone)
    requires Inv(s, CalendarOf(zones)) && (r.CreateCohort? || r.UpdateCohort? || r.DeleteCohort?)
    requires Handle(s, r, m, CalendarOf(zones)).Err?
    ensures
      Handle(s, r, m, CalendarOf(zones)).error ==
        match r
        case CreateCohort(id, expertId, workshopId, _, _, startDate, _) =>
          if workshopId !in s.workshops then NotFound
          else
            var w := s.workshops[workshopId];
            if w.expertId != expertId then Forbidden
            else if w.status != Published then Conflict
            else if (forall i :: 0 <= i < |w.sessions| ==> w.sessions[i].slot.week != 1)
                    || !HasSchedule(w, startDate, zones) then Validation
            else if id in s.cohorts && forall v :: ScheduleIs(w, startDate, zones, v) ==>
                      KeepsApart(s.cohorts, workshopId, v, None) then Database
            else Conflict
        case UpdateCohort(id, expertId, p) =>
          if id !in s.cohorts then NotFound
          else if s.cohorts[id].expertId != expertId then Forbidden
          else if m.count == 0 && p.startDate.Some? && s.cohorts[id].workshopId in s.workshops
                  && !HasSchedule(s.workshops[s.cohorts[id].workshopId], p.startDate.value, zones) then Validation
          else Conflict
        case DeleteCohort(id, expertId) =>
          if id !in s.cohorts then NotFound else if s.cohorts[id].expertId != expertId then Forbidden else Conflict
  {
    hide EarliestSession, ScheduleIs, OverlapFound, DeriveSchedule, KeepsApart, WellFormed, HasSchedule, Disjoint;
    match r
    case CreateCohort(id, expertId, workshopId, _, _, startDate, _) =>
      if workshopId in s.workshops {
        var w := s.workshops[workshopId];
        assert WorkshopOk(w);
        HasScheduleIff(w, startDate, zones);
        if w.status == Published {
          EarliestWeek(w.sessions);
        }
        var o := DeriveSchedule(CalendarOf(zones), w, startDate);
        if o.Ok? {
          forall v
            ensures ScheduleIs(w, startDate, zones, v) <==> v == o.value
          {
            ScheduleIff(w, startDate, zones, v);
          }
          ApartIff(s.cohorts, workshopId, o.value, None);
        }
      }
    case UpdateCohort(id, expertId, p) =>
      if id in s.cohorts {
        assert Agrees(s, s.cohorts[id], CalendarOf(zones));
        if p.startDate.Some? {
          HasScheduleIff(s.workshops[s.cohorts[id].workshopId], p.startDate.value, zones);
        }
      }
    case DeleteCohort(_, _) =>
  }

  /** Why the publication or an edit of a workshop is refused. */
  lemma WorkshopRefusals(s: State, r: Request, m: Members, cal: Calendar)
    requires Inv(s, cal) && (r.PublishWorkshop? || r.UpdateWorkshop? || r.ReplaceSessions? || r.UpdateSession?)
    requires Handle(s, r, m, cal).Err?
    ensures
      Handle(s, r, m, cal).error ==
        if r.id !in s.workshops then NotFound
        else if HasCohorts(s, r.id) && !r.PublishWorkshop? then Conflict
        else if s.workshops[r.id].expertId != r.expertId then Forbidden
        else if s.workshops[r.id].status != Draft then Conflict
        else if r.PublishWorkshop? then Validation
        else NotFound
  {
    hide WellFormed, WorkshopOk, Disjoint;
    assert forall c :: c in s.cohorts ==> Agrees(s, s.cohorts[c], cal);
  }

  // ---- what a request leaves alone ----

  /** What a member signed up for. */
  predicate SameTerms(c: Cohort, d: Cohort) {
    && c.workshopId == d.workshopId && c.expertId == d.expertId && c.workshopTimezone == d.workshopTimezone
    && c.spotPriceAmount == d.spotPriceAmount && c.currency == d.currency
    && c.startDate == d.startDate && c.window == d.window
  }

  /** How the cohorts may change in one request, given the memberships m of the cohort it names. */
  ghost predicate CohortsMove(s: State, t: State, r: Request, m: Members) {
    && (forall c :: c in s.cohorts && c !in t.cohorts ==> r.DeleteCohort? && r.id == c && m.count == 0)
    && (forall c :: c in t.cohorts && c !in s.cohorts ==> r.CreateCohort? && r.id == c)
    && (forall c :: c in s.cohorts && c in t.cohorts && t.cohorts[c] != s.cohorts[c] ==>
          && r.UpdateCohort? && r.id == c
          && t.cohorts[c].workshopId == s.cohorts[c].workshopId && t.cohorts[c].expertId == s.cohorts[c].expertId
          && (m.count > 0 ==>
                && SameTerms(s.cohorts[c], t.cohorts[c])
                && (t.cohorts[c].maxStudents == s.cohorts[c].maxStudents || t.cohorts[c].maxStudents >= m.held)))
  }

  /** A cohort with memberships is never deleted, and of its fields only maxStudents changes, never
      to less than the held seats. */
  lemma RequestMoves(s: State, r: Request, m: Members, cal: Calendar)
    ensures CohortsMove(s, After(s, r, m, cal), r, m)
  {
    hide EarliestSession, DeriveSchedule, OverlapFound;
  }

  /** At any instant at most one cohort of a workshop is running. */
  lemma OneCohortRuns(s: State, cal: Calendar, c: Id, d: Id, now: int)
    requires Inv(s, cal) && c in s.cohorts && d in s.cohorts && s.cohorts[c].workshopId == s.cohorts[d].workshopId
    requires StatusAt(s.cohorts[c].window, now) == Running && StatusAt(s.cohorts[d].window, now) == Running
    ensures c == d
  {
    hide WellFormed, WorkshopOk, Agrees;
  }

  /** The dates shown for a stored cohort are derived without an error from sessions that still give
      the cached window.  The first one is the normalised start date and each falls on the weekday of
      its session exactly when the normalised start date is not before the year 100. */
  lemma CohortDatesRight(s: State, id: Id, zones: string -> ZoneOffset.Zone)
    requires Inv(s, CalendarOf(zones)) && id in s.cohorts
    ensures s.cohorts[id].workshopId in s.workshops
    ensures
      var c := s.cohorts[id];
      var derived := DeriveCohortSessions(s.workshops[c.workshopId].sessions, c.startDate, zones(c.workshopTimezone));
      && derived.Some? && derived.value != [] && c.window == CohortWindow(derived.value)
      && CivilDate.ToUtcMidnight(c.startDate).Some?
      && var start := CivilDate.ToUtcMidnight(c.startDate).value;
      && (CivilDate.YearOf(start) >= 100 <==> CivilDate.ToUtcMidnight(derived.value[0].date) == Some(start))
      && (CivilDate.YearOf(start) >= 100 <==>
            forall i :: 0 <= i < |derived.value| ==>
              CivilDate.DateOnlyWeekday(derived.value[i].date) == Some(derived.value[i].session.slot.day))
  {
    hide DeriveCohortSessions, EarliestSession, WellFormed, CivilDate.ToUtcMidnight, CivilDate.YearOf, CohortWindow,
         CivilDate.DateOnlyWeekday;
    var c := s.cohorts[id];
    assert Agrees(s, c, CalendarOf(zones));
    DerivedDates(s.workshops[c.workshopId].sessions, c.startDate, zones(c.workshopTimezone));
  }
}
