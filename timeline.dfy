/**
 * The daily timeline: every attendance row and visitor row of one day turned
 * into check-in, lunch, check-out and visitor events, ordered by time of day
 * with a fixed priority between kinds at the same minute.
 */
module Timeline {
  import opened Wrappers
  import opened Text
  import opened Clock
  import opened Records
  import opened Sorting

  datatype Kind = CheckIn | LunchOut | LunchIn | CheckOut | VisitorIn | VisitorOut

  /** The tie-break priority `order` of the source. */
  function Rank(k: Kind): nat
  {
    match k
    case CheckIn => 1
    case VisitorIn => 1
    case LunchOut => 2
    case LunchIn => 3
    case CheckOut => 4
    case VisitorOut => 5
  }

  /** `late` is false on every event but a late check-in (the source leaves it undefined there). */
  datatype Event = Event(
    id: string, t: Clock, date: string, name: string, kind: Kind,
    subtitle: string, line: string, staffId: Option<int>, late: bool)

  /** An event is flagged late exactly when it is a check-in after 09:30. */
  predicate LateFlagged(e: Event)
  {
    e.late <==> e.kind == CheckIn && IsLate(e.t)
  }

  /** What every event of the timeline of `day` satisfies. */
  predicate OnTimeline(e: Event, day: string)
  {
    e.date == day && e.t != "" && LateFlagged(e)
  }

  /** The comparator of the timeline sort: minute of day, then kind priority. */
  function EventKey(e: Event): Key
  {
    Key(MinuteOr0(e.t), Rank(e.kind))
  }

  /** The time field of an attendance row that an event kind reports ("" for the visitor kinds). */
  function FieldOf(a: Attendance, k: Kind): Clock
  {
    match k
    case CheckIn => a.checkIn
    case LunchOut => a.lunchOut
    case LunchIn => a.lunchIn
    case CheckOut => a.checkOut
    case VisitorIn => ""
    case VisitorOut => ""
  }

  /** The card label: `(entryType || '').replace('_', ' ').toLowerCase() || 'own card'`. */
  function EntryLabel(e: Option<EntryType>): string
  {
    match e
    case Some(TempCard) => "temp card"
    case _ => "own card"
  }

  /** The event an attendance row contributes for one of its four time fields. */
  function AttendanceEvent(a: Attendance, k: Kind, name: string, entry: string): Event
  {
    var rid := IntToString(a.id);
    match k
    case CheckIn =>
      Event("a-" + rid + "-in", a.checkIn, a.date, name, CheckIn, entry,
            "IN: " + GateStringIn(a), Some(a.staffId), IsLate(a.checkIn))
    case LunchOut =>
      Event("a-" + rid + "-lo", a.lunchOut, a.date, name, LunchOut, "lunch out",
            "Went to lunch", Some(a.staffId), false)
    case LunchIn =>
      Event("a-" + rid + "-li", a.lunchIn, a.date, name, LunchIn, "lunch in",
            "Returned from lunch", Some(a.staffId), false)
    case _ =>
      Event("a-" + rid + "-out", a.checkOut, a.date, name, CheckOut, entry,
            "OUT: " + GateStringOut(a), Some(a.staffId), false)
  }

  /** The event for field `k` when that field is present, nothing otherwise. */
  function EmitIfPresent(a: Attendance, k: Kind, name: string, entry: string): seq<Event>
  {
    if FieldOf(a, k) != "" then [AttendanceEvent(a, k, name, entry)] else []
  }

  /** The events of one attendance row, in the order the source pushes them. */
  function AttendanceEvents(a: Attendance, staff: seq<Staff>): seq<Event>
  {
    var name := StaffName(staff, a.staffId);
    var entry := EntryLabel(a.entryType);
    EmitIfPresent(a, CheckIn, name, entry) + EmitIfPresent(a, LunchOut, name, entry)
      + EmitIfPresent(a, LunchIn, name, entry) + EmitIfPresent(a, CheckOut, name, entry)
  }

  /** The event a visitor row contributes for its check-in (`arrival`) or its check-out. */
  function VisitorEvent(v: Visitor, arrival: bool, base: string): Event
  {
    var rid := IntToString(v.id);
    if arrival then Event("v-" + rid + "-in", v.checkIn, v.date, v.name, VisitorIn, base, "IN (visitor)", None, false)
    else Event("v-" + rid + "-out", v.checkOut, v.date, v.name, VisitorOut, base, "OUT (visitor)", None, false)
  }

  /** "visitor • host: {host}[ • {company}][ • {purpose}]" */
  function VisitorSubtitle(v: Visitor, staff: seq<Staff>): string
  {
    "visitor • host: " + HostName(staff, v)
    + (if v.company != "" then " • " + v.company else "")
    + (if v.purpose != "" then " • " + v.purpose else "")
  }

  /** The events of one visitor row. */
  function VisitorEvents(v: Visitor, staff: seq<Staff>): seq<Event>
  {
    var base := VisitorSubtitle(v, staff);
    (if v.checkIn != "" then [VisitorEvent(v, true, base)] else [])
      + (if v.checkOut != "" then [VisitorEvent(v, false, base)] else [])
  }

  function AllAttendanceEvents(rows: seq<Attendance>, staff: seq<Staff>): seq<Event>
  {
    if rows == [] then []
    else AllAttendanceEvents(rows[..|rows| - 1], staff) + AttendanceEvents(rows[|rows| - 1], staff)
  }

  function AllVisitorEvents(rows: seq<Visitor>, staff: seq<Staff>): seq<Event>
  {
    if rows == [] then []
    else AllVisitorEvents(rows[..|rows| - 1], staff) + VisitorEvents(rows[|rows| - 1], staff)
  }

  /** The unsorted events of a day: attendance rows first, then visitor rows, each in input order. */
  function DayEvents(att: seq<Attendance>, vis: seq<Visitor>, staff: seq<Staff>, day: string): seq<Event>
  {
    AllAttendanceEvents(AttendanceOfDay(att, day), staff)
      + AllVisitorEvents(VisitorsOfDay(vis, day), staff)
  }

  lemma AttendanceEventsStep(rows: seq<Attendance>, i: nat, staff: seq<Staff>)
    requires i < |rows|
    ensures AllAttendanceEvents(rows[..i + 1], staff)
            == AllAttendanceEvents(rows[..i], staff) + AttendanceEvents(rows[i], staff)
  {
    assert rows[..i + 1][..i] == rows[..i];
  }

  lemma VisitorEventsStep(rows: seq<Visitor>, i: nat, staff: seq<Staff>)
    requires i < |rows|
    ensures AllVisitorEvents(rows[..i + 1], staff)
            == AllVisitorEvents(rows[..i], staff) + VisitorEvents(rows[i], staff)
  {
    assert rows[..i + 1][..i] == rows[..i];
  }

  lemma Concat4<T>(s: seq<T>, a: seq<T>, b: seq<T>, c: seq<T>, d: seq<T>)
    ensures s + a + b + c + d == s + (a + b + c + d)
  {
  }

  /** The body of the attendance loop: push the row's events onto `events`. */
  method PushAttendanceEvents(events: seq<Event>, a: Attendance, staff: seq<Staff>)
    returns (pushed: seq<Event>)
    ensures pushed == events + AttendanceEvents(a, staff)
  {
    var name := StaffName(staff, a.staffId);
    var entry := EntryLabel(a.entryType);
    ghost var e1 := EmitIfPresent(a, CheckIn, name, entry);
    ghost var e2 := EmitIfPresent(a, LunchOut, name, entry);
    ghost var e3 := EmitIfPresent(a, LunchIn, name, entry);
    ghost var e4 := EmitIfPresent(a, CheckOut, name, entry);
    pushed := events;
    if a.checkIn != "" { pushed := pushed + [AttendanceEvent(a, CheckIn, name, entry)]; }
    assert pushed == events + e1;
    if a.lunchOut != "" { pushed := pushed + [AttendanceEvent(a, LunchOut, name, entry)]; }
    assert pushed == events + e1 + e2;
    if a.lunchIn != "" { pushed := pushed + [AttendanceEvent(a, LunchIn, name, entry)]; }
    assert pushed == events + e1 + e2 + e3;
    if a.checkOut != "" { pushed := pushed + [AttendanceEvent(a, CheckOut, name, entry)]; }
    assert pushed == events + e1 + e2 + e3 + e4;
    Concat4(events, e1, e2, e3, e4);
  }

  /** The body of the visitor loop: push the row's events onto `events`. */
  method PushVisitorEvents(events: seq<Event>, v: Visitor, staff: seq<Staff>)
    returns (pushed: seq<Event>)
    ensures pushed == events + VisitorEvents(v, staff)
  {
    var base := VisitorSubtitle(v, staff);
    pushed := events;
    if v.checkIn != "" { pushed := pushed + [VisitorEvent(v, true, base)]; }
    if v.checkOut != "" { pushed := pushed + [VisitorEvent(v, false, base)]; }
  }

  /**
   * expandEventsForDay: the events of the day's attendance rows (in input
   * order), then of its visitor rows, sorted by minute and kind priority.
   */
  method ExpandEventsForDay(att: seq<Attendance>, vis: seq<Visitor>, staff: seq<Staff>, day: string)
    returns (events: seq<Event>)
    ensures events == SortBy(DayEvents(att, vis, staff, day), EventKey)
    ensures SortedBy(events, EventKey)
    ensures multiset(events) == multiset(DayEvents(att, vis, staff, day))
  {
    events := CollectAttendanceEvents(AttendanceOfDay(att, day), staff);
    events := AppendVisitorEvents(events, VisitorsOfDay(vis, day), staff);
    events := SortBy(events, EventKey);
  }

  /** The first loop of expandEventsForDay: each attendance row's events, row by row. */
  method CollectAttendanceEvents(rows: seq<Attendance>, staff: seq<Staff>) returns (events: seq<Event>)
    ensures events == AllAttendanceEvents(rows, staff)
  {
    events := [];
    for i := 0 to |rows|
      invariant events == AllAttendanceEvents(rows[..i], staff)
    {
      events := PushAttendanceEvents(events, rows[i], staff);
      AttendanceEventsStep(rows, i, staff);
    }
    assert rows[..|rows|] == rows;
  }

  /** The second loop of expandEventsForDay: each visitor row's events appended, row by row. */
  method AppendVisitorEvents(start: seq<Event>, rows: seq<Visitor>, staff: seq<Staff>) returns (events: seq<Event>)
    ensures events == start + AllVisitorEvents(rows, staff)
  {
    events := start;
    for i := 0 to |rows|
      invariant events == start + AllVisitorEvents(rows[..i], staff)
    {
      events := PushVisitorEvents(events, rows[i], staff);
      VisitorEventsStep(rows, i, staff);
    }
    assert rows[..|rows|] == rows;
  }

  predicate IsAttendanceKind(k: Kind)
  {
    k == CheckIn || k == LunchOut || k == LunchIn || k == CheckOut
  }

  /** The kinds of a sequence of events, in order. */
  function Kinds(events: seq<Event>): (ks: seq<Kind>)
    ensures |ks| == |events|
  {
    seq(|events|, i requires 0 <= i < |events| => events[i].kind)
  }

  lemma KindsConcat(s: seq<Event>, t: seq<Event>)
    ensures Kinds(s + t) == Kinds(s) + Kinds(t)
  {
    assert forall i :: 0 <= i < |s + t| ==> Kinds(s + t)[i] == (Kinds(s) + Kinds(t))[i];
  }

  /** The kinds of the fields an attendance row has, in the order the source emits them. */
  function PresentKinds(a: Attendance): seq<Kind>
  {
    (if a.checkIn != "" then [CheckIn] else []) + (if a.lunchOut != "" then [LunchOut] else [])
    + (if a.lunchIn != "" then [LunchIn] else []) + (if a.checkOut != "" then [CheckOut] else [])
  }

  /** How many of the four time fields of a row are present. */
  function PresentFields(a: Attendance): nat
  {
    (if a.checkIn != "" then 1 else 0) + (if a.lunchOut != "" then 1 else 0)
    + (if a.lunchIn != "" then 1 else 0) + (if a.checkOut != "" then 1 else 0)
  }

  function FieldTotal(rows: seq<Attendance>): nat
  {
    if rows == [] then 0 else FieldTotal(rows[..|rows| - 1]) + PresentFields(rows[|rows| - 1])
  }

  function VisitorFields(v: Visitor): nat
  {
    (if v.checkIn != "" then 1 else 0) + (if v.checkOut != "" then 1 else 0)
  }

  function VisitorFieldTotal(rows: seq<Visitor>): nat
  {
    if rows == [] then 0 else VisitorFieldTotal(rows[..|rows| - 1]) + VisitorFields(rows[|rows| - 1])
  }

  /** One field contributes one event of its own kind when present, none otherwise. */
  lemma EmitKinds(a: Attendance, k: Kind, name: string, entry: string)
    requires IsAttendanceKind(k)
    ensures Kinds(EmitIfPresent(a, k, name, entry)) == if FieldOf(a, k) != "" then [k] else []
  {
  }

  /** The event a field contributes carries that field's time, the row's date and staff id, and the late flag. */
  lemma EmitEvent(a: Attendance, k: Kind, name: string, entry: string)
    requires IsAttendanceKind(k)
    ensures forall e :: e in EmitIfPresent(a, k, name, entry) ==>
              && e.kind == k && e.t == FieldOf(a, k) && e.t != ""
              && e.date == a.date && e.staffId == Some(a.staffId)
              && LateFlagged(e)
  {
  }

  /** The row event `e` reports: one of its present fields, with its date, staff id and late flag. */
  ghost predicate EventOfRow(e: Event, a: Attendance)
  {
    && IsAttendanceKind(e.kind) && e.t == FieldOf(a, e.kind) && e.t != ""
    && e.date == a.date && e.staffId == Some(a.staffId)
    && LateFlagged(e)
  }

  /**
   * An attendance row yields exactly one event per present time field, of
   * that field's kind, in the order check-in, lunch out, lunch in, check-out.
   */
  lemma AttendanceEventsKinds(a: Attendance, staff: seq<Staff>)
    ensures Kinds(AttendanceEvents(a, staff)) == PresentKinds(a)
    ensures |AttendanceEvents(a, staff)| == PresentFields(a)
  {
    var name := StaffName(staff, a.staffId);
    var entry := EntryLabel(a.entryType);
    var e1 := EmitIfPresent(a, CheckIn, name, entry);
    var e2 := EmitIfPresent(a, LunchOut, name, entry);
    var e3 := EmitIfPresent(a, LunchIn, name, entry);
    var e4 := EmitIfPresent(a, CheckOut, name, entry);
    EmitKinds(a, CheckIn, name, entry);
    EmitKinds(a, LunchOut, name, entry);
    EmitKinds(a, LunchIn, name, entry);
    EmitKinds(a, CheckOut, name, entry);
    KindsOfFour(a, e1, e2, e3, e4);
  }

  lemma KindsOfFour(a: Attendance, e1: seq<Event>, e2: seq<Event>, e3: seq<Event>, e4: seq<Event>)
    requires Kinds(e1) == (if a.checkIn != "" then [CheckIn] else [])
    requires Kinds(e2) == (if a.lunchOut != "" then [LunchOut] else [])
    requires Kinds(e3) == (if a.lunchIn != "" then [LunchIn] else [])
    requires Kinds(e4) == (if a.checkOut != "" then [CheckOut] else [])
    ensures Kinds(e1 + e2 + e3 + e4) == PresentKinds(a)
    ensures |e1 + e2 + e3 + e4| == PresentFields(a)
  {
    KindsConcat(e1 + e2 + e3, e4);
    KindsConcat(e1 + e2, e3);
    KindsConcat(e1, e2);
  }

  /**
   * Each event of an attendance row carries one of the row's present fields,
   * the row's date and staff id, and a late flag set exactly on a late check-in.
   */
  lemma AttendanceEventsOfRow(a: Attendance, staff: seq<Staff>)
    ensures forall e :: e in AttendanceEvents(a, staff) ==> EventOfRow(e, a)
  {
    var name := StaffName(staff, a.staffId);
    var entry := EntryLabel(a.entryType);
    var e1 := EmitIfPresent(a, CheckIn, name, entry);
    var e2 := EmitIfPresent(a, LunchOut, name, entry);
    var e3 := EmitIfPresent(a, LunchIn, name, entry);
    var e4 := EmitIfPresent(a, CheckOut, name, entry);
    EmitEvent(a, CheckIn, name, entry);
    EmitEvent(a, LunchOut, name, entry);
    EmitEvent(a, LunchIn, name, entry);
    EmitEvent(a, CheckOut, name, entry);
    assert AttendanceEvents(a, staff) == e1 + e2 + e3 + e4;
    forall e | e in e1 + e2 + e3 + e4 ensures EventOfRow(e, a) {
      assert e in e1 || e in e2 || e in e3 || e in e4;
    }
  }

  /** A visitor row yields a VISITOR_IN for a present check-in, then a VISITOR_OUT for a present check-out. */
  lemma VisitorEventsKinds(v: Visitor, staff: seq<Staff>)
    ensures Kinds(VisitorEvents(v, staff))
            == (if v.checkIn != "" then [VisitorIn] else []) + (if v.checkOut != "" then [VisitorOut] else [])
    ensures |VisitorEvents(v, staff)| == VisitorFields(v)
  {
    var base := VisitorSubtitle(v, staff);
    var e1: seq<Event> := if v.checkIn != "" then [VisitorEvent(v, true, base)] else [];
    var e2: seq<Event> := if v.checkOut != "" then [VisitorEvent(v, false, base)] else [];
    KindsConcat(e1, e2);
  }

  /** The visitor-row event `e` reports: its arrival or departure time, its date, no staff id, never late. */
  ghost predicate VisitorEventOfRow(e: Event, v: Visitor)
  {
    && (e.kind == VisitorIn || e.kind == VisitorOut)
    && e.t == (if e.kind == VisitorIn then v.checkIn else v.checkOut) && e.t != ""
    && e.date == v.date && e.staffId.None? && !e.late
  }

  lemma VisitorEventsOfRow(v: Visitor, staff: seq<Staff>)
    ensures forall e :: e in VisitorEvents(v, staff) ==> VisitorEventOfRow(e, v)
  {
  }

  /**
   * What an attendance event shows: the staff member's name ("Unknown" when
   * the id matches no one), and as subtitle the card label on check-in and
   * check-out or the lunch direction otherwise.
   */
  lemma AttendanceEventsShown(a: Attendance, staff: seq<Staff>)
    ensures forall e :: e in AttendanceEvents(a, staff) ==>
              && e.name == StaffName(staff, a.staffId)
              && e.subtitle == (if e.kind == LunchOut then "lunch out"
                                else if e.kind == LunchIn then "lunch in"
                                else EntryLabel(a.entryType))
  {
    var name, entry := StaffName(staff, a.staffId), EntryLabel(a.entryType);
    EmittedShown(a, CheckIn, name, entry);
    EmittedShown(a, LunchOut, name, entry);
    EmittedShown(a, LunchIn, name, entry);
    EmittedShown(a, CheckOut, name, entry);
  }

  /** The event emitted for field `k`, if any, has kind `k`, the given name and the subtitle for `k`. */
  lemma EmittedShown(a: Attendance, k: Kind, name: string, entry: string)
    ensures forall e :: e in EmitIfPresent(a, k, name, entry) ==>
              && e.kind == k && e.name == name
              && e.subtitle == (if k == LunchOut then "lunch out" else if k == LunchIn then "lunch in" else entry)
  {
  }

  /** What a visitor event shows: the visitor's own name, and the subtitle naming the host. */
  lemma VisitorEventsShown(v: Visitor, staff: seq<Staff>)
    ensures forall e :: e in VisitorEvents(v, staff) ==>
              e.name == v.name && e.subtitle == VisitorSubtitle(v, staff)
  {
  }

  /** The subtitle starts with the host's name, "-" when the visitor has no known host. */
  lemma VisitorSubtitleHost(v: Visitor, staff: seq<Staff>)
    ensures var prefix := "visitor • host: " + HostName(staff, v);
            VisitorSubtitle(v, staff)[..|prefix|] == prefix
  {
  }

  lemma {:induction false} AllAttendanceEventsFaithful(rows: seq<Attendance>, staff: seq<Staff>, day: string)
    requires forall a :: a in rows ==> a.date == day
    ensures |AllAttendanceEvents(rows, staff)| == FieldTotal(rows)
    ensures forall e :: e in AllAttendanceEvents(rows, staff) ==> OnTimeline(e, day)
  {
    if rows != [] {
      var init := rows[..|rows| - 1];
      var last := rows[|rows| - 1];
      assert last in rows;
      assert forall a :: a in init ==> a in rows;
      AllAttendanceEventsFaithful(init, staff, day);
      AttendanceEventsKinds(last, staff);
      AttendanceEventsOfRow(last, staff);
      assert AllAttendanceEvents(rows, staff) == AllAttendanceEvents(init, staff) + AttendanceEvents(last, staff);
      forall e | e in AllAttendanceEvents(rows, staff) ensures OnTimeline(e, day) {
        if e !in AllAttendanceEvents(init, staff) {
          assert EventOfRow(e, last);
        }
      }
    }
  }

  lemma {:induction false} AllVisitorEventsFaithful(rows: seq<Visitor>, staff: seq<Staff>, day: string)
    requires forall v :: v in rows ==> v.date == day
    ensures |AllVisitorEvents(rows, staff)| == VisitorFieldTotal(rows)
    ensures forall e :: e in AllVisitorEvents(rows, staff) ==> OnTimeline(e, day) && !e.late
  {
    if rows != [] {
      var init := rows[..|rows| - 1];
      var last := rows[|rows| - 1];
      assert last in rows;
      assert forall v :: v in init ==> v in rows;
      AllVisitorEventsFaithful(init, staff, day);
      VisitorEventsKinds(last, staff);
      VisitorEventsOfRow(last, staff);
      assert AllVisitorEvents(rows, staff) == AllVisitorEvents(init, staff) + VisitorEvents(last, staff);
      forall e | e in AllVisitorEvents(rows, staff) ensures OnTimeline(e, day) && !e.late {
        if e !in AllVisitorEvents(init, staff) {
          assert VisitorEventOfRow(e, last);
        }
      }
    }
  }

  /**
   * Only rows dated `day` contribute; the day yields one event per present
   * field of its rows; every event is dated `day`, has a time, and is flagged
   * late exactly when it is a late check-in.
   */
  lemma DayEventsFaithful(att: seq<Attendance>, vis: seq<Visitor>, staff: seq<Staff>, day: string)
    ensures |DayEvents(att, vis, staff, day)|
            == FieldTotal(AttendanceOfDay(att, day)) + VisitorFieldTotal(VisitorsOfDay(vis, day))
    ensures forall e :: e in DayEvents(att, vis, staff, day) ==> OnTimeline(e, day)
  {
    AllAttendanceEventsFaithful(AttendanceOfDay(att, day), staff, day);
    AllVisitorEventsFaithful(VisitorsOfDay(vis, day), staff, day);
  }

  /**
   * The day's timeline is in order, holds exactly the day's events, keeps
   * events with equal keys in the order they were produced, has one event per
   * present field of the day's rows, and every event is dated that day, has a
   * time, and is flagged late exactly when it is a late check-in.
   */
  lemma TimelineFacts(att: seq<Attendance>, vis: seq<Visitor>, staff: seq<Staff>, day: string)
    ensures var events := SortBy(DayEvents(att, vis, staff, day), EventKey);
            && SortedBy(events, EventKey)
            && multiset(events) == multiset(DayEvents(att, vis, staff, day))
            && (forall k :: WithKey(events, EventKey, k) == WithKey(DayEvents(att, vis, staff, day), EventKey, k))
            && |events| == FieldTotal(AttendanceOfDay(att, day)) + VisitorFieldTotal(VisitorsOfDay(vis, day))
            && (forall e :: e in events ==> OnTimeline(e, day))
  {
    var unsorted := DayEvents(att, vis, staff, day);
    var events := SortBy(unsorted, EventKey);
    forall k ensures WithKey(events, EventKey, k) == WithKey(unsorted, EventKey, k) {
      SortStable(unsorted, EventKey, k);
    }
    DayEventsFaithful(att, vis, staff, day);
    forall e | e in events ensures e in unsorted {
      assert e in multiset(events);
    }
  }

  /** A row with all four fields yields its events in field order, each carrying its own field's time. */
  lemma FullRowEvents(a: Attendance, staff: seq<Staff>)
    requires a.checkIn != "" && a.lunchOut != "" && a.lunchIn != "" && a.checkOut != ""
    ensures var evs := AttendanceEvents(a, staff);
            && |evs| == 4
            && evs[0].kind == CheckIn && evs[0].t == a.checkIn
            && evs[1].kind == LunchOut && evs[1].t == a.lunchOut
            && evs[2].kind == LunchIn && evs[2].t == a.lunchIn
            && evs[3].kind == CheckOut && evs[3].t == a.checkOut
  {
  }

  /** The day of a single row dated `day` is that row's events. */
  lemma SingleRowDay(a: Attendance, staff: seq<Staff>, day: string)
    requires a.date == day
    ensures DayEvents([a], [], staff, day) == AttendanceEvents(a, staff)
  {
    assert AttendanceOfDay([a], day) == [a];
    assert VisitorsOfDay([], day) == [];
    assert AllAttendanceEvents([a], staff) == AttendanceEvents(a, staff);
  }

  /** Four events at strictly increasing minutes are already in timeline order. */
  lemma FourInOrder(evs: seq<Event>)
    requires |evs| == 4
    requires EventKey(evs[0]).primary < EventKey(evs[1]).primary < EventKey(evs[2]).primary < EventKey(evs[3]).primary
    ensures SortBy(evs, EventKey) == evs
  {
    AdjacentSorted(evs, EventKey);
    SortSortedIsIdentity(evs, EventKey);
  }

  /** A full day of one person: check-in, lunch out, lunch in and check-out come out in that order. */
  lemma FullDayOrder(a: Attendance, staff: seq<Staff>, day: string)
    requires a.date == day
    requires a.checkIn == "08:00" && a.lunchOut == "12:00" && a.lunchIn == "13:00" && a.checkOut == "17:00"
    ensures var evs := SortBy(DayEvents([a], [], staff, day), EventKey);
            |evs| == 4 && evs[0].kind == CheckIn && evs[1].kind == LunchOut
            && evs[2].kind == LunchIn && evs[3].kind == CheckOut
  {
    SingleRowDay(a, staff, day);
    FullRowEvents(a, staff);
    ToMinFields(a.checkIn);
    ToMinFields(a.lunchOut);
    ToMinFields(a.lunchIn);
    ToMinFields(a.checkOut);
    FourInOrder(AttendanceEvents(a, staff));
  }

  /** The day of one attendance row and one visitor row, both dated `day`. */
  lemma PairDay(a: Attendance, v: Visitor, staff: seq<Staff>, day: string)
    requires a.date == day && v.date == day
    ensures DayEvents([a], [v], staff, day) == AttendanceEvents(a, staff) + VisitorEvents(v, staff)
  {
    assert AttendanceOfDay([a], day) == [a];
    assert VisitorsOfDay([v], day) == [v];
    assert AllAttendanceEvents([a], staff) == AttendanceEvents(a, staff);
    assert AllVisitorEvents([v], staff) == VisitorEvents(v, staff);
  }

  /** The tie-break example's two events before sorting: a 17:00 check-out, then a 17:00 arrival. */
  lemma TieBreakEvents(a: Attendance, v: Visitor, staff: seq<Staff>) returns (out: Event, arrival: Event)
    requires a.checkIn == "" && a.lunchOut == "" && a.lunchIn == "" && a.checkOut == "17:00"
    requires v.checkIn == "17:00" && v.checkOut == ""
    ensures AttendanceEvents(a, staff) == [out] && VisitorEvents(v, staff) == [arrival]
    ensures out.kind == CheckOut && EventKey(out) == Key(17 * 60, 4)
    ensures arrival.kind == VisitorIn && EventKey(arrival) == Key(17 * 60, 1)
  {
    var staffSide := AttendanceEvents(a, staff);
    var visitorSide := VisitorEvents(v, staff);
    AttendanceEventsKinds(a, staff);
    AttendanceEventsOfRow(a, staff);
    VisitorEventsKinds(v, staff);
    VisitorEventsOfRow(v, staff);
    assert PresentKinds(a) == [CheckOut];
    assert Kinds(staffSide)[0] == staffSide[0].kind && Kinds(visitorSide)[0] == visitorSide[0].kind;
    assert EventOfRow(staffSide[0], a) && VisitorEventOfRow(visitorSide[0], v);
    ToMinFields(a.checkOut);
    ToMinFields(v.checkIn);
    out, arrival := staffSide[0], visitorSide[0];
  }

  /** Two events whose keys are out of order come out of the sort swapped. */
  lemma SortTwoEvents(unsorted: seq<Event>, out: Event, arrival: Event)
    requires unsorted == [out, arrival]
    requires out.kind == CheckOut && EventKey(out) == Key(17 * 60, 4)
    requires arrival.kind == VisitorIn && EventKey(arrival) == Key(17 * 60, 1)
    ensures var evs := SortBy(unsorted, EventKey);
            |evs| == 2 && evs[0].kind == VisitorIn && evs[1].kind == CheckOut
  {
    SortPairOutOfOrder(out, arrival, EventKey);
  }

  /** At the same minute the kind priority decides: a visitor's arrival precedes a staff check-out. */
  lemma SameMinuteTieBreak(a: Attendance, v: Visitor, staff: seq<Staff>, day: string)
    requires a.date == day && v.date == day
    requires a.checkIn == "" && a.lunchOut == "" && a.lunchIn == "" && a.checkOut == "17:00"
    requires v.checkIn == "17:00" && v.checkOut == ""
    ensures var evs := SortBy(DayEvents([a], [v], staff, day), EventKey);
            |evs| == 2 && evs[0].kind == VisitorIn && evs[1].kind == CheckOut
  {
    PairDay(a, v, staff, day);
    var out, arrival := TieBreakEvents(a, v, staff);
    SortTwoEvents(DayEvents([a], [v], staff, day), out, arrival);
  }
}
