/**
 * The profile and report summaries: the rows of a daily, monthly or yearly
 * tab, the late, early and lunch minute totals of a person's rows, and the
 * present, left and offsite head counts of the reports page.
 */
module Summaries {
  import opened Wrappers
  import opened Clock
  import opened Records
  import opened Counting

  datatype Tab = Daily | Monthly | Yearly

  /** JavaScript's `s.slice(0, n)`: the first `n` characters, or all of a shorter string. */
  function Head(s: string, n: nat): (r: string)
    ensures |r| == if |s| < n then |s| else n
    ensures StartsWith(s, r)
  {
    if |s| < n then s else s[..n]
  }

  /** Whether a row dated `date` belongs to `tab` when the effective day is `tdy`. */
  predicate InTab(tab: Tab, date: string, tdy: string)
  {
    match tab
    case Daily => date == tdy
    case Monthly => StartsWith(date, Head(tdy, 7))
    case Yearly => StartsWith(date, Head(tdy, 4))
  }

  /** `rows.filter(r => tab === 'daily' ? r.date === tdy : ...)` */
  function FilterByTab(rows: seq<Attendance>, tab: Tab, tdy: string): (r: seq<Attendance>)
    ensures forall a :: a in r <==> a in rows && InTab(tab, a.date, tdy)
    ensures forall a :: multiset(r)[a] == if InTab(tab, a.date, tdy) then multiset(rows)[a] else 0
    ensures |r| <= |rows|
  {
    var keep := (a: Attendance) => InTab(tab, a.date, tdy);
    FilterMultiset(rows, keep);
    Filter(rows, keep)
  }

  /** The tabs nest: the day lies within its month, and the month within its year. */
  lemma TabNesting(date: string, tdy: string)
    ensures InTab(Daily, date, tdy) ==> InTab(Monthly, date, tdy)
    ensures InTab(Monthly, date, tdy) ==> InTab(Yearly, date, tdy)
  {
    var m := Head(tdy, 7);
    var y := Head(tdy, 4);
    if InTab(Monthly, date, tdy) {
      assert y == m[..|y|];
      assert date[..|y|] == date[..|m|][..|y|];
    }
  }

  /** `rows.reduce((sum, r) => sum + lateBy(r.checkIn), 0)` */
  function TotalLate(rows: seq<Attendance>): nat
  {
    if rows == [] then 0 else TotalLate(rows[..|rows| - 1]) + LateBy(rows[|rows| - 1].checkIn)
  }

  /** `rows.reduce((sum, r) => sum + earlyBy(r.checkIn), 0)` */
  function TotalEarly(rows: seq<Attendance>): nat
  {
    if rows == [] then 0 else TotalEarly(rows[..|rows| - 1]) + EarlyBy(rows[|rows| - 1].checkIn)
  }

  /** The signed distance of a row's check-in from 09:30; zero when there is no check-in. */
  function Offset(checkIn: Clock): int
  {
    match ToMin(checkIn)
    case None => 0
    case Some(m) => m - ReferenceMinute
  }

  function OffsetSum(rows: seq<Attendance>): int
  {
    if rows == [] then 0 else OffsetSum(rows[..|rows| - 1]) + Offset(rows[|rows| - 1].checkIn)
  }

  /** The late total minus the early total is the summed signed distance from 09:30. */
  lemma {:induction false} LateMinusEarly(rows: seq<Attendance>)
    ensures TotalLate(rows) - TotalEarly(rows) == OffsetSum(rows)
    decreases |rows|
  {
    if rows != [] {
      LateMinusEarly(rows[..|rows| - 1]);
      LateEarlyRelation(rows[|rows| - 1].checkIn);
    }
  }

  /** The late total is zero exactly when no row is late. */
  lemma {:induction false} NoLatenessIff(rows: seq<Attendance>)
    ensures TotalLate(rows) == 0 <==> forall a :: a in rows ==> !IsLate(a.checkIn)
    decreases |rows|
  {
    if rows != [] {
      var init := rows[..|rows| - 1];
      NoLatenessIff(init);
      LateEarlyRelation(rows[|rows| - 1].checkIn);
      assert rows == init + [rows[|rows| - 1]];
    }
  }

  /** The lunch break of one row: `lo != null && li != null && li > lo ? li - lo : 0`. */
  function LunchMinutes(a: Attendance): nat
  {
    match (ToMin(a.lunchOut), ToMin(a.lunchIn))
    case (Some(lo), Some(li)) => if li > lo then li - lo else 0
    case _ => 0
  }

  /** A row with both lunch times, the return after the departure. */
  predicate TookLunch(a: Attendance)
  {
    a.lunchOut != "" && a.lunchIn != "" && MinuteOr0(a.lunchIn) > MinuteOr0(a.lunchOut)
  }

  /** A row counts lunch minutes exactly when it took a lunch break, and then the break's length. */
  lemma LunchMinutesMeaning(a: Attendance)
    ensures LunchMinutes(a) > 0 <==> TookLunch(a)
    ensures TookLunch(a) ==> LunchMinutes(a) == MinuteOr0(a.lunchIn) - MinuteOr0(a.lunchOut)
  {
  }

  /** The lunch reduction. */
  function TotalLunch(rows: seq<Attendance>): nat
  {
    if rows == [] then 0 else TotalLunch(rows[..|rows| - 1]) + LunchMinutes(rows[|rows| - 1])
  }

  /** Some element of `init + [last]` satisfies `p` exactly when one of `init` does or `last` does. */
  lemma SomeStep<T>(init: seq<T>, last: T, p: T -> bool)
    ensures (exists a :: a in init + [last] && p(a)) <==> (exists a :: a in init && p(a)) || p(last)
  {
    if exists a :: a in init + [last] && p(a) {
      var a :| a in init + [last] && p(a);
      if a != last {
        assert a in init;
      }
    }
  }

  /** The lunch total is positive exactly when some row took a lunch break. */
  lemma {:induction false} LunchTotalPositiveIff(rows: seq<Attendance>)
    ensures TotalLunch(rows) > 0 <==> exists a :: a in rows && TookLunch(a)
    decreases |rows|
  {
    if rows != [] {
      var init := rows[..|rows| - 1];
      var last := rows[|rows| - 1];
      LunchTotalPositiveIff(init);
      LunchMinutesMeaning(last);
      assert rows == init + [last];
      SomeStep(init, last, TookLunch);
    }
  }

  /** The three totals add up row by row, so they can be taken over any split of the rows. */
  lemma {:induction false} TotalsConcat(a: seq<Attendance>, b: seq<Attendance>)
    ensures TotalLate(a + b) == TotalLate(a) + TotalLate(b)
    ensures TotalEarly(a + b) == TotalEarly(a) + TotalEarly(b)
    ensures TotalLunch(a + b) == TotalLunch(a) + TotalLunch(b)
    decreases |b|
  {
    if b == [] {
      assert a + b == a;
    } else {
      assert (a + b)[..|a + b| - 1] == a + b[..|b| - 1];
      TotalsConcat(a, b[..|b| - 1]);
    }
  }

  /** `l.checkIn && !l.checkOut` */
  const IsPresent: Attendance -> bool := (a: Attendance) => a.checkIn != "" && a.checkOut == ""

  /** `l.checkOut` */
  const HasLeft: Attendance -> bool := (a: Attendance) => a.checkOut != ""

  /** A row that shows any movement at the gates: checked in or checked out. */
  const ShowedUp: Attendance -> bool := (a: Attendance) => a.checkIn != "" || a.checkOut != ""

  function Present(logs: seq<Attendance>): nat { Count(logs, IsPresent) }

  function Left(logs: seq<Attendance>): nat { Count(logs, HasLeft) }

  /** No row is both present and left: the two counts split the rows that show any movement. */
  lemma PresentLeftPartition(logs: seq<Attendance>)
    ensures Present(logs) + Left(logs) == Count(logs, ShowedUp)
    ensures Present(logs) + Left(logs) <= |logs|
  {
    CountUnion(logs, IsPresent, HasLeft, ShowedUp);
  }

  /** The staff ids of the rows with a check-in. */
  function CheckedInIds(logs: seq<Attendance>): (ids: set<int>)
    ensures forall id :: id in ids <==> exists a :: a in logs && a.checkIn != "" && a.staffId == id
  {
    if logs == [] then {}
    else (if logs[0].checkIn != "" then {logs[0].staffId} else {}) + CheckedInIds(logs[1..])
  }

  /**
   * The offsite head count of the reports page as written: the number of
   * staff minus the number of distinct staff ids that checked in.
   */
  function OffsiteAsWritten(staff: seq<Staff>, logs: seq<Attendance>): int
  {
    |staff| - |CheckedInIds(logs)|
  }

  /** The staff ids of a staff list. */
  function StaffIds(staff: seq<Staff>): (ids: set<int>)
    ensures forall id :: id in ids <==> exists p :: p in staff && p.id == id
  {
    if staff == [] then {} else StaffIds(staff[..|staff| - 1]) + {staff[|staff| - 1].id}
  }

  /** A check-in by an id that is not on the staff list makes the as-written count negative. */
  lemma OffsiteAsWrittenNegative(a: Attendance)
    requires a.checkIn != ""
    ensures OffsiteAsWritten([], [a]) == -1
  {
    assert CheckedInIds([a]) == {a.staffId};
  }

  function NotIn(ids: set<int>): Staff -> bool
  {
    (p: Staff) => p.id !in ids
  }

  function IsIn(ids: set<int>): Staff -> bool
  {
    (p: Staff) => p.id in ids
  }

  /** The offsite head count as intended: the staff members who did not check in. */
  function Offsite(staff: seq<Staff>, logs: seq<Attendance>): (n: nat)
    ensures n <= |staff|
  {
    Count(staff, NotIn(CheckedInIds(logs)))
  }

  /** No two staff members share an id. */
  predicate DistinctIds(staff: seq<Staff>)
  {
    forall i, j :: 0 <= i < j < |staff| ==> staff[i].id != staff[j].id
  }

  /** With distinct ids, the last member's id is not among the others'. */
  lemma LastIdFresh(staff: seq<Staff>)
    requires DistinctIds(staff) && staff != []
    ensures staff[|staff| - 1].id !in StaffIds(staff[..|staff| - 1])
    ensures DistinctIds(staff[..|staff| - 1])
  {
  }

  /** Adding a fresh id to a set adds one shared id exactly when `ids` holds it. */
  lemma SharedStep(ids: set<int>, known: set<int>, x: int)
    requires x !in known
    ensures |ids * (known + {x})| == |ids * known| + (if x in ids then 1 else 0)
  {
    if x in ids {
      assert ids * (known + {x}) == (ids * known) + {x};
    } else {
      assert ids * (known + {x}) == ids * known;
    }
  }

  /** With distinct ids, the staff members whose id is in `ids` are as many as the ids they share. */
  lemma {:induction false} CountInIds(staff: seq<Staff>, ids: set<int>)
    requires DistinctIds(staff)
    ensures Count(staff, IsIn(ids)) == |ids * StaffIds(staff)|
    decreases |staff|
  {
    if staff != [] {
      var init := staff[..|staff| - 1];
      var p := staff[|staff| - 1];
      LastIdFresh(staff);
      CountInIds(init, ids);
      SharedStep(ids, StaffIds(init), p.id);
      assert StaffIds(staff) == StaffIds(init) + {p.id};
    }
  }

  /**
   * The corrected count agrees with the one as written exactly in the setting
   * the page assumes: distinct staff ids and every checked-in id on the list.
   */
  lemma OffsiteAgrees(staff: seq<Staff>, logs: seq<Attendance>)
    requires DistinctIds(staff)
    requires CheckedInIds(logs) <= StaffIds(staff)
    ensures Offsite(staff, logs) == OffsiteAsWritten(staff, logs)
  {
    var ids := CheckedInIds(logs);
    CountInIds(staff, ids);
    CountUnion(staff, IsIn(ids), NotIn(ids), (p: Staff) => true);
    CountAll(staff, (p: Staff) => true);
    assert ids * StaffIds(staff) == ids;
  }

  /** A staff member counts as offsite exactly when none of the rows shows them checked in. */
  lemma OffsiteMeaning(staff: seq<Staff>, logs: seq<Attendance>)
    ensures Offsite(staff, logs) == |staff|
            <==> forall p :: p in staff ==> forall a :: a in logs && a.checkIn != "" ==> a.staffId != p.id
  {
    CountAllMembers(staff, NotIn(CheckedInIds(logs)));
  }
}
