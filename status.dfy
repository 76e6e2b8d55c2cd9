/**
 * The live status of one person on one day, decided from that day's first
 * attendance row by an ordered list of rules.
 */
module Status {
  import opened Wrappers
  import opened Clock
  import opened Records
  import opened Counting

  datatype Status = AtWork | AtLunch | Offsite | OnLeave

  function StatusText(s: Status): string
  {
    match s
    case AtWork => "At Work"
    case AtLunch => "At Lunch"
    case Offsite => "Offsite"
    case OnLeave => "On Leave"
  }

  /** The chip and slice colours: green, yellow, gray and red. */
  function StatusColor(s: Status): string
  {
    match s
    case AtWork => "#16a34a"
    case AtLunch => "#f59e0b"
    case Offsite => "#6b7280"
    case OnLeave => "#ef4444"
  }

  /** The four texts are distinct, so comparing texts (as the source does) is comparing statuses. */
  lemma StatusTextInjective(s: Status, t: Status)
    ensures StatusText(s) == StatusText(t) <==> s == t
  {
  }

  /** `rows.find(x => x.date === date)` */
  function FindOnDate(rows: seq<Attendance>, date: string): Option<Attendance>
  {
    if rows == [] then None
    else if rows[0].date == date then Some(rows[0])
    else FindOnDate(rows[1..], date)
  }

  /** The position of the first row dated `date`, or |rows| when there is none. */
  function FirstOnDate(rows: seq<Attendance>, date: string): (k: nat)
    ensures k <= |rows|
    ensures k < |rows| ==> rows[k].date == date
    ensures forall j :: 0 <= j < k ==> rows[j].date != date
  {
    if rows == [] then 0
    else if rows[0].date == date then 0
    else 1 + FirstOnDate(rows[1..], date)
  }

  lemma {:induction false} FindOnDateIsFirst(rows: seq<Attendance>, date: string)
    ensures FindOnDate(rows, date).None? <==> FirstOnDate(rows, date) == |rows|
    ensures FindOnDate(rows, date).Some? ==>
              FindOnDate(rows, date).value == rows[FirstOnDate(rows, date)]
  {
    if rows != [] && rows[0].date != date {
      FindOnDateIsFirst(rows[1..], date);
    }
  }

  /** computeStatusFor */
  function ComputeStatusFor(rows: seq<Attendance>, date: string): Status
  {
    match FindOnDate(rows, date)
    case None => Offsite
    case Some(r) =>
      if r.checkIn == "" then Offsite
      else if r.lunchOut != "" && r.lunchIn == "" then AtLunch
      else if r.checkOut == "" then AtWork
      else Offsite
  }

  /**
   * The classification in terms of the first row dated `date`: it is one of
   * At Work, At Lunch and Offsite, never On Leave; At Lunch exactly when that
   * row is checked in and out to lunch without having returned; At Work
   * exactly when it is checked in, not at lunch and not checked out; Offsite
   * when there is no such row, no check-in, or a check-out.
   */
  lemma StatusClassification(rows: seq<Attendance>, date: string)
    ensures var st := ComputeStatusFor(rows, date);
            var k := FirstOnDate(rows, date);
            && st != OnLeave
            && (st == AtLunch <==>
                  k < |rows| && rows[k].checkIn != "" && rows[k].lunchOut != "" && rows[k].lunchIn == "")
            && (st == AtWork <==>
                  k < |rows| && rows[k].checkIn != "" && !(rows[k].lunchOut != "" && rows[k].lunchIn == "")
                  && rows[k].checkOut == "")
            && (st == Offsite <==>
                  k == |rows| || rows[k].checkIn == ""
                  || (!(rows[k].lunchOut != "" && rows[k].lunchIn == "") && rows[k].checkOut != ""))
  {
    FindOnDateIsFirst(rows, date);
  }

  /** Rows of other days never matter: filtering them out first (as the status pie does) changes nothing. */
  lemma StatusIgnoresOtherDays(rows: seq<Attendance>, date: string)
    ensures FindOnDate(AttendanceOfDay(rows, date), date) == FindOnDate(rows, date)
    ensures ComputeStatusFor(AttendanceOfDay(rows, date), date) == ComputeStatusFor(rows, date)
  {
    FindIgnoresOtherDays(rows, date);
  }

  lemma FindIgnoresOtherDays(rows: seq<Attendance>, date: string)
    ensures FindOnDate(AttendanceOfDay(rows, date), date) == FindOnDate(rows, date)
  {
    var k := FirstOnDate(rows, date);
    FindOnDateIsFirst(rows, date);
    if k < |rows| {
      FilterFirst(rows, k, OnDate(date));
      var f := AttendanceOfDay(rows, date);
      assert f[0] == rows[k] && f[0].date == date;
    } else {
      FilterEmpty(rows, OnDate(date));
    }
  }

  /** Rows after the first matching one never matter either. */
  lemma {:induction false} StatusFirstRowWins(rows: seq<Attendance>, more: seq<Attendance>, date: string)
    requires FirstOnDate(rows, date) < |rows|
    ensures ComputeStatusFor(rows + more, date) == ComputeStatusFor(rows, date)
  {
    if rows[0].date != date {
      assert (rows + more)[1..] == rows[1..] + more;
      StatusFirstRowWins(rows[1..], more, date);
    }
  }
}
