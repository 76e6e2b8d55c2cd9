/**
 * The status pie: how many staff are at work, at lunch, offsite or on leave
 * on a day, with the empty slices dropped.
 */
module Pie {
  import opened Records
  import opened Status
  import opened Counting

  /** One slice of the pie: its label, its size and its colour. */
  datatype Slice = Slice(name: string, value: nat, color: string)

  /** `att.filter(a => a.staffId === p.id && a.date === dateStr)` */
  function RowsOf(att: seq<Attendance>, id: int, day: string): (r: seq<Attendance>)
    ensures forall a :: a in r <==> a in att && a.staffId == id && a.date == day
    ensures forall a :: multiset(r)[a] == if a.staffId == id && a.date == day then multiset(att)[a] else 0
  {
    var keep := (a: Attendance) => a.staffId == id && a.date == day;
    FilterMultiset(att, keep);
    Filter(att, keep)
  }

  /** The status of one person on `day`. */
  function StatusOf(att: seq<Attendance>, day: string, p: Staff): Status
  {
    ComputeStatusFor(RowsOf(att, p.id, day), day)
  }

  /** A person's status is read from their first row of the day, in the order the rows arrive. */
  lemma StatusFromFirstRow(att: seq<Attendance>, day: string, p: Staff, k: nat)
    requires k < |att| && att[k].staffId == p.id && att[k].date == day
    requires forall j :: 0 <= j < k ==> !(att[j].staffId == p.id && att[j].date == day)
    ensures StatusOf(att, day, p) == ComputeStatusFor([att[k]], day)
  {
    var keep := (a: Attendance) => a.staffId == p.id && a.date == day;
    FilterFirst(att, k, keep);
    StatusFirstRowWins([att[k]], Filter(att[k + 1..], keep), day);
  }

  /** Someone with no row on the day is Offsite. */
  lemma StatusWithoutRows(att: seq<Attendance>, day: string, p: Staff)
    requires forall j :: 0 <= j < |att| ==> !(att[j].staffId == p.id && att[j].date == day)
    ensures StatusOf(att, day, p) == Offsite
  {
    FilterEmpty(att, (a: Attendance) => a.staffId == p.id && a.date == day);
  }

  function HasStatus(att: seq<Attendance>, day: string, s: Status): Staff -> bool
  {
    p => StatusOf(att, day, p) == s
  }

  /** The number of staff whose status on `day` is `s`. */
  function Tally(staff: seq<Staff>, att: seq<Attendance>, day: string, s: Status): nat
  {
    Count(staff, HasStatus(att, day, s))
  }

  /** The four slices in their fixed order, before the empty ones are dropped. */
  function Slices(atWork: nat, atLunch: nat, offsite: nat, onLeave: nat): seq<Slice>
  {
    [Slice(StatusText(AtWork), atWork, StatusColor(AtWork)),
     Slice(StatusText(AtLunch), atLunch, StatusColor(AtLunch)),
     Slice(StatusText(Offsite), offsite, StatusColor(Offsite)),
     Slice(StatusText(OnLeave), onLeave, StatusColor(OnLeave))]
  }

  /** The test `data.filter(d => d.value > 0)` applies to a slice. */
  predicate Positive(x: Slice)
  {
    x.value > 0
  }

  /** `data.filter(d => d.value > 0)`: the non-empty slices, each as often as it occurs, in their order. */
  function KeepPositive(d: seq<Slice>): (r: seq<Slice>)
    ensures forall x :: x in r <==> x in d && x.value > 0
    ensures forall x :: multiset(r)[x] == if x.value > 0 then multiset(d)[x] else 0
    ensures |r| <= |d|
  {
    FilterMultiset(d, Positive);
    Filter(d, Positive)
  }

  /** The slice of status `s`: its label, its tally over the staff and its colour. */
  function SliceFor(staff: seq<Staff>, att: seq<Attendance>, day: string, s: Status): Slice
  {
    Slice(StatusText(s), Tally(staff, att, day, s), StatusColor(s))
  }

  /** The four slices of the tallies, in their fixed order. */
  function AllSlices(staff: seq<Staff>, att: seq<Attendance>, day: string): seq<Slice>
  {
    [SliceFor(staff, att, day, AtWork), SliceFor(staff, att, day, AtLunch),
     SliceFor(staff, att, day, Offsite), SliceFor(staff, att, day, OnLeave)]
  }

  /** The pie as it is meant to be: the four tallies over the staff, empty slices dropped. */
  function PieData(staff: seq<Staff>, att: seq<Attendance>, day: string): seq<Slice>
  {
    KeepPositive(AllSlices(staff, att, day))
  }

  /** The four counters hold the tallies of the first `k` staff. */
  predicate Tallied(staff: seq<Staff>, k: nat, att: seq<Attendance>, day: string,
                    atWork: nat, atLunch: nat, offsite: nat, onLeave: nat)
    requires k <= |staff|
  {
    atWork == Tally(staff[..k], att, day, AtWork) && atLunch == Tally(staff[..k], att, day, AtLunch)
    && offsite == Tally(staff[..k], att, day, Offsite) && onLeave == Tally(staff[..k], att, day, OnLeave)
  }

  /** One more person tallied: exactly the counter of their status goes up. */
  lemma TallyStep(staff: seq<Staff>, k: nat, att: seq<Attendance>, day: string,
                  atWork: nat, atLunch: nat, offsite: nat, onLeave: nat)
    requires k < |staff| && Tallied(staff, k, att, day, atWork, atLunch, offsite, onLeave)
    ensures var st := StatusOf(att, day, staff[k]);
            Tallied(staff, k + 1, att, day,
                    if st == AtWork then atWork + 1 else atWork,
                    if st == AtLunch then atLunch + 1 else atLunch,
                    if st == Offsite then offsite + 1 else offsite,
                    if st == OnLeave then onLeave + 1 else onLeave)
  {
    CountStep(staff, k, HasStatus(att, day, AtWork));
    CountStep(staff, k, HasStatus(att, day, AtLunch));
    CountStep(staff, k, HasStatus(att, day, Offsite));
    CountStep(staff, k, HasStatus(att, day, OnLeave));
  }

  /**
   * buildStatusPie: one pass over the staff, classifying each person from
   * their own rows of the day and bumping the counter whose label matches
   * the status text; then the empty slices are dropped.
   */
  method BuildStatusPie(staff: seq<Staff>, att: seq<Attendance>, day: string) returns (data: seq<Slice>)
    ensures data == PieData(staff, att, day)
  {
    var atWork, atLunch, offsite, onLeave := 0, 0, 0, 0;
    for i := 0 to |staff|
      invariant Tallied(staff, i, att, day, atWork, atLunch, offsite, onLeave)
    {
      var rows := RowsOf(att, staff[i].id, day);
      var st := ComputeStatusFor(rows, day);
      TallyStep(staff, i, att, day, atWork, atLunch, offsite, onLeave);
      StatusTextInjective(st, AtWork);
      StatusTextInjective(st, AtLunch);
      StatusTextInjective(st, Offsite);
      if StatusText(st) == "At Work" {
        atWork := atWork + 1;
      } else if StatusText(st) == "At Lunch" {
        atLunch := atLunch + 1;
      } else if StatusText(st) == "Offsite" {
        offsite := offsite + 1;
      } else {
        onLeave := onLeave + 1;
      }
    }
    assert staff[..|staff|] == staff;
    data := KeepPositive(Slices(atWork, atLunch, offsite, onLeave));
  }

  /** The sum of the slice values. */
  function Total(d: seq<Slice>): nat
  {
    if d == [] then 0 else d[0].value + Total(d[1..])
  }

  /** The filter seen from the front: the first slice, if kept, then the filter of the rest. */
  lemma KeepPositiveCons(d: seq<Slice>)
    requires d != []
    ensures KeepPositive(d) == (if d[0].value > 0 then [d[0]] else []) + KeepPositive(d[1..])
  {
    assert d == [d[0]] + d[1..];
    FilterCons(d[0], d[1..], Positive);
  }

  /** Dropping empty slices leaves the total unchanged. */
  lemma {:induction false} KeepPositiveTotal(d: seq<Slice>)
    ensures Total(KeepPositive(d)) == Total(d)
  {
    if d != [] {
      var rest := KeepPositive(d[1..]);
      KeepPositiveCons(d);
      KeepPositiveTotal(d[1..]);
      if d[0].value > 0 {
        assert ([d[0]] + rest)[1..] == rest;
        assert Total([d[0]] + rest) == d[0].value + Total(rest);
      } else {
        assert KeepPositive(d) == rest;
      }
    }
  }

  /** Every person counts under exactly one of the four statuses. */
  lemma {:induction false} TallyTotal(staff: seq<Staff>, att: seq<Attendance>, day: string)
    ensures Tally(staff, att, day, AtWork) + Tally(staff, att, day, AtLunch)
            + Tally(staff, att, day, Offsite) + Tally(staff, att, day, OnLeave) == |staff|
    decreases |staff|
  {
    if staff != [] {
      TallyTotal(staff[..|staff| - 1], att, day);
    }
  }

  /** Nobody is ever tallied On Leave: the classification never yields it. */
  lemma {:induction false} OnLeaveNeverTallied(staff: seq<Staff>, att: seq<Attendance>, day: string)
    ensures Tally(staff, att, day, OnLeave) == 0
    decreases |staff|
  {
    if staff != [] {
      var p := staff[|staff| - 1];
      StatusClassification(RowsOf(att, p.id, day), day);
      OnLeaveNeverTallied(staff[..|staff| - 1], att, day);
    }
  }

  lemma TotalOfFour(a: Slice, b: Slice, c: Slice, d: Slice)
    ensures Total([a, b, c, d]) == a.value + b.value + c.value + d.value
  {
    assert [d][1..] == [];
    assert Total([d]) == d.value;
    assert [c, d][1..] == [d];
    assert Total([c, d]) == c.value + d.value;
    assert [b, c, d][1..] == [c, d];
    assert Total([b, c, d]) == b.value + c.value + d.value;
    assert [a, b, c, d][1..] == [b, c, d];
  }

  /** The slice values add up to the number of staff. */
  lemma PieSumsToStaff(staff: seq<Staff>, att: seq<Attendance>, day: string)
    ensures Total(PieData(staff, att, day)) == |staff|
  {
    var d := AllSlices(staff, att, day);
    KeepPositiveTotal(d);
    TallyTotal(staff, att, day);
    TotalOfFour(d[0], d[1], d[2], d[3]);
  }

  /** The position of a slice in the pie's fixed order At Work, At Lunch, Offsite, On Leave. */
  function SliceRank(x: Slice): int
  {
    if x.name == StatusText(AtWork) then 0
    else if x.name == StatusText(AtLunch) then 1
    else if x.name == StatusText(Offsite) then 2
    else 3
  }

  predicate Ranked(d: seq<Slice>)
  {
    forall i, j :: 0 <= i < j < |d| ==> SliceRank(d[i]) < SliceRank(d[j])
  }

  lemma RankedCons(x: Slice, rest: seq<Slice>)
    requires Ranked(rest) && forall y :: y in rest ==> SliceRank(x) < SliceRank(y)
    ensures Ranked([x] + rest)
  {
    var r := [x] + rest;
    forall i, j | 0 <= i < j < |r| ensures SliceRank(r[i]) < SliceRank(r[j]) {
      assert r[j] == rest[j - 1];
      if i > 0 {
        assert r[i] == rest[i - 1];
      }
    }
  }

  lemma RankedTail(d: seq<Slice>)
    requires d != [] && Ranked(d)
    ensures Ranked(d[1..])
  {
    var tail := d[1..];
    forall i, j | 0 <= i < j < |tail| ensures SliceRank(tail[i]) < SliceRank(tail[j]) {
      assert tail[i] == d[i + 1] && tail[j] == d[j + 1];
    }
  }

  /** The first slice ranks below every slice the filter keeps from the rest. */
  lemma HeadBelowKept(d: seq<Slice>)
    requires d != [] && Ranked(d)
    ensures forall y :: y in KeepPositive(d[1..]) ==> SliceRank(d[0]) < SliceRank(y)
  {
    var tail := d[1..];
    forall y | y in tail ensures SliceRank(d[0]) < SliceRank(y) {
      var m :| 0 <= m < |tail| && tail[m] == y;
      assert d[m + 1] == y;
    }
  }

  /** Dropping slices keeps the survivors in their original order. */
  lemma {:induction false} KeepPositiveRanked(d: seq<Slice>)
    requires Ranked(d)
    ensures Ranked(KeepPositive(d))
  {
    if d != [] {
      KeepPositiveCons(d);
      RankedTail(d);
      KeepPositiveRanked(d[1..]);
      if d[0].value > 0 {
        HeadBelowKept(d);
        RankedCons(d[0], KeepPositive(d[1..]));
      }
    }
  }

  /** The pie lists its slices in the fixed order At Work, At Lunch, Offsite, On Leave. */
  lemma PieOrdered(staff: seq<Staff>, att: seq<Attendance>, day: string)
    ensures Ranked(PieData(staff, att, day))
  {
    var d := AllSlices(staff, att, day);
    FourRanked(d[0], d[1], d[2], d[3]);
    assert d == [d[0], d[1], d[2], d[3]];
    KeepPositiveRanked(d);
  }

  /** Four slices named At Work, At Lunch, Offsite, On Leave, in that order, are ranked. */
  lemma FourRanked(a: Slice, b: Slice, c: Slice, d: Slice)
    requires a.name == StatusText(AtWork) && b.name == StatusText(AtLunch)
    requires c.name == StatusText(Offsite) && d.name == StatusText(OnLeave)
    ensures Ranked([a, b, c, d])
  {
    StatusTextInjective(AtLunch, AtWork);
    StatusTextInjective(Offsite, AtWork);
    StatusTextInjective(Offsite, AtLunch);
    StatusTextInjective(OnLeave, AtWork);
    StatusTextInjective(OnLeave, AtLunch);
    StatusTextInjective(OnLeave, Offsite);
    assert SliceRank(a) == 0 && SliceRank(b) == 1 && SliceRank(c) == 2 && SliceRank(d) == 3;
  }

  /** The pie holds exactly the slices of the statuses with a non-zero tally. */
  lemma PieMembers(staff: seq<Staff>, att: seq<Attendance>, day: string)
    ensures forall x :: x in PieData(staff, att, day) <==>
              x.value > 0 && exists s :: x == SliceFor(staff, att, day, s)
  {
    AllSlicesMembers(staff, att, day);
  }

  /** The four slices before filtering are exactly the slices of the four statuses. */
  lemma AllSlicesMembers(staff: seq<Staff>, att: seq<Attendance>, day: string)
    ensures forall x :: x in AllSlices(staff, att, day) <==> exists s :: x == SliceFor(staff, att, day, s)
  {
    forall x ensures x in AllSlices(staff, att, day) <==> exists s :: x == SliceFor(staff, att, day, s) {
      if exists s :: x == SliceFor(staff, att, day, s) {
        var s :| x == SliceFor(staff, att, day, s);
        match s
        case AtWork => assert x == AllSlices(staff, att, day)[0];
        case AtLunch => assert x == AllSlices(staff, att, day)[1];
        case Offsite => assert x == AllSlices(staff, att, day)[2];
        case OnLeave => assert x == AllSlices(staff, att, day)[3];
      }
    }
  }

  /** The pie never has an On Leave slice. */
  lemma PieNeverOnLeave(staff: seq<Staff>, att: seq<Attendance>, day: string)
    ensures forall x :: x in PieData(staff, att, day) ==> x.name != StatusText(OnLeave)
  {
    OnLeaveNeverTallied(staff, att, day);
  }
}
