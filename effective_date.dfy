/**
 * The effective date the dashboard displays: today when any row is dated
 * today, otherwise the most recent date found in the rows. Dates are ISO
 * "YYYY-MM-DD" strings, so JavaScript's string comparison is date order.
 */
module EffectiveDate {
  import opened Records
  import opened Counting

  /**
   * JavaScript's `a < b` on strings, as lexicographic comparison of characters.
   * It agrees with JavaScript's UTF-16 code-unit order on every string below
   * U+10000, which includes the ISO dates compared here.
   */
  predicate StrLess(a: string, b: string)
    decreases |a|
  {
    |b| > 0 && (|a| == 0 || a[0] < b[0] || (a[0] == b[0] && StrLess(a[1..], b[1..])))
  }

  lemma {:induction false} StrLessIrreflexive(a: string)
    ensures !StrLess(a, a)
    decreases |a|
  {
    if |a| > 0 { StrLessIrreflexive(a[1..]); }
  }

  lemma {:induction false} StrLessTransitive(a: string, b: string, c: string)
    requires StrLess(a, b) && StrLess(b, c)
    ensures StrLess(a, c)
    decreases |a|
  {
    if |a| > 0 && a[0] == b[0] && b[0] == c[0] {
      StrLessTransitive(a[1..], b[1..], c[1..]);
    }
  }

  lemma {:induction false} StrLessTotal(a: string, b: string)
    ensures a == b || StrLess(a, b) || StrLess(b, a)
    decreases |a|
  {
    if |a| > 0 && |b| > 0 && a[0] == b[0] {
      StrLessTotal(a[1..], b[1..]);
      if a[1..] == b[1..] {
        assert a == [a[0]] + a[1..] && b == [b[0]] + b[1..];
      }
    }
  }

  /** `items.map(x => x?.date)` for attendance and visitor rows together. */
  function RowDates(att: seq<Attendance>, vis: seq<Visitor>): (ds: seq<string>)
    ensures |ds| == |att| + |vis|
    ensures forall k :: 0 <= k < |att| ==> ds[k] == att[k].date
    ensures forall k :: 0 <= k < |vis| ==> ds[|att| + k] == vis[k].date
  {
    seq(|att|, k requires 0 <= k < |att| => att[k].date)
      + seq(|vis|, k requires 0 <= k < |vis| => vis[k].date)
  }

  /** The truthiness test `filter(Boolean)` applies to a date. */
  predicate IsDated(d: string)
  {
    d != ""
  }

  /** `.filter(Boolean)`: the present dates, each as often as it occurs, in their order. */
  function PresentDates(ds: seq<string>): (r: seq<string>)
    ensures forall d :: d in r <==> d in ds && d != ""
    ensures forall d :: multiset(r)[d] == if d != "" then multiset(ds)[d] else 0
  {
    FilterMultiset(ds, IsDated);
    Filter(ds, IsDated)
  }

  /** `ds.reduce((max, cur) => cur > max ? cur : max, acc)` */
  function MaxFrom(acc: string, ds: seq<string>): (r: string)
    ensures r == acc || r in ds
    ensures !StrLess(r, acc)
    ensures forall d :: d in ds ==> !StrLess(r, d)
    decreases |ds|
  {
    if ds == [] then
      StrLessIrreflexive(acc);
      acc
    else
      var next := if StrLess(acc, ds[0]) then ds[0] else acc;
      var r := MaxFrom(next, ds[1..]);
      MaxStep(acc, ds[0], next, r);
      assert forall d :: d in ds ==> d == ds[0] || d in ds[1..];
      r
  }

  /** One step of the fold keeps the running maximum an upper bound of the old one and of the new item. */
  lemma MaxStep(acc: string, cur: string, next: string, r: string)
    requires next == if StrLess(acc, cur) then cur else acc
    requires !StrLess(r, next)
    ensures !StrLess(r, acc) && !StrLess(r, cur)
  {
    if StrLess(acc, cur) {
      if StrLess(r, acc) { StrLessTransitive(r, acc, cur); }
    } else if StrLess(r, cur) {
      StrLessTotal(cur, acc);
      if StrLess(cur, acc) { StrLessTransitive(r, cur, acc); }
    }
  }

  /**
   * mostRecentDate: today when no item carries a date, otherwise a present
   * date that no other present date exceeds.
   */
  function MostRecentDate(dates: seq<string>, today: string): (r: string)
    ensures PresentDates(dates) == [] ==> r == today
    ensures PresentDates(dates) != [] ==> r in dates && r != ""
    ensures PresentDates(dates) != [] ==> forall d :: d in dates && d != "" ==> !StrLess(r, d)
  {
    var ds := PresentDates(dates);
    if ds == [] then today else MaxFrom(ds[0], ds)
  }

  predicate SomeAttendanceOn(att: seq<Attendance>, day: string)
  {
    exists a :: a in att && a.date == day
  }

  predicate SomeVisitorOn(vis: seq<Visitor>, day: string)
  {
    exists v :: v in vis && v.date == day
  }

  /**
   * activeDateUnion, with the wall-clock date passed in as `today`: today when
   * any attendance or visitor row is dated today; otherwise the greatest
   * present date of all rows, or today when no row has a date.
   */
  function ActiveDateUnion(att: seq<Attendance>, vis: seq<Visitor>, today: string): (r: string)
    ensures SomeAttendanceOn(att, today) || SomeVisitorOn(vis, today) ==> r == today
    ensures r == today || (r in RowDates(att, vis) && r != "")
    ensures !SomeAttendanceOn(att, today) && !SomeVisitorOn(vis, today) ==>
              (r == today <==> PresentDates(RowDates(att, vis)) == [])
    ensures r != today ==>
              forall d :: d in RowDates(att, vis) && d != "" ==> !StrLess(r, d)
  {
    if SomeAttendanceOn(att, today) || SomeVisitorOn(vis, today) then today
    else
      var ds := RowDates(att, vis);
      var r := MostRecentDate(ds, today);
      assert r in ds ==> r != today by {
        if r in ds {
          var k :| 0 <= k < |ds| && ds[k] == r;
          if k < |att| { assert att[k] in att; } else { assert vis[k - |att|] in vis; }
        }
      }
      r
  }

  /** With rows on several days and none today, the display follows the latest one. */
  lemma EffectiveDateExample(a1: Attendance, a2: Attendance, v: Visitor)
    requires a1.date == "2024-01-01" && a2.date == "2024-01-03" && v.date == "2024-01-02"
    ensures ActiveDateUnion([a1, a2], [v], "2024-02-01") == "2024-01-03"
  {
    var today := "2024-02-01";
    assert !SomeAttendanceOn([a1, a2], today) by {
      assert a1.date[6] != today[6] && a2.date[6] != today[6];
    }
    assert !SomeVisitorOn([v], today) by {
      assert v.date[6] != today[6];
    }
    assert RowDates([a1, a2], [v]) == ["2024-01-01", "2024-01-03", "2024-01-02"];
    IsoDayOrder();
    LatestOfThree("2024-01-01", "2024-01-02", "2024-01-03", today);
  }

  /** Strings that share a prefix compare as what follows it. */
  lemma {:induction false} StrLessSharedPrefix(p: string, a: string, b: string)
    ensures StrLess(p + a, p + b) <==> StrLess(a, b)
    decreases |p|
  {
    if |p| == 0 {
      assert p + a == a && p + b == b;
    } else {
      assert (p + a)[0] == p[0] == (p + b)[0];
      assert (p + a)[1..] == p[1..] + a;
      assert (p + b)[1..] == p[1..] + b;
      StrLessSharedPrefix(p[1..], a, b);
    }
  }

  /** String order on these ISO dates is calendar order. */
  lemma IsoDayOrder()
    ensures StrLess("2024-01-01", "2024-01-03") && StrLess("2024-01-02", "2024-01-03")
  {
    var p := "2024-01-0";
    StrLessSharedPrefix(p, "1", "3");
    StrLessSharedPrefix(p, "2", "3");
    assert p + "1" == "2024-01-01" && p + "2" == "2024-01-02" && p + "3" == "2024-01-03";
  }

  /** Of three present dates the one above the other two is the most recent, wherever it stands. */
  lemma LatestOfThree(x: string, y: string, z: string, today: string)
    requires x != "" && y != "" && z != ""
    requires StrLess(x, z) && StrLess(y, z)
    ensures MostRecentDate([x, z, y], today) == z
  {
    var ds := [x, z, y];
    assert z in ds;
    var r := MostRecentDate(ds, today);
    assert r in ds;
    assert !StrLess(r, z);
  }
}
