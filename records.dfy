/**
 * The records the dashboard receives from its backend (staff, attendance rows,
 * visitor rows) and the small lookups and renderings over them: gate
 * locations, the host of a visitor, the display name of a staff member.
 *
 * Absent time and building fields and a visitor's absent company or purpose
 * (null, undefined or "") are all falsy in the source and only ever tested for
 * truthiness, so they are modelled as "".
 * Dates are compared with `===`; an absent date is "" as well, which equals no
 * effective day. Staff and row ids are plain integers.
 */
module Records {
  import opened Wrappers
  import opened Clock
  import opened Counting

  datatype Role = Admin | Manager | Employee

  datatype Staff = Staff(
    id: int, firstName: string, lastName: string, email: string,
    department: string, title: string, role: Role, active: bool)

  /** A physical access point; floor and door hold the text the template literal interpolates. */
  datatype Gate = Gate(building: string, floor: string, door: string)

  datatype EntryType = OwnCard | TempCard

  datatype Attendance = Attendance(
    id: int, staffId: int, date: string,
    checkIn: Clock, lunchOut: Clock, lunchIn: Clock, checkOut: Clock,
    entryType: Option<EntryType>, inGate: Gate, outGate: Gate)

  /** `hostStaffId` is the flat host id, `nestedHostId` the id of the nested `hostStaff` object. */
  datatype Visitor = Visitor(
    id: int, name: string, company: string, purpose: string,
    hostStaffId: Option<int>, nestedHostId: Option<int>,
    date: string, checkIn: Clock, checkOut: Clock)

  const Bullet: char := '•'

  /** gateStringIN / gateStringOUT: "{building} • Floor {floor} • Door {door}", or "-" without a building. */
  function GateString(g: Gate): (r: string)
    ensures r == "-" <==> g.building == ""
    ensures g.building != "" ==> |r| > |g.building| && r[..|g.building|] == g.building
  {
    if g.building == "" then "-"
    else
      var r := g.building + " • Floor " + g.floor + " • Door " + g.door;
      assert r[..|g.building|] == g.building;
      r
  }

  function GateStringIn(a: Attendance): string { GateString(a.inGate) }

  function GateStringOut(a: Attendance): string { GateString(a.outGate) }

  predicate StartsWith(s: string, prefix: string)
  {
    |prefix| <= |s| && s[..|prefix|] == prefix
  }

  /** Reads a rendered gate back into its three parts (the inverse of GateString). */
  function ParseGate(s: string): Option<Gate>
  {
    var i := Text.IndexOf(s, Bullet);
    if i == 0 || i == |s| || s[i - 1] != ' ' || !StartsWith(s[i..], "• Floor ") then None
    else
      var rest := s[i + 8..];
      var j := Text.IndexOf(rest, Bullet);
      if j == 0 || j == |rest| || rest[j - 1] != ' ' || !StartsWith(rest[j..], "• Door ") then None
      else Some(Gate(s[..i - 1], rest[..j - 1], rest[j + 7..]))
  }

  predicate BulletFree(s: string) { Bullet !in s }

  lemma IndexOfPast(prefix: string, rest: string)
    requires BulletFree(prefix) && |rest| > 0 && rest[0] == Bullet
    ensures Text.IndexOf(prefix + rest, Bullet) == |prefix|
  {
    var s := prefix + rest;
    assert forall j :: 0 <= j < |prefix| ==> s[j] == prefix[j];
    assert s[|prefix|] == Bullet;
  }

  /** The part after the floor label reads back as the floor and the door. */
  lemma ParseDoorPart(floor: string, door: string)
    requires BulletFree(floor)
    ensures var rest := floor + " • Door " + door; var j := |floor| + 1;
            && Text.IndexOf(rest, Bullet) == j && j < |rest| && rest[j - 1] == ' '
            && StartsWith(rest[j..], "• Door ") && rest[..j - 1] == floor && rest[j + 7..] == door
  {
    var rest := floor + " • Door " + door;
    assert rest == (floor + " ") + ("• Door " + door);
    assert BulletFree(floor + " ");
    IndexOfPast(floor + " ", "• Door " + door);
    var j := |floor| + 1;
    assert rest[j..] == "• Door " + door;
    assert rest[j + 7..] == door;
  }

  /** The building part before the floor label reads back as the building. */
  lemma ParseFloorPart(building: string, rest: string)
    requires building != "" && BulletFree(building)
    ensures var s := building + " • Floor " + rest; var i := |building| + 1;
            && Text.IndexOf(s, Bullet) == i && i < |s| && s[i - 1] == ' '
            && StartsWith(s[i..], "• Floor ") && s[i + 8..] == rest && s[..i - 1] == building
  {
    var s := building + " • Floor " + rest;
    assert s == (building + " ") + ("• Floor " + rest);
    assert BulletFree(building + " ");
    IndexOfPast(building + " ", "• Floor " + rest);
    var i := |building| + 1;
    assert s[i..] == "• Floor " + rest;
    assert s[i + 8..] == rest;
  }

  /**
   * Distinct gates render distinctly as long as building and floor carry no
   * bullet: the rendering reads back to the gate it came from.
   */
  lemma GateStringRoundTrip(g: Gate)
    requires g.building != "" && BulletFree(g.building) && BulletFree(g.floor)
    ensures ParseGate(GateString(g)) == Some(g)
  {
    var rest := g.floor + " • Door " + g.door;
    assert GateString(g) == g.building + " • Floor " + rest;
    ParseFloorPart(g.building, rest);
    ParseDoorPart(g.floor, g.door);
  }

  /** hostIdOf: the flat host id when present, else the nested host's id, else none. */
  function HostIdOf(v: Visitor): (r: Option<int>)
    ensures v.hostStaffId.Some? ==> r == v.hostStaffId
    ensures v.hostStaffId.None? ==> r == v.nestedHostId
    ensures r.None? <==> v.hostStaffId.None? && v.nestedHostId.None?
  {
    if v.hostStaffId.Some? then v.hostStaffId else v.nestedHostId
  }

  /** `staff.find(s => s.id === id)`: the first staff member with that id. */
  function FindStaff(staff: seq<Staff>, id: int): (r: Option<Staff>)
    ensures r.None? <==> forall k :: 0 <= k < |staff| ==> staff[k].id != id
    ensures r.Some? ==> exists k :: 0 <= k < |staff| && staff[k] == r.value && r.value.id == id
                                    && forall j :: 0 <= j < k ==> staff[j].id != id
  {
    if staff == [] then None
    else if staff[0].id == id then
      Some(staff[0])
    else
      var r := FindStaff(staff[1..], id);
      if r.Some? then
        var k :| 0 <= k < |staff[1..]| && staff[1..][k] == r.value && r.value.id == id
                 && forall j :: 0 <= j < k ==> staff[1..][j].id != id;
        assert staff[k + 1] == r.value;
        assert forall j :: 0 <= j < k + 1 ==> staff[j].id != id by {
          forall j | 0 <= j < k + 1 ensures staff[j].id != id {
            if j > 0 { assert staff[j] == staff[1..][j - 1]; }
          }
        }
        r
      else
        assert forall k :: 1 <= k < |staff| ==> staff[k] == staff[1..][k - 1];
        r
  }

  function FullName(p: Staff): string { p.firstName + " " + p.lastName }

  /** The name shown on a staff member's events: "Unknown" when the id matches no one. */
  function StaffName(staff: seq<Staff>, id: int): string
  {
    match FindStaff(staff, id)
    case Some(p) => FullName(p)
    case None => "Unknown"
  }

  /** The host name shown on a visitor's events: "-" when no staff member is the host. */
  function HostName(staff: seq<Staff>, v: Visitor): string
  {
    match HostIdOf(v)
    case None => "-"
    case Some(id) =>
      match FindStaff(staff, id)
      case Some(p) => FullName(p)
      case None => "-"
  }

  /** The event name: the first staff member with the id, "Unknown" when there is none. */
  lemma StaffNameMeaning(staff: seq<Staff>, id: int)
    ensures (forall k :: 0 <= k < |staff| ==> staff[k].id != id) ==> StaffName(staff, id) == "Unknown"
    ensures forall k :: (0 <= k < |staff| && staff[k].id == id && forall j :: 0 <= j < k ==> staff[j].id != id)
                        ==> StaffName(staff, id) == FullName(staff[k])
  {
  }

  /** The host name: the first staff member with the host id, "-" without a host id or such a member. */
  lemma HostNameMeaning(staff: seq<Staff>, v: Visitor)
    ensures HostIdOf(v).None? ==> HostName(staff, v) == "-"
    ensures (HostIdOf(v).Some? && forall k :: 0 <= k < |staff| ==> staff[k].id != HostIdOf(v).value)
            ==> HostName(staff, v) == "-"
    ensures forall k :: (0 <= k < |staff| && HostIdOf(v) == Some(staff[k].id)
                         && forall j :: 0 <= j < k ==> staff[j].id != staff[k].id)
                        ==> HostName(staff, v) == FullName(staff[k])
  {
  }

  function OnDate(day: string): Attendance -> bool
  {
    (a: Attendance) => a.date == day
  }

  function VisitorOnDate(day: string): Visitor -> bool
  {
    (v: Visitor) => v.date == day
  }

  /** `att.filter(x => x.date === day)` */
  function AttendanceOfDay(att: seq<Attendance>, day: string): (r: seq<Attendance>)
    ensures forall a :: a in r <==> a in att && a.date == day
    ensures forall a :: multiset(r)[a] == if a.date == day then multiset(att)[a] else 0
    ensures |r| <= |att|
  {
    FilterMultiset(att, OnDate(day));
    Filter(att, OnDate(day))
  }

  /** `visitors.filter(v => v.date === day)` */
  function VisitorsOfDay(vis: seq<Visitor>, day: string): (r: seq<Visitor>)
    ensures forall v :: v in r <==> v in vis && v.date == day
    ensures forall v :: multiset(r)[v] == if v.date == day then multiset(vis)[v] else 0
    ensures |r| <= |vis|
  {
    FilterMultiset(vis, VisitorOnDate(day));
    Filter(vis, VisitorOnDate(day))
  }
}
