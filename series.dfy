/**
 * The hourly entry-type chart: thirteen buckets from 07:00 to 19:00, each
 * holding the running totals of the day's own-card and temporary-card staff
 * check-ins and of its visitor check-ins up to and including that hour.
 */
module Series {
  import opened Wrappers
  import opened Text
  import opened Clock
  import opened Records
  import opened Sorting
  import opened Counting

  /** One point of the chart: its "HH:00" label and the three running totals. */
  datatype Bucket = Bucket(time: string, ownCard: nat, tempCard: nat, visitor: nat)

  const BucketCount: nat := 13
  const FirstHour: nat := 7

  /** `${String(h).padStart(2, '0')}:00` */
  function HourLabel(h: nat): (t: Clock)
    requires h < 100
    ensures |t| == 5
  {
    Pad2Digits(h);
    Pad2(h) + ":00"
  }

  /** The label of an hour reads back as that hour's first minute. */
  lemma LabelCutoff(h: nat)
    requires h < 100
    ensures MinuteOr0(HourLabel(h)) == h * 60
  {
    Pad2Digits(0);
    assert HourLabel(h) == FormatClock(h, 0);
    ClockRoundTrip(h, 0);
  }

  /** The cutoff of bucket `i`, in minutes since midnight. */
  function Cutoff(i: nat): nat { (FirstHour + i) * 60 }

  /** `att.filter(a => a.date === dateStr && a.checkIn)` */
  function CheckInsOfDay(att: seq<Attendance>, day: string): (r: seq<Attendance>)
    ensures forall a :: a in r <==> a in att && a.date == day && a.checkIn != ""
    ensures forall a :: multiset(r)[a] == if a.date == day && a.checkIn != "" then multiset(att)[a] else 0
  {
    var keep := (a: Attendance) => a.date == day && a.checkIn != "";
    FilterMultiset(att, keep);
    Filter(att, keep)
  }

  /** `visitors.filter(v => v.date === dateStr && v.checkIn)` */
  function VisitorCheckInsOfDay(vis: seq<Visitor>, day: string): (r: seq<Visitor>)
    ensures forall v :: v in r <==> v in vis && v.date == day && v.checkIn != ""
    ensures forall v :: multiset(r)[v] == if v.date == day && v.checkIn != "" then multiset(vis)[v] else 0
  {
    var keep := (v: Visitor) => v.date == day && v.checkIn != "";
    FilterMultiset(vis, keep);
    Filter(vis, keep)
  }

  /** `toMin(a.checkIn) || 0` */
  function CheckInMinute(a: Attendance): nat { MinuteOr0(a.checkIn) }

  /** `a.entryType || 'OWN_CARD'` */
  function CardOf(a: Attendance): EntryType
  {
    match a.entryType
    case Some(t) => t
    case None => OwnCard
  }

  /** The comparator of `sortedA`: check-in minute alone. */
  function CheckInKey(a: Attendance): Key { Key(CheckInMinute(a), 0) }

  /** `ofDayVis.map(v => toMin(v.checkIn) || 0)` */
  function VisitorMinutes(vs: seq<Visitor>): (ts: seq<int>)
    ensures |ts| == |vs|
    ensures forall i :: 0 <= i < |vs| ==> ts[i] == MinuteOr0(vs[i].checkIn) as int
  {
    seq(|vs|, i requires 0 <= i < |vs| => MinuteOr0(vs[i].checkIn) as int)
  }

  /** A check-in of card `card` at or before minute `c`. */
  function CardBy(c: int, card: EntryType): Attendance -> bool
  {
    a => CheckInMinute(a) <= c && CardOf(a) == card
  }

  /** A check-in at or before minute `c`, whatever the card. */
  function CheckedInBy(c: int): Attendance -> bool
  {
    a => CheckInMinute(a) <= c
  }

  function HasCard(card: EntryType): Attendance -> bool
  {
    a => CardOf(a) == card
  }

  function AtMost(c: int): int -> bool
  {
    t => t <= c
  }

  /** Bucket `i` over given check-ins and visitor arrival minutes: counts up to its cutoff. */
  function BucketOf(checkIns: seq<Attendance>, visitorMinutes: seq<int>, i: nat): Bucket
    requires i < BucketCount
  {
    Bucket(HourLabel(FirstHour + i),
           Count(checkIns, CardBy(Cutoff(i), OwnCard)),
           Count(checkIns, CardBy(Cutoff(i), TempCard)),
           Count(visitorMinutes, AtMost(Cutoff(i))))
  }

  /** The chart as it is meant to be: bucket `i` counts the day's check-ins up to `(7 + i):00`. */
  function ExpectedSeries(att: seq<Attendance>, vis: seq<Visitor>, day: string): seq<Bucket>
  {
    var checkIns := CheckInsOfDay(att, day);
    var visitorMinutes := VisitorMinutes(VisitorCheckInsOfDay(vis, day));
    seq(BucketCount, i requires 0 <= i < BucketCount => BucketOf(checkIns, visitorMinutes, i))
  }

  /** Every one of the first `k` check-ins is at or before minute `c`. */
  predicate PassedBy(s: seq<Attendance>, k: nat, c: int)
    requires k <= |s|
  {
    forall j :: 0 <= j < k ==> CheckInMinute(s[j]) <= c
  }

  lemma PassedByStep(s: seq<Attendance>, k: nat, c: int)
    requires k < |s| && PassedBy(s, k, c) && CheckInMinute(s[k]) <= c
    ensures PassedBy(s, k + 1, c)
  {
  }

  lemma PassedByLater(s: seq<Attendance>, k: nat, c: int, d: int)
    requires k <= |s| && PassedBy(s, k, c) && c <= d
    ensures PassedBy(s, k, d)
  {
  }

  /** Every one of the first `k` visitor minutes is at or before minute `c`. */
  predicate MinutesBy(ts: seq<int>, k: nat, c: int)
    requires k <= |ts|
  {
    forall j :: 0 <= j < k ==> ts[j] <= c
  }

  lemma MinutesByLater(ts: seq<int>, k: nat, c: int, d: int)
    requires k <= |ts| && MinutesBy(ts, k, c) && c <= d
    ensures MinutesBy(ts, k, d)
  {
  }

  /** `own` and `temp` are the card tallies of the first `k` check-ins. */
  predicate Tallied(s: seq<Attendance>, k: nat, own: nat, temp: nat)
    requires k <= |s|
  {
    own == Count(s[..k], HasCard(OwnCard)) && temp == Count(s[..k], HasCard(TempCard))
  }

  /** One more check-in tallied: it goes to the count of its own card. */
  lemma TallyStep(s: seq<Attendance>, k: nat, own: nat, temp: nat)
    requires k < |s| && Tallied(s, k, own, temp)
    ensures CardOf(s[k]) == OwnCard ==> Tallied(s, k + 1, own + 1, temp)
    ensures CardOf(s[k]) != OwnCard ==> Tallied(s, k + 1, own, temp + 1)
  {
    CountStep(s, k, HasCard(OwnCard));
    CountStep(s, k, HasCard(TempCard));
  }

  /** The attendance cursor stops at the first check-in after the cutoff; what it passed is what the bucket counts. */
  lemma AttendanceCursor(s: seq<Attendance>, k: nat, c: int, card: EntryType)
    requires SortedBy(s, CheckInKey) && k <= |s|
    requires PassedBy(s, k, c)
    requires k == |s| || CheckInMinute(s[k]) > c
    ensures Count(s, CardBy(c, card)) == Count(s[..k], HasCard(card))
  {
    if k < |s| {
      SortedPastBound(s, CheckInKey, k, c);
    }
    CountSplit(s, k, CardBy(c, card), HasCard(card));
  }

  /** The visitor cursor stops at the first arrival after the cutoff; it has passed exactly the bucket's count. */
  lemma MinuteCursor(ts: seq<int>, k: nat, c: int)
    requires SortedBy(ts, IntKey) && k <= |ts|
    requires MinutesBy(ts, k, c)
    requires k == |ts| || ts[k] > c
    ensures Count(ts, AtMost(c)) == k
  {
    if k < |ts| {
      SortedPastBound(ts, IntKey, k, c);
    }
    CountSplit(ts, k, AtMost(c), AtMost(c));
    CountAll(ts[..k], AtMost(c));
  }

  /** The first `while` of the bucket loop: advance over the check-ins up to the cutoff, tallying by card. */
  method AdvanceCheckIns(sortedA: seq<Attendance>, idx0: nat, own0: nat, temp0: nat, cutoff: int)
    returns (idx: nat, own: nat, temp: nat)
    requires idx0 <= |sortedA|
    requires Tallied(sortedA, idx0, own0, temp0)
    requires PassedBy(sortedA, idx0, cutoff)
    ensures idx0 <= idx <= |sortedA|
    ensures Tallied(sortedA, idx, own, temp)
    ensures PassedBy(sortedA, idx, cutoff)
    ensures idx == |sortedA| || CheckInMinute(sortedA[idx]) > cutoff
  {
    idx, own, temp := idx0, own0, temp0;
    while idx < |sortedA| && CheckInMinute(sortedA[idx]) <= cutoff
      invariant idx0 <= idx <= |sortedA|
      invariant Tallied(sortedA, idx, own, temp)
      invariant PassedBy(sortedA, idx, cutoff)
      decreases |sortedA| - idx
    {
      PassedByStep(sortedA, idx, cutoff);
      TallyStep(sortedA, idx, own, temp);
      if CardOf(sortedA[idx]) == OwnCard {
        own := own + 1;
      } else {
        temp := temp + 1;
      }
      idx := idx + 1;
    }
  }

  /** The second `while` of the bucket loop: advance over the visitor arrivals up to the cutoff. */
  method AdvanceVisitors(visTimes: seq<int>, vIdx0: nat, cutoff: int) returns (vIdx: nat, vCount: nat)
    requires vIdx0 <= |visTimes|
    requires MinutesBy(visTimes, vIdx0, cutoff)
    ensures vIdx0 <= vIdx <= |visTimes| && vCount == vIdx
    ensures MinutesBy(visTimes, vIdx, cutoff)
    ensures vIdx == |visTimes| || visTimes[vIdx] > cutoff
  {
    vIdx, vCount := vIdx0, vIdx0;
    while vIdx < |visTimes| && visTimes[vIdx] <= cutoff
      invariant vIdx0 <= vIdx <= |visTimes| && vCount == vIdx
      invariant MinutesBy(visTimes, vIdx, cutoff)
      decreases |visTimes| - vIdx
    {
      vCount := vCount + 1;
      vIdx := vIdx + 1;
    }
  }

  /** Once both cursors have stopped at a cutoff, the running totals are bucket `i`'s counts. */
  lemma CursorsGiveBucket(ofDayAtt: seq<Attendance>, visMins: seq<int>, i: nat,
                          sortedA: seq<Attendance>, idx: nat, own: nat, temp: nat,
                          visTimes: seq<int>, vIdx: nat)
    requires i < BucketCount
    requires sortedA == SortBy(ofDayAtt, CheckInKey) && visTimes == SortBy(visMins, IntKey)
    requires idx <= |sortedA| && vIdx <= |visTimes|
    requires Tallied(sortedA, idx, own, temp)
    requires PassedBy(sortedA, idx, Cutoff(i))
    requires idx == |sortedA| || CheckInMinute(sortedA[idx]) > Cutoff(i)
    requires MinutesBy(visTimes, vIdx, Cutoff(i))
    requires vIdx == |visTimes| || visTimes[vIdx] > Cutoff(i)
    ensures Bucket(HourLabel(FirstHour + i), own, temp, vIdx) == BucketOf(ofDayAtt, visMins, i)
  {
    AttendanceCursor(sortedA, idx, Cutoff(i), OwnCard);
    AttendanceCursor(sortedA, idx, Cutoff(i), TempCard);
    CountPermutation(sortedA, ofDayAtt, CardBy(Cutoff(i), OwnCard));
    CountPermutation(sortedA, ofDayAtt, CardBy(Cutoff(i), TempCard));
    MinuteCursor(visTimes, vIdx, Cutoff(i));
    CountPermutation(visTimes, visMins, AtMost(Cutoff(i)));
  }

  /** The state of the bucket array after `i` rounds: filled up to `i`, labelled beyond. */
  predicate FilledUpTo(b: seq<Bucket>, i: nat, checkIns: seq<Attendance>, visMins: seq<int>)
  {
    |b| == BucketCount && i <= BucketCount
    && (forall k :: 0 <= k < i ==> b[k] == BucketOf(checkIns, visMins, k))
    && (forall k :: i <= k < BucketCount ==> b[k].time == HourLabel(FirstHour + k))
  }

  lemma FilledStep(b: seq<Bucket>, i: nat, checkIns: seq<Attendance>, visMins: seq<int>, filled: Bucket)
    requires FilledUpTo(b, i, checkIns, visMins) && i < BucketCount
    requires filled == BucketOf(checkIns, visMins, i)
    ensures FilledUpTo(b[i := filled], i + 1, checkIns, visMins)
  {
  }

  lemma FilledAll(b: seq<Bucket>, att: seq<Attendance>, vis: seq<Visitor>, day: string)
    requires FilledUpTo(b, BucketCount, CheckInsOfDay(att, day), VisitorMinutes(VisitorCheckInsOfDay(vis, day)))
    ensures b == ExpectedSeries(att, vis, day)
  {
  }

  /** The state both cursors keep between buckets: everything passed is at or before `cutoff`. */
  predicate CursorsAt(sortedA: seq<Attendance>, idx: nat, own: nat, temp: nat,
                      visTimes: seq<int>, vIdx: nat, vCount: nat, cutoff: int)
  {
    idx <= |sortedA| && vIdx <= |visTimes| && vCount == vIdx
    && Tallied(sortedA, idx, own, temp)
    && PassedBy(sortedA, idx, cutoff) && MinutesBy(visTimes, vIdx, cutoff)
  }

  /** One round of the `forEach` over the buckets: advance both cursors to the bucket's cutoff and record the totals. */
  method FillBucket(buckets: array<Bucket>, i: nat, ghost ofDayAtt: seq<Attendance>, ghost visMins: seq<int>,
                    sortedA: seq<Attendance>, idx0: nat, own0: nat, temp0: nat,
                    visTimes: seq<int>, vIdx0: nat, vCount0: nat)
    returns (idx: nat, own: nat, temp: nat, vIdx: nat, vCount: nat)
    requires i < BucketCount == buckets.Length
    requires sortedA == SortBy(ofDayAtt, CheckInKey) && visTimes == SortBy(visMins, IntKey)
    requires buckets[i].time == HourLabel(FirstHour + i)
    requires CursorsAt(sortedA, idx0, own0, temp0, visTimes, vIdx0, vCount0, Cutoff(i))
    modifies buckets
    ensures buckets[..] == old(buckets[..])[i := BucketOf(ofDayAtt, visMins, i)]
    ensures CursorsAt(sortedA, idx, own, temp, visTimes, vIdx, vCount, Cutoff(i + 1))
  {
    var cutoff := MinuteOr0(buckets[i].time);
    LabelCutoff(FirstHour + i);
    idx, own, temp := AdvanceCheckIns(sortedA, idx0, own0, temp0, cutoff);
    vIdx, vCount := AdvanceVisitors(visTimes, vIdx0, cutoff);
    CursorsGiveBucket(ofDayAtt, visMins, i, sortedA, idx, own, temp, visTimes, vIdx);
    PassedByLater(sortedA, idx, Cutoff(i), Cutoff(i + 1));
    MinutesByLater(visTimes, vIdx, Cutoff(i), Cutoff(i + 1));
    buckets[i] := buckets[i].(ownCard := own, tempCard := temp, visitor := vCount);
  }

  /** The `forEach` over the buckets, each round advancing the two cursors from where the last one stopped. */
  method FillBuckets(buckets: array<Bucket>, ghost att: seq<Attendance>, ghost vis: seq<Visitor>, ghost day: string,
                     ofDayAtt: seq<Attendance>, ofDayVis: seq<Visitor>)
    requires ofDayAtt == CheckInsOfDay(att, day) && ofDayVis == VisitorCheckInsOfDay(vis, day)
    requires FilledUpTo(buckets[..], 0, ofDayAtt, VisitorMinutes(ofDayVis))
    modifies buckets
    ensures buckets[..] == ExpectedSeries(att, vis, day)
  {
    ghost var visMins := VisitorMinutes(ofDayVis);
    var sortedA := SortBy(ofDayAtt, CheckInKey);
    var own, temp, idx := 0, 0, 0;
    var visTimes := SortBy(VisitorMinutes(ofDayVis), IntKey);
    var vIdx, vCount := 0, 0;
    for i := 0 to BucketCount
      invariant CursorsAt(sortedA, idx, own, temp, visTimes, vIdx, vCount, Cutoff(i))
      invariant FilledUpTo(buckets[..], i, ofDayAtt, visMins)
    {
      assert buckets[i].time == buckets[..][i].time == HourLabel(FirstHour + i);
      ghost var before := buckets[..];
      idx, own, temp, vIdx, vCount := FillBucket(buckets, i, ofDayAtt, visMins, sortedA, idx, own, temp, visTimes, vIdx, vCount);
      FilledStep(before, i, ofDayAtt, visMins, BucketOf(ofDayAtt, visMins, i));
    }
    FilledAll(buckets[..], att, vis, day);
  }

  /** The buckets as first laid out: labelled "07:00" to "19:00", all counts zero. */
  lemma FreshLayout(b: seq<Bucket>, checkIns: seq<Attendance>, visMins: seq<int>)
    requires |b| == BucketCount
    requires forall k :: 0 <= k < BucketCount ==> b[k] == Bucket(HourLabel(FirstHour + k), 0, 0, 0)
    ensures FilledUpTo(b, 0, checkIns, visMins)
  {
  }

  /**
   * buildEntryTypeSeries: the buckets are laid out with zero counts, then
   * filled in hour order by two cursors that only move forward over the
   * day's check-ins sorted by minute.
   */
  method BuildEntryTypeSeries(att: seq<Attendance>, vis: seq<Visitor>, day: string) returns (series: seq<Bucket>)
    ensures series == ExpectedSeries(att, vis, day)
  {
    var ofDayAtt := CheckInsOfDay(att, day);
    var ofDayVis := VisitorCheckInsOfDay(vis, day);
    var buckets := new Bucket[BucketCount](i requires 0 <= i < BucketCount => Bucket(HourLabel(FirstHour + i), 0, 0, 0));
    FreshLayout(buckets[..], ofDayAtt, VisitorMinutes(ofDayVis));
    FillBuckets(buckets, att, vis, day, ofDayAtt, ofDayVis);
    series := buckets[..];
  }

  /** Thirteen buckets whose labels read back as the cutoffs 07:00, 08:00, ..., 19:00. */
  lemma SeriesShape(att: seq<Attendance>, vis: seq<Visitor>, day: string)
    ensures |ExpectedSeries(att, vis, day)| == BucketCount
    ensures forall i :: 0 <= i < BucketCount ==> MinuteOr0(ExpectedSeries(att, vis, day)[i].time) == (7 + i) * 60
  {
    forall i | 0 <= i < BucketCount ensures MinuteOr0(ExpectedSeries(att, vis, day)[i].time) == (7 + i) * 60 {
      LabelCutoff(FirstHour + i);
    }
  }

  /** The totals are cumulative: no count goes down from one hour to a later one. */
  lemma SeriesMonotone(att: seq<Attendance>, vis: seq<Visitor>, day: string, i: nat, j: nat)
    requires i <= j < BucketCount
    ensures ExpectedSeries(att, vis, day)[i].ownCard <= ExpectedSeries(att, vis, day)[j].ownCard
    ensures ExpectedSeries(att, vis, day)[i].tempCard <= ExpectedSeries(att, vis, day)[j].tempCard
    ensures ExpectedSeries(att, vis, day)[i].visitor <= ExpectedSeries(att, vis, day)[j].visitor
  {
    var checkIns := CheckInsOfDay(att, day);
    CountMonotone(checkIns, CardBy(Cutoff(i), OwnCard), CardBy(Cutoff(j), OwnCard));
    CountMonotone(checkIns, CardBy(Cutoff(i), TempCard), CardBy(Cutoff(j), TempCard));
    CountMonotone(VisitorMinutes(VisitorCheckInsOfDay(vis, day)), AtMost(Cutoff(i)), AtMost(Cutoff(j)));
  }

  /** Every check-in counts under exactly one card: the two card totals add up to all check-ins up to the hour. */
  lemma CardsPartition(checkIns: seq<Attendance>, c: int)
    ensures Count(checkIns, CardBy(c, OwnCard)) + Count(checkIns, CardBy(c, TempCard)) == Count(checkIns, CheckedInBy(c))
  {
    CountUnion(checkIns, CardBy(c, OwnCard), CardBy(c, TempCard), CheckedInBy(c));
  }

  /** No bucket counts more staff check-ins or visitor arrivals than the day has. */
  lemma SeriesBounded(att: seq<Attendance>, vis: seq<Visitor>, day: string, i: nat)
    requires i < BucketCount
    ensures ExpectedSeries(att, vis, day)[i].ownCard + ExpectedSeries(att, vis, day)[i].tempCard
              == Count(CheckInsOfDay(att, day), CheckedInBy(Cutoff(i)))
    ensures ExpectedSeries(att, vis, day)[i].ownCard + ExpectedSeries(att, vis, day)[i].tempCard <= |CheckInsOfDay(att, day)|
    ensures ExpectedSeries(att, vis, day)[i].ownCard <= Count(CheckInsOfDay(att, day), HasCard(OwnCard))
    ensures ExpectedSeries(att, vis, day)[i].tempCard <= Count(CheckInsOfDay(att, day), HasCard(TempCard))
    ensures ExpectedSeries(att, vis, day)[i].visitor <= |VisitorCheckInsOfDay(vis, day)|
  {
    var checkIns := CheckInsOfDay(att, day);
    CardsPartition(checkIns, Cutoff(i));
    CountMonotone(checkIns, CardBy(Cutoff(i), OwnCard), HasCard(OwnCard));
    CountMonotone(checkIns, CardBy(Cutoff(i), TempCard), HasCard(TempCard));
  }

  /** The 19:00 staff totals account for the whole day exactly when nobody checked in after 19:00. */
  lemma LastBucketComplete(att: seq<Attendance>, vis: seq<Visitor>, day: string)
    ensures var last := ExpectedSeries(att, vis, day)[BucketCount - 1];
            last.ownCard + last.tempCard == |CheckInsOfDay(att, day)|
            <==> forall a :: a in CheckInsOfDay(att, day) ==> CheckInMinute(a) <= 19 * 60
  {
    var checkIns := CheckInsOfDay(att, day);
    CardsPartition(checkIns, Cutoff(BucketCount - 1));
    CountAllMembers(checkIns, CheckedInBy(Cutoff(BucketCount - 1)));
  }

  /** Every visitor arrival is counted by cutoff `c` exactly when every visitor arrived by `c`. */
  lemma VisitorsAllBy(vs: seq<Visitor>, c: int)
    ensures Count(VisitorMinutes(vs), AtMost(c)) == |vs| <==> forall v :: v in vs ==> MinuteOr0(v.checkIn) <= c
  {
    var mins := VisitorMinutes(vs);
    CountAllMembers(mins, AtMost(c));
    if forall v :: v in vs ==> MinuteOr0(v.checkIn) <= c {
      forall t | t in mins ensures t <= c {
        var i :| 0 <= i < |mins| && mins[i] == t;
        assert vs[i] in vs;
      }
    }
    if forall t :: t in mins ==> t <= c {
      forall v | v in vs ensures MinuteOr0(v.checkIn) <= c {
        var i :| 0 <= i < |vs| && vs[i] == v;
        assert mins[i] in mins;
      }
    }
  }

  /** The 19:00 visitor total accounts for the whole day exactly when no visitor arrived after 19:00. */
  lemma LastBucketVisitors(att: seq<Attendance>, vis: seq<Visitor>, day: string)
    ensures ExpectedSeries(att, vis, day)[BucketCount - 1].visitor == |VisitorCheckInsOfDay(vis, day)|
            <==> forall v :: v in VisitorCheckInsOfDay(vis, day) ==> MinuteOr0(v.checkIn) <= 19 * 60
  {
    VisitorsAllBy(VisitorCheckInsOfDay(vis, day), Cutoff(BucketCount - 1));
  }

  /** A check-in at 19:30 is one of the day's check-ins, yet no bucket of the chart counts it. */
  lemma LateArrivalNotCharted(a: Attendance, day: string, i: nat)
    requires a.date == day && a.checkIn == "19:30" && a.entryType == None
    requires i < BucketCount
    ensures CheckInsOfDay([a], day) == [a]
    ensures ExpectedSeries([a], [], day)[i] == Bucket(HourLabel(FirstHour + i), 0, 0, 0)
  {
    ToMinFields(a.checkIn);
    assert CheckInMinute(a) == 19 * 60 + 30;
    assert CheckInsOfDay([a], day) == [a];
    assert [a][..0] == [];
    assert !CardBy(Cutoff(i), OwnCard)(a);
  }
}
