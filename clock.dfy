/**
 * Time-of-day utilities of the dashboard: parsing "HH:MM" check-in times into
 * minutes since midnight, the fixed 09:30 lateness reference, and the
 * "{h}h {m}m" rendering of minute totals.
 */
module Clock {
  import opened Wrappers
  import opened Text

  /** The lateness reference, 09:30, in minutes since midnight. */
  const ReferenceMinute: nat := 9 * 60 + 30

  /**
   * Two decimal digits, a colon and two decimal digits, optionally followed by
   * a further ":" part (a "HH:MM:SS" time splits on ":" into the same first two
   * fields).
   */
  predicate WellFormedClock(t: string)
  {
    && |t| >= 5
    && IsDigit(t[0]) && IsDigit(t[1]) && t[2] == ':' && IsDigit(t[3]) && IsDigit(t[4])
    && (|t| == 5 || t[5] == ':')
  }

  /** A time-of-day field of a record; "" stands for an absent (null, undefined or empty) field. */
  type Clock = t: string | t == "" || WellFormedClock(t) witness ""

  /** toMin: minutes since midnight, or None for an absent time. */
  function ToMin(t: Clock): (r: Option<nat>)
    ensures r.None? <==> t == ""
    ensures r.Some? ==> r.value <= 99 * 60 + 99
  {
    if t == "" then None
    else
      TwoDigits(t[..2]);
      TwoDigits(t[3..5]);
      Some(DigitsValue(t[..2]) * 60 + DigitsValue(t[3..5]))
  }

  /** The minutes of a present time, read digit by digit from its hour and minute fields. */
  lemma ToMinFields(t: Clock)
    requires t != ""
    ensures ToMin(t) == Some((DigitValue(t[0]) * 10 + DigitValue(t[1])) * 60 + DigitValue(t[3]) * 10 + DigitValue(t[4]))
  {
    assert t[..2][0] == t[0] && t[..2][1] == t[1];
    assert t[3..5][0] == t[3] && t[3..5][1] == t[4];
    TwoDigits(t[..2]);
    TwoDigits(t[3..5]);
  }

  /** `toMin(t) || 0`, the sort and bucketing key of the source. */
  function MinuteOr0(t: Clock): (m: nat)
    ensures ToMin(t).Some? ==> m == ToMin(t).value
    ensures t == "" ==> m == 0
  {
    match ToMin(t)
    case None => 0
    case Some(v) => v
  }

  /** The "HH:MM" label of an hour and minute below one hundred, padded as `padStart(2, '0')` pads. */
  function FormatClock(h: nat, m: nat): (t: Clock)
    requires h < 100 && m < 100
    ensures |t| == 5
  {
    Pad2Digits(h);
    Pad2Digits(m);
    Pad2(h) + ":" + Pad2(m)
  }

  /** Parsing a formatted time gives back its minutes since midnight. */
  lemma ClockRoundTrip(h: nat, m: nat)
    requires h < 100 && m < 100
    ensures ToMin(FormatClock(h, m)) == Some(h * 60 + m)
  {
    Pad2Digits(h);
    Pad2Digits(m);
    var t := FormatClock(h, m);
    assert t[..2] == [DigitChar(h / 10), DigitChar(h % 10)];
    assert t[3..5] == [DigitChar(m / 10), DigitChar(m % 10)];
    TwoDigits(t[..2]);
    TwoDigits(t[3..5]);
  }

  /** And every well-formed five-character time is the formatting of its own fields. */
  lemma ClockFormatsBack(t: Clock)
    requires |t| == 5
    ensures var h := DigitsValue(t[..2]); var m := DigitsValue(t[3..5]);
            h < 100 && m < 100 && FormatClock(h, m) == t
  {
    var h := DigitsValue(t[..2]);
    var m := DigitsValue(t[3..5]);
    TwoDigits(t[..2]);
    TwoDigits(t[3..5]);
    assert t[..2] == [t[0], t[1]] && t[3..5] == [t[3], t[4]];
    PadOfDigits(t[0], t[1]);
    PadOfDigits(t[3], t[4]);
    assert t == t[..2] + [':'] + t[3..5];
  }

  /** isLate: strictly after 09:30; an absent check-in is never late. */
  function IsLate(checkIn: Clock): bool
  {
    match ToMin(checkIn)
    case None => false
    case Some(m) => m > ReferenceMinute
  }

  /** earlyBy: minutes before 09:30, never negative. */
  function EarlyBy(checkIn: Clock): nat
  {
    match ToMin(checkIn)
    case None => 0
    case Some(m) => if ReferenceMinute - m > 0 then ReferenceMinute - m else 0
  }

  /** lateBy: minutes after 09:30, never negative. */
  function LateBy(checkIn: Clock): nat
  {
    match ToMin(checkIn)
    case None => 0
    case Some(m) => if m - ReferenceMinute > 0 then m - ReferenceMinute else 0
  }

  /**
   * At most one of the two distances is non-zero, their difference is the
   * signed offset from 09:30, both vanish for an absent check-in, and a check-in
   * is late exactly when it has a positive lateness.
   */
  lemma LateEarlyRelation(checkIn: Clock)
    ensures EarlyBy(checkIn) == 0 || LateBy(checkIn) == 0
    ensures ToMin(checkIn).Some? ==> LateBy(checkIn) - EarlyBy(checkIn) == ToMin(checkIn).value - ReferenceMinute
    ensures checkIn == "" ==> EarlyBy(checkIn) == 0 && LateBy(checkIn) == 0 && !IsLate(checkIn)
    ensures IsLate(checkIn) <==> LateBy(checkIn) > 0
    ensures IsLate(checkIn) <==> ToMin(checkIn).Some? && ToMin(checkIn).value > ReferenceMinute
  {
  }

  /** fmtMin: "{h}h {m}m" when there is at least one whole hour, else "{m}m". */
  function FmtMin(n: nat): string
  {
    var h := n / 60;
    var m := n % 60;
    if h != 0 then Decimal(h) + "h " + Decimal(m) + "m" else Decimal(m) + "m"
  }

  /** Reads a rendered duration back into its (hours, minutes) fields. */
  function ParseDuration(s: string): Option<(nat, nat)>
  {
    if |s| < 2 || s[|s| - 1] != 'm' then None
    else
      var body := s[..|s| - 1];
      var k := IndexOf(body, 'h');
      if k == |body| then
        if AllDigits(body) then Some((0, DigitsValue(body))) else None
      else if 0 < k && k + 2 < |body| && body[k + 1] == ' '
              && AllDigits(body[..k]) && AllDigits(body[k + 2..]) then
        Some((DigitsValue(body[..k]), DigitsValue(body[k + 2..])))
      else None
  }

  /** Any "{digits}h {digits}m" reads back as its two numbers. */
  lemma ParseHoursAndMinutes(hs: string, ms: string)
    requires |hs| >= 1 && AllDigits(hs) && |ms| >= 1 && AllDigits(ms)
    ensures ParseDuration(hs + "h " + ms + "m") == Some((DigitsValue(hs), DigitsValue(ms)))
  {
    var s := hs + "h " + ms + "m";
    var body := hs + "h " + ms;
    assert s[..|s| - 1] == body;
    assert body == hs + ("h " + ms);
    IndexOfAfterDigits(hs, "h " + ms, 'h');
    assert body[..|hs|] == hs;
    assert body[|hs| + 2..] == ms;
    assert body[|hs| + 1] == ' ';
  }

  lemma ParseWithHours(h: nat, m: nat)
    ensures ParseDuration(Decimal(h) + "h " + Decimal(m) + "m") == Some((h, m))
  {
    ParseHoursAndMinutes(Decimal(h), Decimal(m));
    DecimalRoundTrip(h);
    DecimalRoundTrip(m);
  }

  lemma ParseMinutesOnly(m: nat)
    ensures ParseDuration(Decimal(m) + "m") == Some((0, m))
  {
    var s := Decimal(m) + "m";
    assert s[..|s| - 1] == Decimal(m);
    IndexOfAbsentInDigits(Decimal(m), 'h');
    DecimalRoundTrip(m);
  }

  lemma NoHourMark(m: nat)
    ensures 'h' !in Decimal(m) + "m"
  {
    var s := Decimal(m) + "m";
    forall i | 0 <= i < |s| ensures s[i] != 'h' {
      if i < |s| - 1 { assert s[i] == Decimal(m)[i]; }
    }
  }

  /**
   * The rendering is faithful: it reads back as hours and minutes with
   * h * 60 + m == n and m < 60, and shows an hour part exactly when n / 60 > 0.
   */
  lemma FmtMinRoundTrip(n: nat)
    ensures ParseDuration(FmtMin(n)) == Some((n / 60, n % 60))
    ensures 'h' in FmtMin(n) <==> n / 60 > 0
  {
    var h, m := n / 60, n % 60;
    if h != 0 {
      ParseWithHours(h, m);
      var s := Decimal(h) + "h " + Decimal(m) + "m";
      assert s[|Decimal(h)|] == 'h';
    } else {
      ParseMinutesOnly(m);
      NoHourMark(m);
    }
  }

  /** 09:30 itself is on time; one minute later is late; an absent check-in is never late. */
  lemma ReferenceExamples()
    ensures ToMin("09:30") == Some(570) && ToMin("") == None
    ensures IsLate("09:31") && !IsLate("09:30") && !IsLate("")
  {
    ToMinFields("09:30");
    ToMinFields("09:31");
  }

  /** A quarter of an hour either side of 09:30. */
  lemma OffsetExamples()
    ensures LateBy("09:45") == 15 && EarlyBy("09:45") == 0
    ensures EarlyBy("09:15") == 15 && LateBy("09:15") == 0
  {
    ToMinFields("09:45");
    ToMinFields("09:15");
  }

  /** Durations with and without a whole hour. */
  lemma FmtMinExamples()
    ensures FmtMin(75) == "1h 15m" && FmtMin(45) == "45m"
  {
  }
}
