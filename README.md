# Attendance dashboard derivations, modelled in Dafny

The dashboard (`src/App.tsx`) fetches staff, attendance and visitor records and
turns them into display facts. This project models that derivation layer and
proves what it promises:

- **time utilities**: `toMin`, `fmtMin`, `isLate`, `earlyBy`, `lateBy`, the gate
  strings and `hostIdOf`;
- **effective date**: `mostRecentDate` and `activeDateUnion`, with `today()`
  passed in as a parameter;
- **status classification**: `computeStatusFor`;
- **the day's timeline**: `expandEventsForDay`;
- **the hourly entry-type chart**: `buildEntryTypeSeries`;
- **the status pie**: `buildStatusPie`;
- **the profile summaries**: late, early and lunch totals over the daily,
  monthly or yearly tab;
- **the reports head counts**: present, left and offsite.

## Modules

| module | file | contents |
|---|---|---|
| `Wrappers` | `wrappers.dfy` | `Option` |
| `Text` | `text.dfy` | digit strings, decimal rendering, two-digit padding, `indexOf` |
| `Clock` | `clock.dfy` | `Clock` time strings, `ToMin`, `FmtMin`, late/early relative to 09:30 |
| `Records` | `records.dfy` | staff, attendance, visitor and gate records; gate strings; day filters |
| `EffectiveDate` | `effective_date.dfy` | string order, `MostRecentDate`, `ActiveDateUnion` |
| `Status` | `status.dfy` | `ComputeStatusFor` and its classification |
| `Sorting` | `sorting.dfy` | the comparator sorts, modelled as a stable insertion sort by a `Key` |
| `Counting` | `counting.dfy` | `Count(s, p)`, the `filter(p).length` of the tallies |
| `Timeline` | `timeline.dfy` | the event projector and its sort |
| `Series` | `series.dfy` | the 13 cumulative hourly buckets and their two cursors |
| `Pie` | `pie.dfy` | the status tallies and the empty-slice filter |
| `Summaries` | `summaries.dfy` | tab filters, minute totals, report head counts |

## How the code is modelled

- **Imperative parts are methods.** The three parts that mutate local state are
  methods with loops. Each one is proved equal to a specification function:
  - `expandEventsForDay` pushes events in `for` loops and then sorts;
  - `buildEntryTypeSeries` fills a 13-element `array` of buckets, using
    cursors that only move forward;
  - `buildStatusPie` bumps four counters.

  The properties are then proved as lemmas about those specification functions.
- **Absent values.** JavaScript `null`, `undefined` and `""` are all falsy. The
  core tests the time fields, the building and a visitor's `company` and
  `purpose` only for truthiness, so each of them is the empty string when
  absent.
- **Dates.** The core compares dates with `===` and, in the tab filters, with
  `startsWith`. An absent date is also modelled as the empty string, which
  equals no effective day.
- **Ids.** Staff and row ids are plain integers, compared with `===`. `Option`
  holds the host ids that `hostIdOf` chains with `??`, the event's `staffId`
  (absent on visitor events) and the optional `entryType`.
- **Filters.** Every `filter` of the core is the one generic `Counting.Filter`:
  the row filters, `filter(Boolean)` on the dates (`EffectiveDate.PresentDates`)
  and the pie's `filter(d => d.value > 0)` (`Pie.KeepPositive`).
  `Counting.FilterMultiset` proves it keeps each matching element as often as it
  occurs. `Counting.FilterConcat` and `Counting.FilterFirst` prove it keeps
  their order.
- **Sorting.** Sorting with a comparator is modelled as a pure, stable insertion
  sort by a lexicographic `Key`. It is proved sorted, a permutation of its input,
  and stable (equal keys keep their input order).
- **The 19:00 bucket.** One could read the chart as promising that its last
  bucket holds the day's whole total. The code makes that true only when nobody
  checked in after 19:00. `Series.LastBucketComplete` proves the
  if-and-only-if, and `Series.LateArrivalNotCharted` exhibits a 19:30 check-in
  that no bucket counts.

## Model

| member | source | states |
|---|---|---|
| Text.DecimalRoundTrip | src/App.tsx:38 | the decimal rendering of a number reads back as that number |
| Text.Pad2Digits | src/App.tsx:91 | `padStart(2,'0')` of a number below 100 is its tens digit followed by its units digit |
| Clock.ToMin | src/App.tsx:37 | absent input gives null and only absent input does; a present time gives a minute count |
| Clock.ToMinFields | src/App.tsx:37 | a present "HH:MM" gives `HH*60+MM`, computed from its four digits |
| Clock.MinuteOr0 | src/App.tsx:92 | `toMin(t) \|\| 0` is the parsed minute when present, 0 when absent |
| Clock.ClockRoundTrip | src/App.tsx:37 | a time formatted from hour h and minute m parses back to `h*60+m` |
| Clock.ClockFormatsBack | src/App.tsx:37 | every five-character time is the formatting of its own hour and minute fields |
| Clock.LateEarlyRelation | src/App.tsx:41-43 | at most one of earlyBy/lateBy is non-zero; `lateBy - earlyBy = m - 570` for a present check-in; absent gives 0, 0, not late; late iff lateBy > 0 iff minute > 570 |
| Clock.IsLate | src/App.tsx:41 | a check-in after 09:30; absent is never late (contract: `Clock.LateEarlyRelation`) |
| Clock.EarlyBy | src/App.tsx:42 | minutes before 09:30, 0 when absent or not early (contract: `Clock.LateEarlyRelation`) |
| Clock.LateBy | src/App.tsx:43 | minutes after 09:30, 0 when absent or not late (contract: `Clock.LateEarlyRelation`) |
| Clock.FmtMin | src/App.tsx:38 | "{h}h {m}m" or "{m}m" (contract: `Clock.FmtMinRoundTrip`) |
| Clock.FmtMinRoundTrip | src/App.tsx:38 | `fmtMin(n)` reads back as `(n/60, n%60)`; it has an hour part exactly when `n/60 > 0` |
| Clock.ParseWithHours | src/App.tsx:38 | "{h}h {m}m" reads back as (h, m) |
| Clock.ParseMinutesOnly | src/App.tsx:38 | "{m}m" reads back as (0, m) |
| Clock.ReferenceExamples | src/App.tsx:37-41 | "09:30" is minute 570; absent is null; 09:31 is late, 09:30 and absent are not |
| Clock.OffsetExamples | src/App.tsx:42-43 | 09:45 is 15 late and 0 early; 09:15 is 15 early and 0 late |
| Clock.FmtMinExamples | src/App.tsx:38 | 75 renders "1h 15m", 45 renders "45m" |
| Records.GateString | src/App.tsx:44-45 | "-" exactly when the building is absent; otherwise the text starts with the building |
| Records.GateStringRoundTrip | src/App.tsx:44-45 | a rendered gate reads back as its building, floor and door when the building and floor contain no bullet |
| Records.HostIdOf | src/App.tsx:46 | the direct host id if present, else the nested one; null exactly when both are absent |
| Records.FindStaff | src/App.tsx:171 | `staff.find` returns the first member with the id, and nothing exactly when no member has it |
| Records.StaffName | src/App.tsx:171-172 | the name on a staff member's events (contract: `Records.StaffNameMeaning`) |
| Records.StaffNameMeaning | src/App.tsx:171-172 | the full name of the first staff member with the id, "Unknown" when there is none |
| Records.HostName | src/App.tsx:180 | the host name on a visitor's events (contract: `Records.HostNameMeaning`) |
| Records.HostNameMeaning | src/App.tsx:180 | the full name of the first staff member whose id is the host id, "-" when there is no host id or no such member |
| Records.AttendanceOfDay | src/App.tsx:170 | keeps exactly the rows dated `day`, each as often as it occurs (order: `Counting.FilterConcat`) |
| Records.VisitorsOfDay | src/App.tsx:179 | keeps exactly the visitor rows dated `day`, each as often as it occurs |
| EffectiveDate.StrLessIrreflexive | src/App.tsx:39 | the string order of `cur>max` is irreflexive |
| EffectiveDate.StrLessTransitive | src/App.tsx:39 | that order is transitive |
| EffectiveDate.StrLessTotal | src/App.tsx:39 | that order is total |
| EffectiveDate.StrLessSharedPrefix | src/App.tsx:39 | a shared prefix does not change how two strings compare |
| EffectiveDate.StrLess | src/App.tsx:39 | the `cur>max` comparison of the reduce (contracts: the four `StrLess` lemmas) |
| EffectiveDate.RowDates | src/App.tsx:40 | `[...att, ...vis]` dates: the attendance dates, then the visitor dates |
| EffectiveDate.PresentDates | src/App.tsx:39 | `filter(Boolean)` keeps exactly the present dates, each as often as it occurs |
| EffectiveDate.MaxFrom | src/App.tsx:39 | the `reduce` returns the seed or one of the dates, and no date is greater than it |
| EffectiveDate.MostRecentDate | src/App.tsx:39 | today when no row has a date, else a present date that no other present date exceeds |
| EffectiveDate.ActiveDateUnion | src/App.tsx:40 | today if any row is dated today; else the greatest row date, or today when there is none; always today or a row date |
| EffectiveDate.LatestOfThree | src/App.tsx:39 | of three dates, the reduce picks the greatest wherever it stands |
| EffectiveDate.EffectiveDateExample | src/App.tsx:39-40 | with rows dated 2024-01-01, 2024-01-03 and 2024-01-02 and none today, the effective date is 2024-01-03 |
| Status.StatusTextInjective | src/App.tsx:112 | distinct statuses have distinct texts, so comparing texts compares statuses |
| Status.ComputeStatusFor | src/App.tsx:49-55 | the decision list on the first row of the date (contract: `Status.StatusClassification`) |
| Status.FirstOnDate | src/App.tsx:50 | the position of the first row dated `date`: every earlier row has another date |
| Status.FindOnDateIsFirst | src/App.tsx:50 | `rows.find` returns the row at that first position, and nothing exactly when there is none |
| Status.StatusClassification | src/App.tsx:49-55 | never On Leave; At Lunch iff the first row of the day is checked in, out to lunch and not back; At Work iff it is checked in, not at lunch and not checked out; Offsite otherwise |
| Status.StatusIgnoresOtherDays | src/App.tsx:110-111 | rows of other days never change the status |
| Status.StatusFirstRowWins | src/App.tsx:50 | rows after the first matching row never change the status |
| Sorting.InsertBy | src/App.tsx:186 | one insertion step adds exactly its element |
| Sorting.InsertSorted | src/App.tsx:186 | an insertion step keeps a sorted sequence sorted |
| Sorting.SortBy | src/App.tsx:186 | the sort is ordered by the comparator's key and is a permutation of its input |
| Sorting.InsertStable | src/App.tsx:186 | an insertion step keeps the input order of elements with equal keys |
| Sorting.SortStable | src/App.tsx:186 | the elements with any given key come out in their input order |
| Sorting.SortSortedIsIdentity | src/App.tsx:186 | an already sorted input comes back unchanged |
| Sorting.SortPairOutOfOrder | src/App.tsx:186 | two elements out of order are swapped |
| Sorting.AdjacentSorted | src/App.tsx:186 | ordered neighbours make an ordered sequence |
| Sorting.SortedPastBound | src/App.tsx:92-101 | in a sorted sequence, once a key exceeds the cutoff, every later key does too |
| Counting.CountPermutation | src/App.tsx:92-94 | sorting the check-ins does not change any count over them |
| Counting.CountSplit | src/App.tsx:97-100 | a cursor over a sequence that fails the predicate from some point on counts what lies before that point |
| Counting.CountUnion | src/App.tsx:98-99 | counts of two disjoint cases add up to the count of either |
| Counting.Filter | src/App.tsx:88-89 | `filter(p)`: the result is as long as the count of `p` |
| Counting.FilterMultiset | src/App.tsx:170 | `filter(p)` keeps exactly the elements satisfying `p`, each as often as it occurs |
| Counting.FilterConcat | src/App.tsx:170 | filtering a concatenation concatenates the filtered parts, so order is kept |
| Counting.FilterFirst | src/App.tsx:110-111 | the filter starts with the first element satisfying `p`, followed by the filter of the rest |
| Counting.FilterEmpty | src/App.tsx:110-111 | the filter is empty iff no element satisfies `p` |
| Timeline.PushAttendanceEvents | src/App.tsx:174-177 | the four conditional pushes append exactly the row's events |
| Timeline.PushVisitorEvents | src/App.tsx:182-183 | the two conditional pushes append exactly the visitor's events |
| Timeline.CollectAttendanceEvents | src/App.tsx:170-178 | the first loop yields the events of the day's attendance rows, in row order |
| Timeline.AppendVisitorEvents | src/App.tsx:179-184 | the second loop appends the events of the day's visitor rows |
| Timeline.ExpandEventsForDay | src/App.tsx:168-188 | the result is the day's events sorted by (minute, kind rank): ordered, and a permutation of the pushed events |
| Timeline.AttendanceEvents | src/App.tsx:171-177 | one row's pushes (contracts: `Timeline.AttendanceEventsKinds`, `Timeline.AttendanceEventsOfRow`, `Timeline.AttendanceEventsShown`) |
| Timeline.VisitorEvents | src/App.tsx:180-183 | one visitor's pushes (contracts: `Timeline.VisitorEventsKinds`, `Timeline.VisitorEventsOfRow`, `Timeline.VisitorEventsShown`) |
| Timeline.DayEvents | src/App.tsx:169-184 | the events before the sort: the day's attendance events, then the day's visitor events (contract: `Timeline.DayEventsFaithful`) |
| Timeline.EventKey | src/App.tsx:186 | the comparator: minute of the event, then kind rank |
| Timeline.Rank | src/App.tsx:185 | the `order` table |
| Timeline.EntryLabel | src/App.tsx:173 | "temp card" for TEMP_CARD, otherwise "own card" |
| Timeline.VisitorSubtitle | src/App.tsx:181 | host name, then company and purpose when present (contract: `Timeline.VisitorSubtitleHost`) |
| Timeline.AttendanceEventsShown | src/App.tsx:172-177 | each event of a row shows the staff member's name, and the card label or lunch direction as subtitle |
| Timeline.VisitorEventsShown | src/App.tsx:181-183 | each event of a visitor shows the visitor's name and the host subtitle |
| Timeline.VisitorSubtitleHost | src/App.tsx:180-181 | the subtitle starts with "visitor • host: " and the host's name |
| Timeline.EmitKinds | src/App.tsx:174-177 | a field yields one event of its kind when present and none when absent |
| Timeline.EmitEvent | src/App.tsx:174-177 | an emitted event carries its kind, the field's time, the row's date and staff id, and is late-flagged exactly for a late check-in |
| Timeline.AttendanceEventsKinds | src/App.tsx:174-177 | a row yields CHECK_IN, LUNCH_OUT, LUNCH_IN, CHECK_OUT for its present fields, in that order, one per present field |
| Timeline.AttendanceEventsOfRow | src/App.tsx:174-177 | every event of a row comes from that row |
| Timeline.VisitorEventsKinds | src/App.tsx:182-183 | a visitor yields VISITOR_IN and VISITOR_OUT for its present fields, one per present field |
| Timeline.VisitorEventsOfRow | src/App.tsx:182-183 | every event of a visitor comes from that visitor |
| Timeline.AllAttendanceEventsFaithful | src/App.tsx:170-178 | a day's rows yield one event per present field, each dated that day, timed and correctly late-flagged |
| Timeline.AllVisitorEventsFaithful | src/App.tsx:179-184 | a day's visitors yield one event per present field, never late |
| Timeline.DayEventsFaithful | src/App.tsx:168-184 | only rows dated `day` contribute; the count is the present fields of that day's rows |
| Timeline.TimelineFacts | src/App.tsx:168-188 | the timeline is sorted, a permutation, stable per key, one event per present field of the day, each late-flagged exactly when it is a late check-in |
| Timeline.FullRowEvents | src/App.tsx:174-177 | a fully filled row yields its four events in field order |
| Timeline.SingleRowDay | src/App.tsx:170-178 | a day with one row is that row's events |
| Timeline.PairDay | src/App.tsx:168-184 | attendance events come before visitor events before the sort |
| Timeline.FourInOrder | src/App.tsx:185-186 | four events with increasing minutes are left in place |
| Timeline.FullDayOrder | src/App.tsx:168-188 | 08:00, 12:00, 13:00, 17:00 come out as CHECK_IN, LUNCH_OUT, LUNCH_IN, CHECK_OUT |
| Timeline.SameMinuteTieBreak | src/App.tsx:185-186 | at the same minute a VISITOR_IN (rank 1) sorts before a CHECK_OUT (rank 4) although pushed after it |
| Series.HourLabel | src/App.tsx:90-91 | the label of hour h is five characters long, "HH:00" |
| Series.LabelCutoff | src/App.tsx:97 | a bucket's label reads back as its hour times 60 |
| Series.CheckInsOfDay | src/App.tsx:88 | keeps exactly the day's attendance rows with a check-in, each as often as it occurs |
| Series.VisitorCheckInsOfDay | src/App.tsx:89 | keeps exactly the day's visitor rows with a check-in, each as often as it occurs |
| Series.VisitorMinutes | src/App.tsx:94 | entry i is visitor i's arrival minute, 0 when absent |
| Series.AttendanceCursor | src/App.tsx:97-101 | where the attendance cursor stops, the rows it passed of a card are that card's check-ins up to the cutoff |
| Series.MinuteCursor | src/App.tsx:102 | where the visitor cursor stops, its position is the number of arrivals up to the cutoff |
| Series.TallyStep | src/App.tsx:98-99 | a passed check-in adds one to the total of its card (absent card counts as OWN_CARD) |
| Series.AdvanceCheckIns | src/App.tsx:97-100 | the attendance `while` stops at the first check-in after the cutoff, with the card totals of all passed rows |
| Series.AdvanceVisitors | src/App.tsx:102 | the visitor `while` stops at the first arrival after the cutoff, counting the passed arrivals |
| Series.CursorsGiveBucket | src/App.tsx:96-103 | after both cursors stop, the running totals are the bucket's counts over the unsorted check-ins |
| Series.FillBucket | src/App.tsx:96-103 | one `forEach` round writes exactly that bucket's counts and leaves the cursors ready for the next hour |
| Series.FillBuckets | src/App.tsx:96-104 | the `forEach` fills every bucket with its counts |
| Series.BuildEntryTypeSeries | src/App.tsx:87-106 | the series is the 13 buckets, each counting the day's OWN_CARD and TEMP_CARD check-ins and visitor arrivals at or before `(7+i):00` |
| Series.ExpectedSeries | src/App.tsx:87-106 | bucket i counts the day's check-ins per card and the arrivals at or before `(7+i):00` (contracts: the `Series` lemmas below) |
| Series.SeriesShape | src/App.tsx:90-91 | 13 buckets whose labels read back as 07:00 through 19:00 |
| Series.SeriesMonotone | src/App.tsx:93-103 | every count is non-decreasing from one hour to a later one |
| Series.CardsPartition | src/App.tsx:98-99 | the OWN_CARD and TEMP_CARD counts add up to all check-ins up to the hour |
| Series.SeriesBounded | src/App.tsx:88-103 | a bucket's OWN_CARD and TEMP_CARD counts each stay within the day's check-ins on that card, their sum within the day's check-ins, the visitor count within the day's arrivals |
| Series.LastBucketComplete | src/App.tsx:88-103 | the 19:00 card totals equal the day's check-ins iff nobody checked in after 19:00 |
| Series.VisitorsAllBy | src/App.tsx:94-102 | all arrivals are counted by a cutoff iff every visitor arrived by it |
| Series.LastBucketVisitors | src/App.tsx:89-102 | the 19:00 visitor total equals the day's visitors iff none arrived after 19:00 |
| Series.LateArrivalNotCharted | src/App.tsx:90-103 | a 19:30 own-card check-in is among the day's check-ins but every bucket stays empty |
| Pie.RowsOf | src/App.tsx:110 | keeps exactly one person's rows dated `day`, each as often as it occurs |
| Pie.StatusOf | src/App.tsx:110-111 | a person's status from their rows of the day |
| Pie.StatusFromFirstRow | src/App.tsx:110-111 | the status is read from the person's first row of the day, in input order |
| Pie.StatusWithoutRows | src/App.tsx:110-111 | someone with no row that day is Offsite |
| Pie.KeepPositive | src/App.tsx:120 | keeps exactly the slices with a positive value, each as often as it occurs |
| Pie.TallyStep | src/App.tsx:111-112 | classifying one more person adds one to exactly the counter of their status |
| Pie.BuildStatusPie | src/App.tsx:107-121 | the pie is the four status tallies over the staff, in fixed order, empty slices dropped |
| Pie.PieData | src/App.tsx:114-120 | the four tallies in fixed order, empty slices dropped (contracts: the `Pie` lemmas) |
| Pie.KeepPositiveTotal | src/App.tsx:120 | dropping empty slices keeps the total |
| Pie.TallyTotal | src/App.tsx:108-113 | the four tallies add up to the number of staff |
| Pie.OnLeaveNeverTallied | src/App.tsx:111-112 | the On Leave tally is always 0 |
| Pie.PieSumsToStaff | src/App.tsx:107-121 | the slice values add up to the number of staff |
| Pie.KeepPositiveRanked | src/App.tsx:114-120 | the filter keeps the survivors in their order |
| Pie.PieOrdered | src/App.tsx:114-120 | slices appear in the order At Work, At Lunch, Offsite, On Leave |
| Pie.PieMembers | src/App.tsx:114-120 | a slice is in the pie iff it is some status's slice with a non-zero tally |
| Pie.PieNeverOnLeave | src/App.tsx:107-121 | the pie never shows an On Leave slice |
| Summaries.Head | src/App.tsx:346 | `slice(0, n)` is a prefix of length n, or the whole of a shorter string |
| Summaries.FilterByTab | src/App.tsx:347 | keeps exactly the rows of the tab (same day, same month prefix or same year prefix), each as often as it occurs |
| Summaries.InTab | src/App.tsx:346-347 | the tab test: same day, month prefix or year prefix (contract: `Summaries.TabNesting`) |
| Summaries.TotalLate | src/App.tsx:349 | the summed late minutes (contracts: `Summaries.LateMinusEarly`, `Summaries.NoLatenessIff`) |
| Summaries.TotalEarly | src/App.tsx:350 | the summed early minutes (contract: `Summaries.LateMinusEarly`) |
| Summaries.LunchMinutes | src/App.tsx:351 | one row's lunch break (contract: `Summaries.LunchMinutesMeaning`) |
| Summaries.TotalLunch | src/App.tsx:351 | the summed lunch breaks (contract: `Summaries.LunchTotalPositiveIff`) |
| Summaries.TabNesting | src/App.tsx:346-347 | a row of the daily tab is in the monthly one, and a row of the monthly tab is in the yearly one |
| Summaries.LateMinusEarly | src/App.tsx:349-350 | the late total minus the early total is the summed signed distance of check-ins from 09:30 |
| Summaries.NoLatenessIff | src/App.tsx:349 | the late total is 0 iff no row is late |
| Summaries.LunchMinutesMeaning | src/App.tsx:351 | a row adds lunch minutes iff both lunch times are present and the return is later, and then adds the break's length |
| Summaries.LunchTotalPositiveIff | src/App.tsx:351 | the lunch total is positive iff some row took such a break |
| Summaries.TotalsConcat | src/App.tsx:349-351 | the three totals add up over any split of the rows |
| Summaries.PresentLeftPartition | src/App.tsx:425-426 | no row is both present and left: the two counts add up to the rows with a check-in or check-out, at most all rows |
| Summaries.Present | src/App.tsx:425 | rows checked in and not out (contract: `Summaries.PresentLeftPartition`) |
| Summaries.Left | src/App.tsx:426 | rows checked out (contract: `Summaries.PresentLeftPartition`) |
| Summaries.OffsiteAsWritten | src/App.tsx:427 | the count as written (contracts: `Summaries.OffsiteAsWrittenNegative`, `Summaries.OffsiteAgrees`) |
| Summaries.CheckedInIds | src/App.tsx:427 | exactly the staff ids of rows with a check-in |
| Summaries.OffsiteAsWrittenNegative | src/App.tsx:427 | the offsite count as written is -1 for an empty staff list and one checked-in row |
| Summaries.Offsite | src/App.tsx:427 | the corrected offsite count is between 0 and the number of staff |
| Summaries.CountInIds | src/App.tsx:427 | with distinct staff ids, the staff whose id is in a set are as many as the ids they share with it |
| Summaries.OffsiteAgrees | src/App.tsx:427 | the corrected count equals the written one when staff ids are distinct and every checked-in id is on the list |
| Summaries.OffsiteMeaning | src/App.tsx:427 | the corrected count is the whole staff iff nobody on the list checked in |

## Findings

| source | as written | input that shows it | evidently intended | confidence | as-written member | corrected member |
|---|---|---|---|---|---|---|
| src/App.tsx:427 | the Offsite card shows `staff.length` minus the number of distinct staff ids with a check-in in the tab's rows | no staff loaded and one checked-in row (or any row whose staff id is not on the list): the card shows -1, or too few | the number of staff members who did not check in, between 0 and the staff count | medium, not executed | Summaries.OffsiteAsWrittenNegative | Summaries.Offsite |

## Left out

- React components, JSX, routing, hooks and the recharts rendering. They are presentation only.
- The fetch hooks (src/App.tsx:58-84), including the array-or-`content` normalisation at line 60. They are network I/O with async state.
- `AuthProvider` (src/App.tsx:19-29). It is a hard-coded credential check plus `localStorage`.
- `today()` (src/App.tsx:36) reads the wall clock. It is a parameter `today` of the effective-date functions.
- The random TCKN generator (src/App.tsx:563). It is randomness.
- The locale operations at src/App.tsx:192, 301 and 306 (`toLocaleLowerCase("tr")`, `localeCompare`). They need Unicode tables.
- `ProfileDetail`'s choice of the effective day (src/App.tsx:339-343). It is a parameter `tdy` of the tab filter.
- A row without a date: the tab filters (src/App.tsx:347, 423) call `startsWith` on the date, which throws on `null`. The model treats the absent date as "", which just falls outside the tab.
- Malformed input is outside the domain: a time that is neither absent nor "HH:MM" optionally followed by ":SS". The source gives NaN for most such strings, but a minute count for some, because it splits at ":" and applies `Number` to each part (src/App.tsx:37): "9:30" and "09:30 " both give 570. The model does not cover those. Also outside the domain is an `entryType` other than OWN_CARD, TEMP_CARD or absent (`cum[t]` becomes NaN at line 100).
- Timeline: an event's `id` and `line` are computed as the source computes them, but no contract covers them.
- Clock.ToMin: the minute values are unbounded naturals from two-digit fields, not JavaScript floating-point numbers. That is exact for every well-formed time.
- Other repository files (`src/api.ts`, `src/staff.ts`, `src/Dashboard.tsx`, `src/pages/StaffList.tsx`, `src/components/Layout.tsx`, the build configuration) are not part of this model.
