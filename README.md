# Physician scheduling admin UI — the logic inside its pages

The application is a React admin tool for scheduling physicians into shifts.
Its pages display arrays of sample data. The logic behind what they display
is small, and this project models it in Dafny and proves properties of it:

- **Weekly availability** (`availability.dfy`). The table maps day of week
  (0 = Sunday … 6 = Saturday) to an availability switch, a start time and an
  end time. One method changes one field of one day. Another replaces the
  whole table with one of three templates: standard, extended or emergency.
  The weekly summary counts available days, total hours, the rounded average
  per day and days off. Hours are read from the hour part of "HH:MM" only. A
  shift whose end hour is not later than its start hour wraps past midnight.
  The editor is a class whose `availability` map the methods reassign, as
  the page's state does.
- **Shift list** (`shifts.dfy`). A case-insensitive search over title,
  physician and specialty combines with a status filter. Each shift shows a
  duration that wraps past midnight, badge colours, and the hint shown when
  nothing is listed.
- **Physician directory** (`physicians.dfy`). A case-insensitive search over
  name, specialty and department. The avatar colour is picked by the first
  character code modulo 6. A "No physicians found" card appears when the
  search matches nothing.
- **Schedule calendar** (`schedule.dfy`). There are 24 hour-slot labels. A
  day-view or week-view cell shows the first shift of that day whose start
  hour is the slot's hour. A month cell lists the first three shifts of the
  day and shows "+N more" for the rest. Each shift kind has a colour.

Shared pieces: `lists.dfy` (the `filter` and `find` of JavaScript arrays,
with order and first-match lemmas), `text.dfy` (ASCII lower-casing and
`includes`), `clock.dfy` (hour parsing, the wrap-around hour rule, the slot
labels), `types.dfy` (shift kinds and statuses), `wrappers.dfy` (`Option`,
where `None` stands for JavaScript's `undefined` or `NaN`).

The code has no conflict detection, shift registry, or create/move/delete
logic. `ScheduleConflict` (src/types/index.ts:42-49) is only a type
declaration, and the dashboard's conflicts are literal data. The model follows
the code and has none of these.

Observation: the emergency template is described as "24/7 availability", but
its rows run from 00:00 to 23:59. Only the hour is read, so the page counts
23 hours a day and 161 a week (`Availability.EmergencyTemplateHours`).

## Model

| member | source | states |
|---|---|---|
| `Lists.Filter` | src/components/shifts/ShiftsPage.tsx:102-111 | `filter` keeps exactly the elements that satisfy the callback and never lengthens the list |
| `Lists.FilterIsSubsequence` | src/components/shifts/ShiftsPage.tsx:102 | the result of `filter` is a subsequence of its input, so the input order is kept |
| `Lists.FilterAppend` | src/components/physicians/PhysiciansPage.tsx:100 | filtering a concatenation concatenates the filtered parts |
| `Lists.FilterKeepsAll` | src/components/physicians/PhysiciansPage.tsx:100-104 | a callback true of every element keeps the whole list |
| `Lists.FilterSnoc` | src/components/availability/AvailabilityPage.tsx:261 | appending one element adds one to the filtered length exactly when the callback keeps it |
| `Lists.FilterFilter` | src/components/shifts/ShiftsPage.tsx:110 | filtering twice is filtering once by the conjunction |
| `Lists.Find` | src/components/schedule/SchedulePage.tsx:206-209 | `find` returns `undefined` iff no element satisfies the callback; otherwise it returns an element that does, and no earlier element does |
| `Lists.FindAfterFilter` | src/components/schedule/SchedulePage.tsx:271-279 | `find` on a filtered list is `find` by both callbacks at once |
| `Lists.FindAgreesOnProjection` | src/components/schedule/SchedulePage.tsx:276-279 | lists that agree element by element on a projection and on the callback make `find` return elements that agree on the projection |
| `Text.Lower` | src/components/shifts/ShiftsPage.tsx:104 | `toLowerCase` keeps the length and lower-cases each ASCII letter, leaving every other character alone |
| `Text.LowerChar` | src/components/shifts/ShiftsPage.tsx:104 | an upper-case ASCII letter is shifted by 32; the result is never upper case |
| `Text.Includes` | src/components/shifts/ShiftsPage.tsx:104-106 | the empty needle is always included; a needle longer than the text never is |
| `Text.IncludesIffOccurs` | src/components/physicians/PhysiciansPage.tsx:101-103 | `includes` holds iff the needle occurs at some position of the text |
| `Text.TermCaseIrrelevant` | src/components/physicians/PhysiciansPage.tsx:101-103 | search terms that differ only in letter case give the same answer |
| `Text.EmptyTermMatches` | src/components/shifts/ShiftsPage.tsx:103-106 | the empty search term matches every text |
| `Clock.HourPart` | src/components/availability/AvailabilityPage.tsx:269-270 | `split(':')[0]` is the longest prefix without a colon, followed by a colon or the end |
| `Clock.LeadingDigits` | src/components/availability/AvailabilityPage.tsx:269 | `parseInt` reads the longest prefix of decimal digits |
| `Clock.ParseHour` | src/components/availability/AvailabilityPage.tsx:269-270 | the hour of a time is NaN iff the time is empty or does not start with a digit |
| `Clock.ParseInt` | src/components/availability/AvailabilityPage.tsx:269 | `parseInt` is NaN iff the string does not start with a digit |
| `Clock.HoursBetween` | src/components/availability/AvailabilityPage.tsx:238-241 | for start and end hours in 0..23 the hours lie in 1..24, and going that many hours past the start reaches the end hour on the clock |
| `Clock.HoursBetweenUnique` | src/components/availability/AvailabilityPage.tsx:240 | no other duration in 1..24 reaches the end hour |
| `Clock.HoursBetweenCases` | src/components/availability/AvailabilityPage.tsx:240 | equal hours give 24; an earlier end wraps to `24 - start + end`; a later end gives `end - start` |
| `Clock.ClockHours` | src/components/shifts/ShiftsPage.tsx:236-238 | a duration exists iff both hours parse (NaN otherwise); for hours on the clock it lies in 1..24 and going that many hours past the start reaches the end hour, which with `Clock.HoursBetweenUnique` fixes it |
| `Clock.TimeSlots` | src/components/schedule/SchedulePage.tsx:38-41 | there are 24 slots, and slot i is i written with two digits followed by ":00" |
| `Clock.HourPartOfPrefix` | src/components/availability/AvailabilityPage.tsx:269 | `split(':')[0]` of a colon-free prefix, a colon and any rest is that prefix |
| `Clock.Pad2RoundTrip` | src/components/schedule/SchedulePage.tsx:40 | a number below 100 padded to two digits is read back by `parseInt` as itself |
| `Clock.MinutesIgnored` | src/components/availability/AvailabilityPage.tsx:269-270 | the hour read from "HH:" followed by anything is HH: the minutes are ignored |
| `Clock.ClockHoursOfHours` | src/components/shifts/ShiftsPage.tsx:236-238 | the duration between "HH:MM" times depends on the hours alone and is their wrap-around count |
| `Clock.SlotLabelRoundTrip` | src/components/schedule/SchedulePage.tsx:274 | the hour read back from slot i's label is i |
| `Clock.TimeSlotsDistinct` | src/components/availability/AvailabilityPage.tsx:55-58 | the 24 time options are pairwise distinct, and each is read back as its own hour |
| `Availability.Apply` | src/components/availability/AvailabilityPage.tsx:48-51 | the named field takes the new value; the other two fields of the day are unchanged |
| `Availability.TablesCoverTheWeek` | src/components/availability/AvailabilityPage.tsx:35-105 | the starting table and all three templates define exactly the day ids 0..6 |
| `Availability.WeekValues` | src/components/availability/AvailabilityPage.tsx:261 | `Object.values` of a week table is its seven rows in day order |
| `Availability.AvailableDays` | src/components/availability/AvailabilityPage.tsx:261 | the available-day count is at most the number of rows; it is 0 iff no row is available and equals the number of rows iff every row is |
| `Availability.AvailableDaysIsFilterLength` | src/components/availability/AvailabilityPage.tsx:261 | the count is the length of `filter(day => day.isAvailable)` |
| `Availability.DayHours` | src/components/availability/AvailabilityPage.tsx:269-271 | a row's hours are the duration of its start and end times, so `Clock.ClockHours` gives them: NaN iff an hour fails to parse, otherwise the wrap-around count |
| `Availability.AddHours` | src/components/availability/AvailabilityPage.tsx:272 | a sum is a number iff both terms are; NaN absorbs everything |
| `Availability.TotalHours` | src/components/availability/AvailabilityPage.tsx:267-273 | the total is NaN iff some available row has an hour that does not parse |
| `Availability.TotalHoursAppend` | src/components/availability/AvailabilityPage.tsx:267-273 | the total over a concatenation is the sum of the totals of the parts |
| `Availability.UnavailableDayIgnored` | src/components/availability/AvailabilityPage.tsx:268 | an unavailable day adds nothing to the total, whatever its times |
| `Availability.TotalHoursBounds` | src/components/availability/AvailabilityPage.tsx:267-273 | with hours in 0..23 the total is a number between the available-day count and 24 times it |
| `Availability.RoundHalfUp` | src/components/availability/AvailabilityPage.tsx:279 | `Math.round(t / c)` is the integer nearest to t / c, rounding halves up |
| `Availability.AverageHours` | src/components/availability/AvailabilityPage.tsx:279-285 | the average is 0 when no day is available or the total is NaN; otherwise it is the total divided by the count, rounded half up |
| `Availability.DaysOff` | src/components/availability/AvailabilityPage.tsx:291 | for a week, days off lie in 0..7; all 7 are off iff no row is available, and none iff every row is |
| `Availability.Summarize` | src/components/availability/AvailabilityPage.tsx:258-294 | the card shows the length of the filtered available rows; days off that add up with them to 7; the total of `Availability.TotalHours`, which is NaN iff some available row's hours do not parse; and the average of `Availability.AverageHours`, which is 0 when no day is available |
| `Availability.AverageBounds` | src/components/availability/AvailabilityPage.tsx:279-285 | with hours in 0..23 and at least one available day, the average lies in 1..24 |
| `Availability.AvailablePlusDaysOff` | src/components/availability/AvailabilityPage.tsx:291 | days off lie in 0..7, and available days plus days off equal 7 |
| `Availability.FallbackHoursParse` | src/components/availability/AvailabilityPage.tsx:238-239 | the fallback strings '8' and '17' parse as the hours 8 and 17 |
| `Availability.DisplayedDayHours` | src/components/availability/AvailabilityPage.tsx:237-242 | with both hour parts non-empty the per-row label equals the summary's per-day hours; an empty start hour part reads as 8 and an empty end hour part as 17, so both empty gives 9 hours |
| `Availability.RepeatedDayCount` | src/components/availability/AvailabilityPage.tsx:261 | n copies of one available row count n available days |
| `Availability.RepeatedDayTotals` | src/components/availability/AvailabilityPage.tsx:267-273 | n copies of one available row of h hours total n times h hours |
| `Availability.UniformWeekFigures` | src/components/availability/AvailabilityPage.tsx:261-285 | a week of one available row of h hours has 7 available days, 7h hours and an average of h |
| `Availability.EmergencyDayHours` | src/components/availability/AvailabilityPage.tsx:96 | 00:00 to 23:59 counts as 23 hours, because minutes are ignored |
| `Availability.EmergencyRows` | src/components/availability/AvailabilityPage.tsx:95-103 | every row of the emergency template is available from 00:00 to 23:59 |
| `Availability.EmergencyTemplateHours` | src/components/availability/AvailabilityPage.tsx:92-104 | the emergency template gives 23 hours a day: 7 available days, 161 hours, average 23, no day off |
| `Availability.AvailabilityEditor.constructor` | src/components/availability/AvailabilityPage.tsx:35-43 | the editor starts with the Monday-to-Friday 08:00–17:00 table, which covers the week |
| `Availability.AvailabilityEditor.UpdateAvailability` | src/components/availability/AvailabilityPage.tsx:45-53 | the new table is the old one with only the named day replaced by that day with the named field changed; the key set stays 0..6 |
| `Availability.AvailabilityEditor.ApplyTemplate` | src/components/availability/AvailabilityPage.tsx:107-109 | the table becomes exactly the template's schedule and still covers the week |
| `Availability.AvailabilityEditor.Summary` | src/components/availability/AvailabilityPage.tsx:258-294 | the summary card of the current table is `Availability.Summarize` of it, so available days plus days off equal 7 |
| `Shifts.FilterShifts` | src/components/shifts/ShiftsPage.tsx:102-111 | the listed shifts are a subsequence of the shifts; a shift is listed iff the term occurs in its title, physician or specialty (ignoring case) and the status filter is "all" or equals its status |
| `Shifts.FilterShiftsAppend` | src/components/shifts/ShiftsPage.tsx:102 | the filter works element by element and keeps list order |
| `Shifts.EmptySearchListsAll` | src/components/shifts/ShiftsPage.tsx:103-108 | an empty term with "all" lists every shift |
| `Shifts.StatusFilterNarrows` | src/components/shifts/ShiftsPage.tsx:108 | a status filter gives the "all" result restricted to that status, so every listed shift has exactly that status |
| `Shifts.Duration` | src/components/shifts/ShiftsPage.tsx:235-240 | a shift's duration is the duration of its start and end times, so `Clock.ClockHours` gives it: NaN iff an hour fails to parse, otherwise the wrap-around count |
| `Shifts.OvernightDurations` | src/components/shifts/ShiftsPage.tsx:35-86 | the night-shift and on-call samples show 8 and 14 hours |
| `Shifts.NightClockHours` | src/components/shifts/ShiftsPage.tsx:236-238 | 22:00–06:00 wraps past midnight and gives 8 hours |
| `Shifts.OnCallClockHours` | src/components/shifts/ShiftsPage.tsx:236-238 | 18:00–08:00 wraps past midnight and gives 14 hours |
| `Shifts.EmptyState` | src/components/shifts/ShiftsPage.tsx:276-288 | the card is shown iff nothing is listed; it says "adjust" iff a term or a status is set, and otherwise "create your first shift", which happens only with no shifts at all |
| `Shifts.StatusColor` | src/components/shifts/ShiftsPage.tsx:113-121 | the badge is the gray default exactly for "completed" and for strings that name no status |
| `Shifts.TypeColor` | src/components/shifts/ShiftsPage.tsx:123-131 | the badge is the gray default exactly for strings that name no shift kind |
| `Shifts.TypeColorsDistinct` | src/components/shifts/ShiftsPage.tsx:123-131 | the four kinds get four distinct badges, none of them the default |
| `Shifts.StatusColors` | src/components/shifts/ShiftsPage.tsx:113-121 | the four statuses get distinct badges; "completed" looks the same as an unknown status, and the other three do not |
| `Physicians.FilterPhysicians` | src/components/physicians/PhysiciansPage.tsx:100-104 | the listed physicians are a subsequence of the directory; a physician is listed iff the term occurs in their name, specialty or department, ignoring case |
| `Physicians.FilterPhysiciansAppend` | src/components/physicians/PhysiciansPage.tsx:100 | the search works element by element and keeps directory order |
| `Physicians.EmptySearchListsAll` | src/components/physicians/PhysiciansPage.tsx:100-104 | an empty search lists every physician, active or not |
| `Physicians.NoResultsIffNoMatch` | src/components/physicians/PhysiciansPage.tsx:228 | "No physicians found" is shown iff no physician matches |
| `Physicians.AvatarColorIndex` | src/components/physicians/PhysiciansPage.tsx:115 | for a non-empty name the index is a valid palette index congruent to the first character code modulo 6; for an empty name it is NaN |
| `Physicians.AvatarColor` | src/components/physicians/PhysiciansPage.tsx:106-117 | a non-empty name gets palette entry number (first character code mod 6); an empty name gets `undefined` |
| `Schedule.DayShifts` | src/components/schedule/SchedulePage.tsx:202-204 | the day's shifts are a subsequence of the shifts, holding every shift on that date and nothing else |
| `Schedule.CellShift` | src/components/schedule/SchedulePage.tsx:206-209 | a shown shift is on the cell's date and starts at the slot's hour; the cell is empty iff no shift does |
| `Schedule.CellShowsFirstInOrder` | src/components/schedule/SchedulePage.tsx:276-279 | when several shifts qualify, the one shown is the first in list order |
| `Schedule.CellIgnoresEndTimes` | src/components/schedule/SchedulePage.tsx:206-209 | changing end times changes no cell's occupancy and no shown shift other than its end time |
| `Schedule.DayView` | src/components/schedule/SchedulePage.tsx:200-234 | the day view has 24 cells, and the cell of hour h is the cell lookup for slot h, which shows the first qualifying shift in list order (`Schedule.CellShift`, `Schedule.CellShowsFirstInOrder`) |
| `Schedule.ShownOnlyAtStartHour` | src/components/schedule/SchedulePage.tsx:200-209 | a shift shown in row h of a day is on that day and starts at hour h |
| `Schedule.StartHourRowOccupied` | src/components/schedule/SchedulePage.tsx:200-209 | a shift on the day whose start hour is h makes row h of the day view occupied |
| `Schedule.WeekView` | src/components/schedule/SchedulePage.tsx:262-303 | the week grid has 24 rows, each with one cell per day shown |
| `Schedule.WeekColumnsAreDayViews` | src/components/schedule/SchedulePage.tsx:270-279 | each week-view column shows what the day view shows for that day |
| `Schedule.MonthCellFor` | src/components/schedule/SchedulePage.tsx:350-367 | a month cell lists the first min(3, count) shifts of the day, in order; "+N more" appears iff there are more than 3, with N the count minus 3 |
| `Schedule.ShiftColor` | src/components/schedule/SchedulePage.tsx:118-126 | the colour is the gray default exactly for strings that name no shift kind |
| `Schedule.ShiftColorsDistinct` | src/components/schedule/SchedulePage.tsx:118-126 | the four kinds get four distinct colours, and any other string gets the gray default |
| `Schedule.DayShiftStartHour` | src/components/schedule/SchedulePage.tsx:44-53 | the 08:00 shift of 15 January 2024 starts at hour 8 |
| `Schedule.NightShiftStartHour` | src/components/schedule/SchedulePage.tsx:54-63 | the 22:00 shift of 15 January 2024 starts at hour 22 |
| `Schedule.OvernightPlacement` | src/components/schedule/SchedulePage.tsx:44-63 | of the two shifts on 15 January 2024, only the second starts at 22:00 |
| `Schedule.OvernightCell` | src/components/schedule/SchedulePage.tsx:54-63 | the 22:00 cell of 15 January 2024 shows the 22:00–06:00 shift |
| `Schedule.OvernightShiftInOneRow` | src/components/schedule/SchedulePage.tsx:200-209 | the 22:00–06:00 shift shows in the 22:00 row of its day and in no other row |

## Left out

- Conflict detection, double-booking and location-overlap rules, and a shift registry with create/move/delete. The code has none: `ScheduleConflict` (src/types/index.ts:42-49) is only a type, and the dashboard's conflicts are literal data.
- The status life cycle (scheduled → confirmed → completed, cancelled). The code shows statuses but never changes one.
- Availability.AvailabilityEditor.UpdateAvailability: requires a day id in 0..6, as every caller on the page passes one. For a missing key the page would create a row holding only the one field; that partial row is not modelled.
- Clock.ParseInt: reads only leading ASCII digits. `parseInt`'s skipping of leading white space, its sign and its `0x` prefix are not modelled. No time the pages produce uses them.
- Text.Lower: folds ASCII letters only. `toLowerCase` on other Unicode letters is not modelled.
- Availability.AverageHours: integer round-half-up, not IEEE floating-point division. The two agree for totals and counts a week can produce.
- Physicians.AvatarColorIndex: uses the first Unicode scalar value, not the first UTF-16 code unit. They differ only for characters outside the Basic Multilingual Plane.
- Dates: week start, week days, month grid, navigation, `isToday`, `isSameMonth` and all formatting call date-fns, which is not part of this model. A date is an opaque `CalendarDate`, compared by equality. The week view takes its days as a parameter. In the calendar sample, months are written 1-based, while the source's `new Date` uses 0-based months.
- Rendering: JSX, CSS classes other than the colour maps, physician initials (`split(' ').map(n => n[0])`), the last name in month cells, `availability[day.id]?.isAvailable || false`.
- React state plumbing: the search term, the status filter and the selected view are parameters here. The status filter is a datatype (`AllStatuses` or one status), since the page sets it only from its fixed option list.
- On the availability page, physician selection and the "Save Changes" button change no availability data. The sample physician directory is not reproduced.
- src/App.tsx (authentication, routing), src/components/layout/Sidebar.tsx and src/components/dashboard/DashboardPage.tsx only render static data or call foreign services.
