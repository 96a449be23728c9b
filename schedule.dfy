/**
 * The schedule calendar: which shift a day-view or week-view cell shows for
 * an hour slot, what a month-view cell lists, and the colour of a shift.
 * Dates are compared as calendar days (`format(d, 'yyyy-MM-dd')` equality).
 */
module Schedule {
  import opened Wrappers
  import opened Lists
  import opened Clock
  import opened Types

  /** A calendar day; two dates are the same day exactly when they are equal. */
  datatype CalendarDate = CalendarDate(year: int, month: int, day: int)

  datatype CalendarShift = CalendarShift(
    id: string,
    physician: string,
    specialty: string,
    startTime: string,
    endTime: string,
    date: CalendarDate,
    shiftType: ShiftType,
    status: ShiftStatus)

  /** The callback of `sampleShifts.filter`: the shift falls on `date`. */
  function OnDate(date: CalendarDate): CalendarShift -> bool
  {
    (s: CalendarShift) => s.date == date
  }

  /** `dayShifts`: the shifts on `date`, in list order. */
  function DayShifts(shifts: seq<CalendarShift>, date: CalendarDate): (r: seq<CalendarShift>)
    ensures IsSubsequence(r, shifts)
    ensures forall i :: 0 <= i < |r| ==> r[i] in shifts && r[i].date == date
    ensures forall i :: 0 <= i < |shifts| && shifts[i].date == date ==> shifts[i] in r
  {
    FilterIsSubsequence(shifts, OnDate(date));
    Filter(shifts, OnDate(date))
  }

  /**
   * The callback of `dayShifts.find`: the shift's start hour equals the slot
   * hour. NaN equals nothing, so an unparsable hour on either side never matches.
   */
  function StartsAt(slotHour: Option<nat>): CalendarShift -> bool
  {
    (s: CalendarShift) => slotHour.Some? && ParseHour(s.startTime) == slotHour
  }

  /** A shift is placed in the cell of `date` and `slot`: same day, start hour equal to the slot's hour. */
  predicate PlacedIn(s: CalendarShift, date: CalendarDate, slot: string)
  {
    s.date == date && ParseHour(slot).Some? && ParseHour(s.startTime) == ParseHour(slot)
  }

  function Placed(date: CalendarDate, slot: string): CalendarShift -> bool
  {
    s => PlacedIn(s, date, slot)
  }

  /** `currentShift` of a cell: the first shift of the day whose start hour is the slot's hour. */
  function CellShift(shifts: seq<CalendarShift>, date: CalendarDate, slot: string): (r: Option<CalendarShift>)
    ensures r.Some? ==> r.value in shifts && PlacedIn(r.value, date, slot)
    ensures r.None? <==> forall i :: 0 <= i < |shifts| ==> !PlacedIn(shifts[i], date, slot)
  {
    FindAfterFilter(shifts, OnDate(date), StartsAt(ParseHour(slot)), Placed(date, slot));
    Find(DayShifts(shifts, date), StartsAt(ParseHour(slot)))
  }

  /** When several shifts qualify for a cell, the one shown is the first of them in list order. */
  lemma CellShowsFirstInOrder(shifts: seq<CalendarShift>, date: CalendarDate, slot: string)
    requires CellShift(shifts, date, slot).Some?
    ensures exists i :: 0 <= i < |shifts| && shifts[i] == CellShift(shifts, date, slot).value &&
                        forall j :: 0 <= j < i ==> !PlacedIn(shifts[j], date, slot)
  {
    FindAfterFilter(shifts, OnDate(date), StartsAt(ParseHour(slot)), Placed(date, slot));
  }

  /** The shift with its end time blanked out: what placement may depend on. */
  function WithoutEnd(s: CalendarShift): CalendarShift
  {
    s.(endTime := "")
  }

  /** End times play no part in placement: changing them changes no cell, up to the end time shown. */
  lemma CellIgnoresEndTimes(shifts: seq<CalendarShift>, shifts': seq<CalendarShift>,
                            date: CalendarDate, slot: string)
    requires |shifts| == |shifts'|
    requires forall i :: 0 <= i < |shifts| ==> WithoutEnd(shifts[i]) == WithoutEnd(shifts'[i])
    ensures CellShift(shifts, date, slot).Some? == CellShift(shifts', date, slot).Some?
    ensures CellShift(shifts, date, slot).Some? ==>
              WithoutEnd(CellShift(shifts, date, slot).value) == WithoutEnd(CellShift(shifts', date, slot).value)
  {
    var p := Placed(date, slot);
    FindAfterFilter(shifts, OnDate(date), StartsAt(ParseHour(slot)), p);
    FindAfterFilter(shifts', OnDate(date), StartsAt(ParseHour(slot)), p);
    forall i | 0 <= i < |shifts| ensures p(shifts[i]) == p(shifts'[i]) {
      assert shifts[i].date == WithoutEnd(shifts[i]).date;
      assert shifts[i].startTime == WithoutEnd(shifts[i]).startTime;
      assert shifts'[i].date == WithoutEnd(shifts'[i]).date;
      assert shifts'[i].startTime == WithoutEnd(shifts'[i]).startTime;
    }
    FindAgreesOnProjection(shifts, shifts', p, WithoutEnd);
  }

  /** The day view: for each of the 24 hour slots, the shift its cell shows on `date`. */
  function DayView(shifts: seq<CalendarShift>, date: CalendarDate): (v: seq<Option<CalendarShift>>)
    ensures |v| == 24
    ensures forall h :: 0 <= h < 24 ==> v[h] == CellShift(shifts, date, SlotLabel(h))
  {
    seq(24, h requires 0 <= h < 24 => CellShift(shifts, date, TimeSlots()[h]))
  }

  /** A shift appears in a day column only in the row of its start hour, whatever its end time. */
  lemma ShownOnlyAtStartHour(shifts: seq<CalendarShift>, date: CalendarDate, h: nat)
    requires h < 24 && DayView(shifts, date)[h].Some?
    ensures DayView(shifts, date)[h].value.date == date
    ensures ParseHour(DayView(shifts, date)[h].value.startTime) == Some(h)
  {
    SlotLabelRoundTrip(h);
  }

  /** Conversely, a shift on `date` starting at hour h makes row h of that day occupied. */
  lemma StartHourRowOccupied(shifts: seq<CalendarShift>, date: CalendarDate, i: nat, h: nat)
    requires i < |shifts| && h < 24
    requires shifts[i].date == date && ParseHour(shifts[i].startTime) == Some(h)
    ensures DayView(shifts, date)[h].Some?
  {
    SlotLabelRoundTrip(h);
    assert PlacedIn(shifts[i], date, TimeSlots()[h]);
  }

  /** The week view: one row per hour slot, one column per day of the week shown. */
  function WeekView(shifts: seq<CalendarShift>, weekDays: seq<CalendarDate>): (v: seq<seq<Option<CalendarShift>>>)
    ensures |v| == 24
    ensures forall h :: 0 <= h < 24 ==> |v[h]| == |weekDays|
  {
    seq(24, h requires 0 <= h < 24 =>
      seq(|weekDays|, d requires 0 <= d < |weekDays| => CellShift(shifts, weekDays[d], TimeSlots()[h])))
  }

  /** Each week-view column shows what the day view shows for that day. */
  lemma WeekColumnsAreDayViews(shifts: seq<CalendarShift>, weekDays: seq<CalendarDate>, h: nat, d: nat)
    requires h < 24 && d < |weekDays|
    ensures WeekView(shifts, weekDays)[h][d] == DayView(shifts, weekDays[d])[h]
  {
  }

  /** What a month-view cell lists: at most three shifts, and "+N more" when there are others. */
  datatype MonthCell = MonthCell(shown: seq<CalendarShift>, more: Option<nat>)

  /** `dayShifts.slice(0, 3)` and `+{dayShifts.length - 3} more` when `dayShifts.length > 3`. */
  function MonthCellFor(shifts: seq<CalendarShift>, date: CalendarDate): (c: MonthCell)
    ensures |c.shown| <= 3
    ensures |c.shown| <= |DayShifts(shifts, date)| && c.shown == DayShifts(shifts, date)[..|c.shown|]
    ensures c.more.Some? <==> |DayShifts(shifts, date)| > 3
    ensures |c.shown| + c.more.GetOr(0) == |DayShifts(shifts, date)|
    ensures |c.shown| == if |DayShifts(shifts, date)| > 3 then 3 else |DayShifts(shifts, date)|
    ensures c.more.Some? ==> c.more.value == |DayShifts(shifts, date)| - 3
  {
    var day := DayShifts(shifts, date);
    if |day| > 3 then MonthCell(day[..3], Some(|day| - 3)) else MonthCell(day, None)
  }

  /** The gray classes every string that is not a shift kind gets. */
  const DefaultShiftColor := "bg-gray-100 border-gray-300 text-gray-800"

  /** `getShiftColor`: the classes for a shift-kind string; gray exactly for a string that names no kind. */
  function ShiftColor(shiftType: string): (r: string)
    ensures r == DefaultShiftColor <==> forall t :: shiftType != TypeName(t)
  {
    if shiftType == "regular" then assert shiftType == TypeName(Regular); "bg-blue-100 border-blue-300 text-blue-800"
    else if shiftType == "emergency" then assert shiftType == TypeName(Emergency); "bg-red-100 border-red-300 text-red-800"
    else if shiftType == "surgery" then assert shiftType == TypeName(Surgery); "bg-purple-100 border-purple-300 text-purple-800"
    else if shiftType == "on-call" then assert shiftType == TypeName(OnCall); "bg-orange-100 border-orange-300 text-orange-800"
    else DefaultShiftColor
  }

  /** The four kinds get four distinct colours, and any other string gets the gray default. */
  lemma ShiftColorsDistinct(a: ShiftType, b: ShiftType, other: string)
    requires forall t :: other != TypeName(t)
    ensures ShiftColor(TypeName(a)) == ShiftColor(TypeName(b)) <==> a == b
    ensures ShiftColor(other) == DefaultShiftColor
    ensures ShiftColor(TypeName(a)) != ShiftColor(other)
  {
    assert other != TypeName(Regular) && other != TypeName(Emergency);
    assert other != TypeName(Surgery) && other != TypeName(OnCall);
  }

  /** The calendar's shifts. */
  function SampleShifts(): seq<CalendarShift>
  {
    [
      CalendarShift("1", "Dr. Sarah Johnson", "Cardiology", "08:00", "16:00",
                    CalendarDate(2024, 1, 15), Regular, Confirmed),
      CalendarShift("2", "Dr. Michael Chen", "Emergency", "22:00", "06:00",
                    CalendarDate(2024, 1, 15), Emergency, Scheduled),
      CalendarShift("3", "Dr. Emily Rodriguez", "Surgery", "14:00", "20:00",
                    CalendarDate(2024, 1, 16), Surgery, Confirmed),
      CalendarShift("4", "Dr. James Wilson", "Pediatrics", "09:00", "17:00",
                    CalendarDate(2024, 1, 17), Regular, Confirmed),
      CalendarShift("5", "Dr. Lisa Park", "Neurology", "12:00", "20:00",
                    CalendarDate(2024, 1, 18), OnCall, Scheduled)
    ]
  }

  /** The day shift of 15 January 2024 starts at hour 8. */
  lemma DayShiftStartHour()
    ensures ParseHour(SampleShifts()[0].startTime) == Some(8)
  {
    var start := SlotLabel(8);
    SlotLabelRoundTrip(8);
    assert start == SampleShifts()[0].startTime;
  }

  /** The overnight shift of 15 January 2024 starts at hour 22. */
  lemma NightShiftStartHour()
    ensures ParseHour(SampleShifts()[1].startTime) == Some(22)
  {
    var start := SlotLabel(22);
    SlotLabelRoundTrip(22);
    assert start == SampleShifts()[1].startTime;
  }

  /** Of the two shifts on 15 January 2024, only the second starts at 22:00. */
  lemma OvernightPlacement()
    ensures !PlacedIn(SampleShifts()[0], CalendarDate(2024, 1, 15), SlotLabel(22))
    ensures PlacedIn(SampleShifts()[1], CalendarDate(2024, 1, 15), SlotLabel(22))
  {
    DayShiftStartHour();
    NightShiftStartHour();
    SlotLabelRoundTrip(22);
  }

  /** Searching the whole list for a shift placed at 22:00 on 15 January 2024 finds the overnight shift. */
  lemma OvernightFind()
    ensures Find(SampleShifts(), Placed(CalendarDate(2024, 1, 15), SlotLabel(22))) == Some(SampleShifts()[1])
  {
    var shifts := SampleShifts();
    var p := Placed(CalendarDate(2024, 1, 15), SlotLabel(22));
    OvernightPlacement();
    assert !p(shifts[0]) && p(shifts[1]);
    assert Find(shifts, p) == Find(shifts[1..], p);
    assert shifts[1..][0] == shifts[1];
  }

  /** The 22:00 cell of 15 January 2024 shows the overnight shift. */
  lemma OvernightCell()
    ensures CellShift(SampleShifts(), CalendarDate(2024, 1, 15), SlotLabel(22)) == Some(SampleShifts()[1])
  {
    OvernightFind();
    FindAfterFilter(SampleShifts(), OnDate(CalendarDate(2024, 1, 15)), StartsAt(ParseHour(SlotLabel(22))),
                    Placed(CalendarDate(2024, 1, 15), SlotLabel(22)));
  }

  /** On 15 January 2024 the overnight 22:00 to 06:00 shift shows in the 22:00 row and in no other. */
  lemma OvernightShiftInOneRow(h: nat)
    requires h < 24
    ensures DayView(SampleShifts(), CalendarDate(2024, 1, 15))[h] == Some(SampleShifts()[1]) <==> h == 22
  {
    var jan15 := CalendarDate(2024, 1, 15);
    var night := SampleShifts()[1];
    var view := DayView(SampleShifts(), jan15);
    assert view[h] == CellShift(SampleShifts(), jan15, SlotLabel(h));
    OvernightPlacement();
    SlotLabelRoundTrip(22);
    assert ParseHour(night.startTime) == Some(22);
    if h == 22 {
      OvernightCell();
    } else if view[h] == Some(night) {
      ShownOnlyAtStartHour(SampleShifts(), jan15, h);
    }
  }
}
