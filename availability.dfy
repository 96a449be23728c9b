/**
 * The weekly availability editor: a table from day of week (0 = Sunday ..
 * 6 = Saturday) to whether the physician works that day and between which
 * hours, edited one field at a time or replaced by a template, and the
 * weekly summary computed from it.
 */
module Availability {
  import opened Wrappers
  import opened Clock
  import opened Lists

  /** One row of the table. Times are "HH:MM" strings. */
  datatype DayAvail = DayAvail(isAvailable: bool, startTime: string, endTime: string)

  /** The three edits the row controls make: the switch and the two time selects. */
  datatype FieldUpdate =
    | SetAvailable(available: bool)
    | SetStartTime(time: string)
    | SetEndTime(time: string)

  /** `{ ...day, [field]: value }`: the named field takes the new value. */
  function Apply(d: DayAvail, u: FieldUpdate): (r: DayAvail)
    ensures u.SetAvailable? ==> r.isAvailable == u.available
    ensures u.SetStartTime? ==> r.startTime == u.time
    ensures u.SetEndTime? ==> r.endTime == u.time
    ensures !u.SetAvailable? ==> r.isAvailable == d.isAvailable
    ensures !u.SetStartTime? ==> r.startTime == d.startTime
    ensures !u.SetEndTime? ==> r.endTime == d.endTime
  {
    match u
    case SetAvailable(b) => d.(isAvailable := b)
    case SetStartTime(t) => d.(startTime := t)
    case SetEndTime(t) => d.(endTime := t)
  }

  /** The day ids of a week. */
  function WeekDayIds(): set<int>
  {
    {0, 1, 2, 3, 4, 5, 6}
  }

  /** A table with exactly one row per day of the week. */
  predicate IsWeek(m: map<int, DayAvail>)
  {
    m.Keys == WeekDayIds()
  }

  /** The table the page starts with: Monday to Friday, 08:00 to 17:00. */
  function InitialAvailability(): map<int, DayAvail>
  {
    map[
      1 := DayAvail(true, "08:00", "17:00"),
      2 := DayAvail(true, "08:00", "17:00"),
      3 := DayAvail(true, "08:00", "17:00"),
      4 := DayAvail(true, "08:00", "17:00"),
      5 := DayAvail(true, "08:00", "17:00"),
      0 := DayAvail(false, "08:00", "17:00"),
      6 := DayAvail(false, "08:00", "17:00")
    ]
  }

  datatype Template = Template(id: string, name: string, description: string,
                               schedule: map<int, DayAvail>)

  function StandardTemplate(): Template
  {
    Template("standard", "Standard Weekdays", "Monday-Friday, 8 AM - 5 PM",
      map[
        1 := DayAvail(true, "08:00", "17:00"),
        2 := DayAvail(true, "08:00", "17:00"),
        3 := DayAvail(true, "08:00", "17:00"),
        4 := DayAvail(true, "08:00", "17:00"),
        5 := DayAvail(true, "08:00", "17:00"),
        0 := DayAvail(false, "08:00", "17:00"),
        6 := DayAvail(false, "08:00", "17:00")
      ])
  }

  function ExtendedTemplate(): Template
  {
    Template("extended", "Extended Hours", "Monday-Saturday, 7 AM - 7 PM",
      map[
        1 := DayAvail(true, "07:00", "19:00"),
        2 := DayAvail(true, "07:00", "19:00"),
        3 := DayAvail(true, "07:00", "19:00"),
        4 := DayAvail(true, "07:00", "19:00"),
        5 := DayAvail(true, "07:00", "19:00"),
        6 := DayAvail(true, "07:00", "19:00"),
        0 := DayAvail(false, "07:00", "19:00")
      ])
  }

  function EmergencyTemplate(): Template
  {
    Template("emergency", "Emergency Coverage", "All days, 24/7 availability",
      map[
        0 := DayAvail(true, "00:00", "23:59"),
        1 := DayAvail(true, "00:00", "23:59"),
        2 := DayAvail(true, "00:00", "23:59"),
        3 := DayAvail(true, "00:00", "23:59"),
        4 := DayAvail(true, "00:00", "23:59"),
        5 := DayAvail(true, "00:00", "23:59"),
        6 := DayAvail(true, "00:00", "23:59")
      ])
  }

  /** The quick templates offered on the page, in display order. */
  function Templates(): seq<Template>
  {
    [StandardTemplate(), ExtendedTemplate(), EmergencyTemplate()]
  }

  /** The starting table and every template define exactly the seven days. */
  lemma TablesCoverTheWeek()
    ensures IsWeek(InitialAvailability())
    ensures forall t :: t in Templates() ==> IsWeek(t.schedule)
  {
  }

  /** `Object.values(table)`: the rows in ascending day order. */
  function WeekValues(m: map<int, DayAvail>): (days: seq<DayAvail>)
    requires IsWeek(m)
    ensures |days| == 7
    ensures forall i :: 0 <= i < 7 ==> days[i] == m[i]
  {
    seq(7, i requires 0 <= i < 7 => assert i in WeekDayIds(); m[i])
  }

  /** The callback `day => day.isAvailable`. */
  function IsAvailable(d: DayAvail): bool
  {
    d.isAvailable
  }

  /** `filter(day => day.isAvailable).length`, counted row by row. */
  function AvailableDays(days: seq<DayAvail>): (n: nat)
    ensures n <= |days|
    ensures n == 0 <==> forall i :: 0 <= i < |days| ==> !days[i].isAvailable
    ensures n == |days| <==> forall i :: 0 <= i < |days| ==> days[i].isAvailable
  {
    if days == [] then 0
    else AvailableDays(days[..|days| - 1]) + (if days[|days| - 1].isAvailable then 1 else 0)
  }

  /** The row-by-row count is the length of the rows `filter` keeps. */
  lemma {:induction false} AvailableDaysIsFilterLength(days: seq<DayAvail>)
    ensures AvailableDays(days) == |Filter(days, IsAvailable)|
  {
    if days != [] {
      var init := days[..|days| - 1];
      var last := days[|days| - 1];
      assert days == init + [last];
      AvailableDaysIsFilterLength(init);
      FilterSnoc(init, last, IsAvailable);
      assert AvailableDays(days) == AvailableDays(init) + (if IsAvailable(last) then 1 else 0);
    }
  }

  /**
   * The hours one row stands for; `None` is NaN, when a time does not parse.
   * For hours on the clock it is between 1 and 24 and reaches the end hour.
   */
  function DayHours(d: DayAvail): (r: Option<int>)
    ensures r == ClockHours(d.startTime, d.endTime)
  {
    ClockHours(d.startTime, d.endTime)
  }

  /** Addition in which NaN absorbs everything. */
  function AddHours(a: Option<int>, b: Option<int>): (r: Option<int>)
    ensures r.Some? <==> a.Some? && b.Some?
    ensures r.Some? ==> r.value == a.value + b.value
  {
    if a.Some? && b.Some? then Some(a.value + b.value) else None
  }

  /**
   * The "Total Hours" reduction: a left fold that skips unavailable rows and
   * adds the hours of the available ones. It is NaN exactly when some
   * available row has a time that does not parse.
   */
  function TotalHours(days: seq<DayAvail>): (r: Option<int>)
    ensures r.Some? <==> forall i :: 0 <= i < |days| && days[i].isAvailable ==> DayHours(days[i]).Some?
  {
    if days == [] then Some(0)
    else
      assert forall i :: 0 <= i < |days| - 1 ==> days[..|days| - 1][i] == days[i];
      var total := TotalHours(days[..|days| - 1]);
      var day := days[|days| - 1];
      if !day.isAvailable then total else AddHours(total, DayHours(day))
  }

  /** `Math.round(t / c)` for a positive count `c`: the nearest integer, halves rounded up. */
  function RoundHalfUp(t: int, c: int): (r: int)
    requires c > 0
    ensures 2 * c * r - c <= 2 * t < 2 * c * r + c
  {
    var r := (2 * t + c) / (2 * c);
    assert 2 * t + c == 2 * c * r + (2 * t + c) % (2 * c);
    r
  }

  /**
   * The "Avg per Day" figure: `Math.round(total / count || 0)`. With no
   * available day, 0/0 is NaN and `|| 0` turns it into 0; a NaN total gives 0
   * the same way.
   */
  function AverageHours(days: seq<DayAvail>): (r: int)
    ensures AvailableDays(days) == 0 || TotalHours(days).None? ==> r == 0
    ensures AvailableDays(days) > 0 && TotalHours(days).Some? ==>
              var c := AvailableDays(days);
              var t := TotalHours(days).value;
              2 * c * r - c <= 2 * t < 2 * c * r + c
  {
    var c := AvailableDays(days);
    var total := TotalHours(days);
    if c == 0 || total.None? then 0 else RoundHalfUp(total.value, c)
  }

  /** The "Days Off" figure: `7 - count of available days`. */
  function DaysOff(days: seq<DayAvail>): (r: int)
    ensures |days| == 7 ==> 0 <= r <= 7
    ensures |days| == 7 ==> (r == 7 <==> forall i :: 0 <= i < 7 ==> !days[i].isAvailable)
    ensures |days| == 7 ==> (r == 0 <==> forall i :: 0 <= i < 7 ==> days[i].isAvailable)
  {
    7 - AvailableDays(days)
  }

  datatype WeeklySummary = WeeklySummary(availableDays: nat, totalHours: Option<int>,
                                         averageHours: int, daysOff: int)

  /** The four figures of the "Weekly Summary" card. */
  function Summarize(m: map<int, DayAvail>): (s: WeeklySummary)
    requires IsWeek(m)
    ensures s.totalHours == TotalHours(WeekValues(m))
    ensures s.averageHours == AverageHours(WeekValues(m))
    ensures s.availableDays == |Filter(WeekValues(m), IsAvailable)|
    ensures s.availableDays + s.daysOff == 7
    ensures s.totalHours.Some? <==>
              forall i :: 0 <= i < 7 && WeekValues(m)[i].isAvailable ==> DayHours(WeekValues(m)[i]).Some?
    ensures s.availableDays == 0 ==> s.averageHours == 0
  {
    var days := WeekValues(m);
    AvailableDaysIsFilterLength(days);
    WeeklySummary(AvailableDays(days), TotalHours(days), AverageHours(days), DaysOff(days))
  }

  /** Available days and days off always add up to the seven days of the week. */
  lemma AvailablePlusDaysOff(m: map<int, DayAvail>)
    requires IsWeek(m)
    ensures 0 <= Summarize(m).daysOff <= 7
    ensures Summarize(m).availableDays + Summarize(m).daysOff == 7
  {
  }

  /** The total over a concatenation is the sum of the totals of the parts. */
  lemma {:induction false} TotalHoursAppend(a: seq<DayAvail>, b: seq<DayAvail>)
    ensures TotalHours(a + b) == AddHours(TotalHours(a), TotalHours(b))
  {
    if b == [] {
      assert a + b == a;
    } else {
      var b' := b[..|b| - 1];
      assert (a + b)[..|a + b| - 1] == a + b';
      assert (a + b)[|a + b| - 1] == b[|b| - 1];
      TotalHoursAppend(a, b');
    }
  }

  /** An unavailable day contributes nothing, whatever its times say. */
  lemma UnavailableDayIgnored(a: seq<DayAvail>, d: DayAvail, b: seq<DayAvail>)
    requires !d.isAvailable
    ensures TotalHours(a + [d] + b) == TotalHours(a + b)
  {
    TotalHoursAppend(a + [d], b);
    TotalHoursAppend(a, b);
    assert (a + [d])[..|a + [d]| - 1] == a;
  }

  /** A row whose hours are both in 0..23, as the time selects and templates produce. */
  predicate WellFormedDay(d: DayAvail)
  {
    && ParseHour(d.startTime).Some? && ParseHour(d.startTime).value < 24
    && ParseHour(d.endTime).Some? && ParseHour(d.endTime).value < 24
  }

  /** With well-formed times, each available day adds between 1 and 24 hours. */
  lemma {:induction false} TotalHoursBounds(days: seq<DayAvail>)
    requires forall i :: 0 <= i < |days| && days[i].isAvailable ==> WellFormedDay(days[i])
    ensures TotalHours(days).Some?
    ensures AvailableDays(days) <= TotalHours(days).value <= 24 * AvailableDays(days)
  {
    if days != [] {
      var init := days[..|days| - 1];
      assert forall i :: 0 <= i < |init| ==> init[i] == days[i];
      TotalHoursBounds(init);
    }
  }

  /** With well-formed times and at least one available day, the average lies in 1..24. */
  lemma AverageBounds(days: seq<DayAvail>)
    requires forall i :: 0 <= i < |days| && days[i].isAvailable ==> WellFormedDay(days[i])
    requires AvailableDays(days) > 0
    ensures 1 <= AverageHours(days) <= 24
  {
    TotalHoursBounds(days);
    RoundedAverageBounds(TotalHours(days).value, AvailableDays(days), AverageHours(days));
  }

  /** A total between `c` and `24 * c`, rounded per day, lies between 1 and 24. */
  lemma RoundedAverageBounds(t: int, c: int, r: int)
    requires c > 0 && c <= t <= 24 * c
    requires 2 * c * r - c <= 2 * t < 2 * c * r + c
    ensures 1 <= r <= 24
  {
    if r <= 0 {
      MulMonotone(c, r, 0);
    } else if r >= 25 {
      MulMonotone(c, 25, r);
    }
  }

  lemma MulSucc(n: int, h: int)
    ensures (n - 1) * h + h == n * h
  {
  }

  lemma MulMonotone(c: int, a: int, b: int)
    requires c > 0 && a <= b
    ensures c * a <= c * b
  {
  }

  /** The fallback hour strings read as the hours 8 and 17. */
  lemma FallbackHoursParse()
    ensures ParseInt("8") == Some(8)
    ensures ParseInt("17") == Some(17)
  {
    assert LeadingDigits("8") == "8";
    assert LeadingDigits("17") == "17";
    assert DigitsValue("1") == 1 by {
      assert "1"[..0] == [];
    }
    assert "17"[..1] == "1";
    assert "8"[..0] == [];
  }

  /**
   * The per-row label: like `DayHours`, but a time whose hour part is empty
   * falls back to hour 8 for the start and 17 for the end (`|| '8'`, `|| '17'`).
   */
  function DisplayedDayHours(d: DayAvail): (r: Option<int>)
    ensures HourPart(d.startTime) != [] && HourPart(d.endTime) != [] ==> r == DayHours(d)
    ensures HourPart(d.startTime) == [] && ParseHour(d.endTime).Some? ==>
              r == Some(HoursBetween(8, ParseHour(d.endTime).value))
    ensures HourPart(d.endTime) == [] && ParseHour(d.startTime).Some? ==>
              r == Some(HoursBetween(ParseHour(d.startTime).value, 17))
    ensures HourPart(d.startTime) == [] && HourPart(d.endTime) == [] ==> r == Some(9)
  {
    FallbackHoursParse();
    var s := HourPart(d.startTime);
    var e := HourPart(d.endTime);
    match (ParseInt(if s == [] then "8" else s), ParseInt(if e == [] then "17" else e))
    case (Some(sh), Some(eh)) => Some(HoursBetween(sh, eh))
    case _ => None
  }

  /** `n` copies of the same row. */
  function Repeat(d: DayAvail, n: nat): (days: seq<DayAvail>)
    ensures |days| == n
    ensures forall i :: 0 <= i < n ==> days[i] == d
  {
    if n == 0 then [] else Repeat(d, n - 1) + [d]
  }

  /** `n` copies of an available row count `n` available days. */
  lemma {:induction false} RepeatedDayCount(d: DayAvail, n: nat)
    requires d.isAvailable
    ensures AvailableDays(Repeat(d, n)) == n
  {
    if n > 0 {
      var init := Repeat(d, n - 1);
      assert (init + [d])[..n - 1] == init;
      RepeatedDayCount(d, n - 1);
    }
  }

  /** `n` copies of an available row add up to `n` times its hours. */
  lemma {:induction false} RepeatedDayTotals(d: DayAvail, n: nat, h: int)
    requires d.isAvailable && DayHours(d) == Some(h)
    ensures TotalHours(Repeat(d, n)) == Some(n * h)
  {
    if n > 0 {
      var init := Repeat(d, n - 1);
      assert (init + [d])[..n - 1] == init;
      RepeatedDayTotals(d, n - 1, h);
      assert TotalHours(init + [d]) == AddHours(Some((n - 1) * h), Some(h));
      MulSucc(n, h);
    }
  }

  /** Only the hour is read: 00:00 to 23:59 is 23 hours. */
  lemma EmergencyDayHours()
    ensures DayHours(DayAvail(true, "00:00", "23:59")) == Some(23)
  {
    MinutesIgnored(0, "00");
    MinutesIgnored(23, "59");
    assert Pad2(0) + ":" + "00" == "00:00";
    assert Pad2(23) + ":" + "59" == "23:59";
  }

  /** Every row of the emergency template reads 00:00 to 23:59. */
  lemma EmergencyRows()
    ensures IsWeek(EmergencyTemplate().schedule)
    ensures WeekValues(EmergencyTemplate().schedule) == Repeat(DayAvail(true, "00:00", "23:59"), 7)
  {
    assert forall d :: 0 <= d < 7 ==>
      EmergencyTemplate().schedule[d] == DayAvail(true, "00:00", "23:59");
  }

  /** A week of one available row of `h` hours: seven days, `7 * h` hours, `h` a day on average. */
  lemma UniformWeekFigures(d: DayAvail, h: int)
    requires d.isAvailable && DayHours(d) == Some(h)
    ensures AvailableDays(Repeat(d, 7)) == 7
    ensures TotalHours(Repeat(d, 7)) == Some(7 * h)
    ensures AverageHours(Repeat(d, 7)) == h
  {
    RepeatedDayCount(d, 7);
    RepeatedDayTotals(d, 7, h);
    assert 2 * (7 * h) + 7 == 14 * h + 7;
  }

  /** The emergency template therefore claims 23 hours a day and 161 a week, not 24 and 168. */
  lemma EmergencyTemplateHours()
    ensures IsWeek(EmergencyTemplate().schedule)
    ensures forall d :: 0 <= d < 7 ==> DayHours(WeekValues(EmergencyTemplate().schedule)[d]) == Some(23)
    ensures Summarize(EmergencyTemplate().schedule) == WeeklySummary(7, Some(161), 23, 0)
  {
    EmergencyRows();
    EmergencyDayHours();
    UniformWeekFigures(DayAvail(true, "00:00", "23:59"), 23);
  }

  /** The editor's state: the table behind the page's `availability` state. */
  class AvailabilityEditor {
    var availability: map<int, DayAvail>

    ghost predicate Valid()
      reads this
    {
      IsWeek(availability)
    }

    constructor ()
      ensures Valid()
      ensures availability == InitialAvailability()
    {
      availability := InitialAvailability();
      TablesCoverTheWeek();
    }

    /** `updateAvailability(dayId, field, value)`: one field of one day changes. */
    method UpdateAvailability(dayId: int, u: FieldUpdate)
      requires Valid()
      requires 0 <= dayId < 7
      modifies this
      ensures Valid()
      ensures availability == old(availability)[dayId := Apply(old(availability)[dayId], u)]
    {
      availability := availability[dayId := Apply(availability[dayId], u)];
    }

    /** `applyTemplate(template)`: the table becomes the template's schedule. */
    method ApplyTemplate(t: Template)
      requires t in Templates()
      modifies this
      ensures Valid()
      ensures availability == t.schedule
    {
      TablesCoverTheWeek();
      availability := t.schedule;
    }

    /** The weekly summary of the current table. */
    function Summary(): (s: WeeklySummary)
      reads this
      requires Valid()
      ensures s == Summarize(availability)
      ensures s.availableDays + s.daysOff == 7
    {
      Summarize(availability)
    }
  }
}
