/**
 * The shift list page: a search box and a status filter over the shift
 * records, the duration shown for each shift, its badges' colours, and the
 * hint shown when nothing is listed.
 */
module Shifts {
  import opened Wrappers
  import opened Lists
  import opened Text
  import opened Clock
  import opened Types

  datatype Shift = Shift(
    id: string,
    title: string,
    physician: string,
    specialty: string,
    date: string,
    startTime: string,
    endTime: string,
    shiftType: ShiftType,
    status: ShiftStatus,
    location: string,
    notes: string)

  /** The status buttons: "All Shifts" or one status. */
  datatype StatusFilter = AllStatuses | OnlyStatus(status: ShiftStatus)

  /** The search term occurs, ignoring case, in the title, the physician or the specialty. */
  predicate MatchesSearch(s: Shift, term: string)
  {
    || ContainsIgnoringCase(s.title, term)
    || ContainsIgnoringCase(s.physician, term)
    || ContainsIgnoringCase(s.specialty, term)
  }

  predicate MatchesStatus(s: Shift, filter: StatusFilter)
  {
    filter.AllStatuses? || s.status == filter.status
  }

  predicate Matches(s: Shift, term: string, filter: StatusFilter)
  {
    MatchesSearch(s, term) && MatchesStatus(s, filter)
  }

  /** The callback given to `shifts.filter`. */
  function Keep(term: string, filter: StatusFilter): Shift -> bool
  {
    s => Matches(s, term, filter)
  }

  /** `filteredShifts`: the shifts that match both the search and the status filter, in list order. */
  function FilterShifts(shifts: seq<Shift>, term: string, filter: StatusFilter): (r: seq<Shift>)
    ensures IsSubsequence(r, shifts)
    ensures forall i :: 0 <= i < |r| ==> r[i] in shifts && Matches(r[i], term, filter)
    ensures forall i :: 0 <= i < |shifts| && Matches(shifts[i], term, filter) ==> shifts[i] in r
  {
    FilterIsSubsequence(shifts, Keep(term, filter));
    Filter(shifts, Keep(term, filter))
  }

  /** The list is filtered element by element: filtering a concatenation concatenates the results. */
  lemma FilterShiftsAppend(a: seq<Shift>, b: seq<Shift>, term: string, filter: StatusFilter)
    ensures FilterShifts(a + b, term, filter) == FilterShifts(a, term, filter) + FilterShifts(b, term, filter)
  {
    FilterAppend(a, b, Keep(term, filter));
  }

  /** With no search term and "All Shifts", every shift is listed. */
  lemma EmptySearchListsAll(shifts: seq<Shift>)
    ensures FilterShifts(shifts, "", AllStatuses) == shifts
  {
    forall i | 0 <= i < |shifts| ensures Matches(shifts[i], "", AllStatuses) {
      EmptyTermMatches(shifts[i].title);
    }
    FilterKeepsAll(shifts, Keep("", AllStatuses));
  }

  /** Choosing a status narrows the "All Shifts" result to the shifts with exactly that status. */
  lemma StatusFilterNarrows(shifts: seq<Shift>, term: string, st: ShiftStatus)
    ensures FilterShifts(shifts, term, OnlyStatus(st)) ==
            Filter(FilterShifts(shifts, term, AllStatuses), (s: Shift) => s.status == st)
    ensures forall i :: 0 <= i < |FilterShifts(shifts, term, OnlyStatus(st))| ==>
              FilterShifts(shifts, term, OnlyStatus(st))[i].status == st
  {
    var p := Keep(term, AllStatuses);
    var q := (s: Shift) => s.status == st;
    FilterFilter(shifts, p, q, Keep(term, OnlyStatus(st)));
  }

  /** The duration under the times: whole hours, wrapping past midnight; `None` is NaN. */
  function Duration(s: Shift): (r: Option<int>)
    ensures r == ClockHours(s.startTime, s.endTime)
  {
    ClockHours(s.startTime, s.endTime)
  }

  /** The shifts the page lists. */
  function SampleShifts(): seq<Shift>
  {
    [
      Shift("1", "Morning Cardiology Rounds", "Dr. Sarah Johnson", "Cardiology", "2024-01-18",
            "08:00", "16:00", Regular, Confirmed, "Cardiology Ward",
            "Regular morning rounds and consultations"),
      Shift("2", "Emergency Night Shift", "Dr. Michael Chen", "Emergency Medicine", "2024-01-18",
            "22:00", "06:00", Emergency, Scheduled, "Emergency Department",
            "Night coverage for emergency cases"),
      Shift("3", "Surgical Block", "Dr. Emily Rodriguez", "General Surgery", "2024-01-19",
            "14:00", "20:00", Surgery, Confirmed, "OR Complex",
            "Scheduled surgeries and procedures"),
      Shift("4", "Orthopedic Clinic", "Dr. James Wilson", "Orthopedics", "2024-01-19",
            "09:00", "17:00", Regular, Cancelled, "Orthopedic Clinic",
            "Cancelled due to physician unavailability"),
      Shift("5", "Pediatric On-Call", "Dr. Lisa Park", "Pediatrics", "2024-01-20",
            "18:00", "08:00", OnCall, Scheduled, "Pediatric Ward",
            "On-call coverage for pediatric emergencies"),
      Shift("6", "Radiology Reading", "Dr. Robert Kim", "Radiology", "2024-01-20",
            "10:00", "18:00", Regular, Completed, "Imaging Center",
            "Image interpretation and reporting")
    ]
  }

  /** The overnight samples wrap past midnight: 22:00 to 06:00 is 8 hours, 18:00 to 08:00 is 14. */
  lemma OvernightDurations()
    ensures Duration(SampleShifts()[1]) == Some(8)
    ensures Duration(SampleShifts()[4]) == Some(14)
  {
    NightClockHours();
    OnCallClockHours();
  }

  /** 22:00 to 06:00 wraps past midnight: 8 hours. */
  lemma NightClockHours()
    ensures ClockHours("22:00", "06:00") == Some(8)
  {
    var start, end := Pad2(22) + ":" + "00", Pad2(6) + ":" + "00";
    ClockHoursOfHours(22, "00", 6, "00");
    assert start == "22:00" && end == "06:00";
  }

  /** 18:00 to 08:00 wraps past midnight: 14 hours. */
  lemma OnCallClockHours()
    ensures ClockHours("18:00", "08:00") == Some(14)
  {
    var start, end := Pad2(18) + ":" + "00", Pad2(8) + ":" + "00";
    ClockHoursOfHours(18, "00", 8, "00");
    assert start == "18:00" && end == "08:00";
  }

  /** The text of the card shown when no shift is listed. */
  datatype EmptyHint = AdjustCriteria | CreateFirstShift

  /**
   * The "No shifts found" card: shown only when the filtered list is empty;
   * it suggests adjusting the criteria when a search term or a status is set.
   */
  function EmptyState(shifts: seq<Shift>, term: string, filter: StatusFilter): (r: Option<EmptyHint>)
    ensures r.Some? <==> FilterShifts(shifts, term, filter) == []
    ensures r == Some(AdjustCriteria) <==>
              FilterShifts(shifts, term, filter) == [] && (term != "" || filter != AllStatuses)
    ensures r == Some(CreateFirstShift) ==> shifts == []
  {
    if |FilterShifts(shifts, term, filter)| != 0 then None
    else if term != "" || filter != AllStatuses then Some(AdjustCriteria)
    else
      EmptySearchListsAll(shifts);
      Some(CreateFirstShift)
  }

  /** The gray badge of the default branch. */
  const DefaultStatusBadge := "bg-gray-100 text-gray-800"

  /**
   * `getStatusColor`: the badge classes for a status string; gray exactly for
   * "completed" and for strings that name no status.
   */
  function StatusColor(status: string): (r: string)
    ensures r == DefaultStatusBadge <==> forall s :: s != Completed ==> status != StatusName(s)
  {
    if status == "confirmed" then assert status == StatusName(Confirmed); "bg-green-100 text-green-800"
    else if status == "scheduled" then assert status == StatusName(Scheduled); "bg-blue-100 text-blue-800"
    else if status == "completed" then "bg-gray-100 text-gray-800"
    else if status == "cancelled" then assert status == StatusName(Cancelled); "bg-red-100 text-red-800"
    else DefaultStatusBadge
  }

  /** The gray badge of the default branch. */
  const DefaultTypeBadge := "bg-gray-50 text-gray-700 border-gray-200"

  /** `getTypeColor`: the badge classes for a shift-kind string; gray exactly for a string that names no kind. */
  function TypeColor(shiftType: string): (r: string)
    ensures r == DefaultTypeBadge <==> forall t :: shiftType != TypeName(t)
  {
    if shiftType == "regular" then assert shiftType == TypeName(Regular); "bg-blue-50 text-blue-700 border-blue-200"
    else if shiftType == "emergency" then assert shiftType == TypeName(Emergency); "bg-red-50 text-red-700 border-red-200"
    else if shiftType == "surgery" then assert shiftType == TypeName(Surgery); "bg-purple-50 text-purple-700 border-purple-200"
    else if shiftType == "on-call" then assert shiftType == TypeName(OnCall); "bg-orange-50 text-orange-700 border-orange-200"
    else DefaultTypeBadge
  }

  /** The four kinds get four distinct badges, none of them the default one. */
  lemma TypeColorsDistinct(a: ShiftType, b: ShiftType)
    ensures TypeColor(TypeName(a)) == TypeColor(TypeName(b)) <==> a == b
    ensures TypeColor(TypeName(a)) != TypeColor("")
  {
  }

  /** A completed shift's badge cannot be told apart from an unknown status; the other three differ. */
  lemma StatusColors(a: ShiftStatus, b: ShiftStatus)
    ensures StatusColor(StatusName(Completed)) == StatusColor("")
    ensures a != Completed ==> StatusColor(StatusName(a)) != StatusColor("")
    ensures StatusColor(StatusName(a)) == StatusColor(StatusName(b)) <==> a == b
  {
  }
}
