/** The shift kind and status enumerations every page shares. */
module Types {

  datatype ShiftType = Regular | Emergency | OnCall | Surgery

  datatype ShiftStatus = Scheduled | Confirmed | Completed | Cancelled

  /** The string literal the pages use for a shift kind. */
  function TypeName(t: ShiftType): string
  {
    match t
    case Regular => "regular"
    case Emergency => "emergency"
    case OnCall => "on-call"
    case Surgery => "surgery"
  }

  /** The string literal the pages use for a shift status. */
  function StatusName(s: ShiftStatus): string
  {
    match s
    case Scheduled => "scheduled"
    case Confirmed => "confirmed"
    case Completed => "completed"
    case Cancelled => "cancelled"
  }
}
