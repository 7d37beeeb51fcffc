/**
 * The status badge class and display name. The input is the status string
 * as it arrives from the API, so the `default` branch is reachable with a
 * string that names no status; with the closed Status datatype it is not.
 */
module CheckStatus {
  import opened Wrappers
  import opened Domain

  /** `getStatusBadgeClass` */
  function BadgeClass(status: string): (c: string)
    ensures c == "badge-in-progress" <==> status == StatusName(InProgress)
    ensures c == "badge-completed" <==> status == StatusName(Completed)
    ensures c == "badge-pending" <==> status != StatusName(InProgress) && status != StatusName(Completed)
  {
    match status
    case "PENDING" => "badge-pending"
    case "IN_PROGRESS" => "badge-in-progress"
    case "COMPLETED" => "badge-completed"
    case _ => "badge-pending"
  }

  /** `getStatusDisplayName` */
  function DisplayName(status: string): (n: string)
    ensures n == "In Progress" <==> status == StatusName(InProgress)
    ensures n == "Completed" <==> status == StatusName(Completed)
    ensures n == "Pending" <==> status != StatusName(InProgress) && status != StatusName(Completed)
  {
    match status
    case "PENDING" => "Pending"
    case "IN_PROGRESS" => "In Progress"
    case "COMPLETED" => "Completed"
    case _ => "Pending"
  }

  /** A string naming no status gets the PENDING values. */
  lemma FallbackIsPending(status: string)
    requires ParseStatus(status).None?
    ensures BadgeClass(status) == BadgeClass(StatusName(Pending))
    ensures DisplayName(status) == DisplayName(StatusName(Pending))
  {
  }

  /** Both maps tell the three statuses apart. */
  lemma MapsInjective(a: Status, b: Status)
    ensures BadgeClass(StatusName(a)) == BadgeClass(StatusName(b)) ==> a == b
    ensures DisplayName(StatusName(a)) == DisplayName(StatusName(b)) ==> a == b
  {
  }
}
