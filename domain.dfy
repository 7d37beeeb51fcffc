/**
 * The backend's value types: roles, task statuses, user and task rows as the
 * relational store holds them, and JavaScript truthiness of optional strings.
 */
module Domain {
  import opened Wrappers

  /** Opaque identifiers (cuids in the store). */
  type Id = string

  datatype Role = Employer | Employee
  datatype Status = Pending | InProgress | Completed

  /** The columns a task list may be ordered by, and the direction. */
  datatype SortField = ByCreatedAt | ByDueDate | ByStatus
  datatype SortOrder = Asc | Desc

  function RoleName(r: Role): string {
    match r
    case Employer => "EMPLOYER"
    case Employee => "EMPLOYEE"
  }

  function ParseRole(s: string): (r: Option<Role>)
    ensures r.Some? <==> s == "EMPLOYER" || s == "EMPLOYEE"
    ensures r.Some? ==> RoleName(r.value) == s
  {
    if s == "EMPLOYER" then Some(Employer)
    else if s == "EMPLOYEE" then Some(Employee)
    else None
  }

  function StatusName(s: Status): string {
    match s
    case Pending => "PENDING"
    case InProgress => "IN_PROGRESS"
    case Completed => "COMPLETED"
  }

  function ParseStatus(s: string): (r: Option<Status>)
    ensures r.Some? <==> s == "PENDING" || s == "IN_PROGRESS" || s == "COMPLETED"
    ensures r.Some? ==> StatusName(r.value) == s
  {
    if s == "PENDING" then Some(Pending)
    else if s == "IN_PROGRESS" then Some(InProgress)
    else if s == "COMPLETED" then Some(Completed)
    else None
  }

  function SortFieldName(f: SortField): string {
    match f
    case ByCreatedAt => "createdAt"
    case ByDueDate => "dueDate"
    case ByStatus => "status"
  }

  function ParseSortField(s: string): (r: Option<SortField>)
    ensures r.Some? <==> s == "createdAt" || s == "dueDate" || s == "status"
    ensures r.Some? ==> SortFieldName(r.value) == s
  {
    if s == "createdAt" then Some(ByCreatedAt)
    else if s == "dueDate" then Some(ByDueDate)
    else if s == "status" then Some(ByStatus)
    else None
  }

  function SortOrderName(o: SortOrder): string {
    match o
    case Asc => "asc"
    case Desc => "desc"
  }

  function ParseSortOrder(s: string): (r: Option<SortOrder>)
    ensures r.Some? <==> s == "asc" || s == "desc"
    ensures r.Some? ==> SortOrderName(r.value) == s
  {
    if s == "asc" then Some(Asc) else if s == "desc" then Some(Desc) else None
  }

  /** Every enum name parses back to its value. */
  lemma NamesRoundTrip(r: Role, s: Status, f: SortField, o: SortOrder)
    ensures ParseRole(RoleName(r)) == Some(r)
    ensures ParseStatus(StatusName(s)) == Some(s)
    ensures ParseSortField(SortFieldName(f)) == Some(f)
    ensures ParseSortOrder(SortOrderName(o)) == Some(o)
  {
  }

  /** JavaScript truthiness of a value that is `undefined` or a string. */
  predicate Truthy(v: Option<string>) {
    v.Some? && v.value != ""
  }

  /** A row of the user table. `password` holds the stored hash. */
  datatype User = User(id: Id, username: string, password: string, role: Role, createdAt: int)

  /** The identity carried in a token and attached to a request. */
  datatype AuthUser = AuthUser(id: Id, username: string, role: Role)

  function AuthUserOf(u: User): AuthUser {
    AuthUser(u.id, u.username, u.role)
  }

  /** A row of the task table; dates are timestamps. */
  datatype Task = Task(
    id: Id,
    title: string,
    description: Option<string>,
    status: Status,
    dueDate: Option<int>,
    createdById: Id,
    assignedToId: Option<Id>,
    createdAt: int,
    updatedAt: int)
}
