/**
 * The access policy and query semantics shared by the task service and the
 * older task controller: who may read, update and delete a task, what a
 * list request selects, the order it is returned in, and which row an
 * accepted create or update writes.
 */
module TaskPolicy {
  import opened Wrappers
  import opened Domain
  import opened Seqs
  import opened Store

  datatype TaskFilters = TaskFilters(
    assignedToId: Option<Id>, status: Option<Status>, sortBy: Option<SortField>, sortOrder: Option<SortOrder>)

  datatype CreateTaskData = CreateTaskData(
    title: string, description: Option<string>, assignedToId: Option<Id>, dueDate: Option<string>)

  datatype UpdateTaskData = UpdateTaskData(
    title: Option<string>, description: Option<string>, status: Option<Status>,
    assignedToId: Option<Id>, dueDate: Option<string>)

  /** Read access: an EMPLOYEE reads the tasks assigned to them, an EMPLOYER the tasks they created. */
  predicate CanRead(t: Task, user: AuthUser) {
    match user.role
    case Employee => t.assignedToId == Some(user.id)
    case Employer => t.createdById == user.id
  }

  /** Only the EMPLOYER who created a task may delete it. */
  predicate CanDelete(t: Task, user: AuthUser) {
    user.role == Employer && t.createdById == user.id
  }

  /** The employee field check as written: none of the other fields is truthy. */
  predicate EmployeeFieldsAllowed(data: UpdateTaskData) {
    !(Truthy(data.title) || Truthy(data.description) || Truthy(data.assignedToId) || Truthy(data.dueDate))
  }

  /** The 403 message an update is refused with, if any, in the order the checks run. */
  function UpdateDenial(t: Task, data: UpdateTaskData, user: AuthUser): (d: Option<string>)
    ensures d.None? <==>
      (user.role == Employee && t.assignedToId == Some(user.id) && EmployeeFieldsAllowed(data))
      || (user.role == Employer && t.createdById == user.id)
    ensures d.Some? ==> d.value == "Access denied" || d.value == "Employees can only update task status"
    ensures d == Some("Employees can only update task status") ==> user.role == Employee && t.assignedToId == Some(user.id)
  {
    match user.role
    case Employee =>
      if t.assignedToId != Some(user.id) then Some("Access denied")
      else if !EmployeeFieldsAllowed(data) then Some("Employees can only update task status")
      else None
    case Employer =>
      if t.createdById != user.id then Some("Access denied") else None
  }

  /** A truthy assignee id that does not name an EMPLOYEE user is refused with 400. */
  predicate AssigneeRejected(users: map<Id, User>, assignedToId: Option<Id>) {
    Truthy(assignedToId) && !IsEmployeeId(users, assignedToId.value)
  }

  /** `dueDate ? new Date(dueDate) : null`; `toDate` stands for `new Date`. */
  function DueDateOf(dueDate: string, toDate: string -> int): (d: Option<int>)
    ensures d.None? <==> dueDate == ""
  {
    if dueDate != "" then Some(toDate(dueDate)) else None
  }

  /** The row an accepted create writes: status PENDING, creator from the token, both stamps `now`. */
  function CreatedRow(id: Id, data: CreateTaskData, creator: AuthUser, toDate: string -> int, now: int): (t: Task)
    ensures t.id == id && t.createdById == creator.id && t.status == Pending
    ensures t.title == data.title && t.description == data.description && t.assignedToId == data.assignedToId
    ensures t.dueDate.Some? <==> Truthy(data.dueDate)
    ensures t.createdAt == now && t.updatedAt == now
  {
    Task(id, data.title, data.description, Pending,
         if data.dueDate.Some? then DueDateOf(data.dueDate.value, toDate) else None,
         creator.id, data.assignedToId, now, now)
  }

  /**
   * The row an accepted update writes: each field that is not `undefined` is
   * taken from the request (a falsy due date as null), every other column is
   * kept, and `updatedAt` is stamped.
   */
  ghost predicate WrittenFrom(t: Task, data: UpdateTaskData, toDate: string -> int, now: int, u: Task) {
    && u.id == t.id && u.createdById == t.createdById && u.createdAt == t.createdAt && u.updatedAt == now
    && u.title == (if data.title.Some? then data.title.value else t.title)
    && u.description == (if data.description.Some? then data.description else t.description)
    && u.status == (if data.status.Some? then data.status.value else t.status)
    && u.assignedToId == (if data.assignedToId.Some? then data.assignedToId else t.assignedToId)
    && u.dueDate == (if data.dueDate.Some? then DueDateOf(data.dueDate.value, toDate) else t.dueDate)
  }

  /** The unique row described by WrittenFrom. */
  function UpdatedRow(t: Task, data: UpdateTaskData, toDate: string -> int, now: int): (u: Task)
    ensures WrittenFrom(t, data, toDate, now, u)
  {
    Task(t.id,
         if data.title.Some? then data.title.value else t.title,
         if data.description.Some? then data.description else t.description,
         if data.status.Some? then data.status.value else t.status,
         if data.dueDate.Some? then DueDateOf(data.dueDate.value, toDate) else t.dueDate,
         t.createdById,
         if data.assignedToId.Some? then data.assignedToId else t.assignedToId,
         t.createdAt, now)
  }

  /** WrittenFrom determines the row completely. */
  lemma WrittenRowIsUnique(t: Task, data: UpdateTaskData, toDate: string -> int, now: int, u: Task)
    requires WrittenFrom(t, data, toDate, now, u)
    ensures u == UpdatedRow(t, data, toDate, now)
  {
  }

  /** What a list request selects: the caller's role scope plus the status and assignee filters. */
  predicate Listed(filters: TaskFilters, user: AuthUser, t: Task) {
    && (match user.role
        case Employee => t.assignedToId == Some(user.id)
        case Employer =>
          t.createdById == user.id && (Truthy(filters.assignedToId) ==> t.assignedToId == filters.assignedToId))
    && (filters.status.Some? ==> t.status == filters.status.value)
  }

  /** A `where` object of the store: every present column must equal the given value. */
  datatype Where = Where(createdById: Option<Id>, assignedToId: Option<Id>, status: Option<Status>)

  predicate Matches(w: Where, t: Task) {
    && (w.createdById.Some? ==> t.createdById == w.createdById.value)
    && (w.assignedToId.Some? ==> t.assignedToId == w.assignedToId)
    && (w.status.Some? ==> t.status == w.status.value)
  }

  /** `orderBy: { [sortBy || 'createdAt']: sortOrder || 'desc' }`. */
  function OrderField(filters: TaskFilters): SortField {
    filters.sortBy.GetOr(ByCreatedAt)
  }

  function OrderDirection(filters: TaskFilters): SortOrder {
    filters.sortOrder.GetOr(Desc)
  }

  function Sign(x: int): int {
    if x < 0 then -1 else if x > 0 then 1 else 0
  }

  /** Status columns order as the enum is declared. */
  function StatusRank(s: Status): int {
    match s
    case Pending => 0
    case InProgress => 1
    case Completed => 2
  }

  /**
   * Ascending comparison on one column. A null due date sorts after every
   * date here, so after every date ascending and before every date descending.
   */
  function CompareColumn(a: Task, b: Task, f: SortField): int {
    match f
    case ByCreatedAt => Sign(a.createdAt - b.createdAt)
    case ByStatus => Sign(StatusRank(a.status) - StatusRank(b.status))
    case ByDueDate =>
      if a.dueDate.None? && b.dueDate.None? then 0
      else if a.dueDate.None? then 1
      else if b.dueDate.None? then -1
      else Sign(a.dueDate.value - b.dueDate.value)
  }

  function Comparator(f: SortField, o: SortOrder): (Task, Task) -> int {
    (a: Task, b: Task) => if o == Asc then CompareColumn(a, b, f) else -CompareColumn(a, b, f)
  }

  lemma ColumnAntisymmetric(a: Task, b: Task, f: SortField)
    ensures CompareColumn(a, b, f) == -CompareColumn(b, a, f)
  {
  }

  lemma ColumnTransitive(a: Task, b: Task, c: Task, f: SortField)
    requires CompareColumn(a, b, f) <= 0 && CompareColumn(b, c, f) <= 0
    ensures CompareColumn(a, c, f) <= 0
  {
  }

  /** Every column order, ascending or descending, is a total preorder on tasks. */
  lemma ComparatorConsistent(f: SortField, o: SortOrder, xs: multiset<Task>)
    ensures ConsistentOn(Comparator(f, o), xs)
  {
    var cmp := Comparator(f, o);
    forall a, b | a in xs && b in xs && cmp(a, b) >= 0 ensures cmp(b, a) <= 0 {
      ColumnAntisymmetric(a, b, f);
    }
    forall a, b, c | a in xs && b in xs && c in xs && cmp(a, b) <= 0 && cmp(b, c) <= 0
      ensures cmp(a, c) <= 0
    {
      if o == Asc {
        ColumnTransitive(a, b, c, f);
      } else {
        ColumnAntisymmetric(a, b, f);
        ColumnAntisymmetric(b, c, f);
        ColumnAntisymmetric(a, c, f);
        ColumnTransitive(c, b, a, f);
      }
    }
  }

  /** The corrected employee check: no field but status is present. */
  predicate EmployeeFieldsAllowedIntended(data: UpdateTaskData) {
    data.title.None? && data.description.None? && data.assignedToId.None? && data.dueDate.None?
  }

  /** UpdateDenial with the employee check comparing against `undefined`, as the write does. */
  function UpdateDenialIntended(t: Task, data: UpdateTaskData, user: AuthUser): (d: Option<string>)
    ensures d.None? ==> UpdateDenial(t, data, user).None?
  {
    match user.role
    case Employee =>
      if t.assignedToId != Some(user.id) then Some("Access denied")
      else if !EmployeeFieldsAllowedIntended(data) then Some("Employees can only update task status")
      else None
    case Employer =>
      if t.createdById != user.id then Some("Access denied") else None
  }

  /**
   * As written, an employee may send `description: ""`: the request passes the
   * check and the write blanks the description. The check lets `dueDate: ""`
   * through as well, and the write then clears the due date; both validators
   * refuse that value first, so only a caller that skips them reaches it.
   */
  lemma EmployeeBlankFieldsAreWritten(t: Task, user: AuthUser, toDate: string -> int, now: int)
    requires user.role == Employee && t.assignedToId == Some(user.id)
    requires t.description != Some("") && t.dueDate.Some?
    ensures var data := UpdateTaskData(None, Some(""), None, None, None);
      && UpdateDenial(t, data, user).None?
      && UpdatedRow(t, data, toDate, now) == t.(description := Some(""), updatedAt := now)
      && UpdatedRow(t, data, toDate, now).description != t.description
    ensures var data := UpdateTaskData(None, None, None, None, Some(""));
      && UpdateDenial(t, data, user).None?
      && UpdatedRow(t, data, toDate, now).dueDate.None?
  {
  }

  /** With the intended check, an accepted employee update changes the status (and the stamp) only. */
  lemma IntendedEmployeeUpdateChangesOnlyStatus(t: Task, data: UpdateTaskData, user: AuthUser, toDate: string -> int, now: int)
    requires user.role == Employee && UpdateDenialIntended(t, data, user).None?
    ensures UpdatedRow(t, data, toDate, now)
      == t.(status := if data.status.Some? then data.status.value else t.status, updatedAt := now)
  {
  }
}
