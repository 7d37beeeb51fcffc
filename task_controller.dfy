/**
 * The older task handlers. They run their express-validator rule set first
 * (400 with the error list), then the same checks and writes as
 * `TaskService`, and answer each outcome with a status and a JSON body; an
 * error the store throws is answered 500. The employee summary is computed
 * here: one entry per EMPLOYEE user, counting only the requester's tasks.
 */
module TaskController {
  import opened Wrappers
  import opened Domain
  import opened Seqs
  import opened Rates
  import opened ErrorHandler
  import opened Store
  import opened TaskPolicy
  import opened Requests
  import opened Validation
  import TaskService

  /** One employee of the summary; `completionRate` is in hundredths of a percent. */
  datatype SummaryEntry = SummaryEntry(id: Id, username: string, totalTasks: nat, completedTasks: nat, completionRate: nat)

  datatype Body =
    | TaskJson(task: Task)
    | TaskListJson(tasks: seq<Task>)
    | SummaryJson(entries: seq<SummaryEntry>)
    | EmployeesJson(employees: seq<TaskService.EmployeeInfo>)
    | ErrorJson(error: string)
    | ErrorsJson(errors: seq<FieldError>)
    | NoContent

  datatype Response = Response(status: int, body: Body)

  const InternalError := Response(500, ErrorJson("Internal server error"))

  /** How a handler answers a service outcome: the success status, the AppError's own status, or 500. */
  function Answer<T>(r: Result<T, ErrorValue>, ok: T -> Body, okStatus: int): (resp: Response)
    ensures r.Ok? ==> resp == Response(okStatus, ok(r.value))
    ensures r.Err? && r.error.AppError? ==> resp == Response(r.error.statusCode, ErrorJson(r.error.message))
    ensures r.Err? && !r.error.AppError? ==> resp == InternalError
  {
    match r
    case Ok(v) => Response(okStatus, ok(v))
    case Err(AppError(message, statusCode)) => Response(statusCode, ErrorJson(message))
    case Err(_) => InternalError
  }

  function AsTask(t: Task): Body { TaskJson(t) }

  /** `createTask`: 400 with the rule errors before any lookup, then as `TaskService.createTask`, 201 on success. */
  method CreateTask(db: Database, body: RawTaskBody, user: AuthUser, iso: string -> bool, toDate: string -> int, newId: Id, now: int)
    returns (r: Response)
    requires db.Valid() && newId !in db.tasks
    modifies db`tasks
    ensures db.Valid()
    ensures CreateTaskErrors(body, iso) != [] ==> r == Response(400, ErrorsJson(CreateTaskErrors(body, iso)))
    ensures CreateTaskErrors(body, iso) == [] ==>
      var data := CreateTaskData(body.title.value, body.description, body.assignedToId, body.dueDate);
      var row := CreatedRow(newId, data, user, toDate, now);
      r == if AssigneeRejected(db.users, body.assignedToId) then Response(400, ErrorJson("Invalid employee assignment"))
           else if !ForeignKeysResolve(db.users, row) then InternalError
           else Response(201, TaskJson(row))
    ensures r.status == 201 ==> db.tasks == old(db.tasks)[newId := r.body.task]
    ensures r.status != 201 ==> db.tasks == old(db.tasks)
  {
    var errors := CreateTaskErrors(body, iso);
    if errors != [] {
      return Response(400, ErrorsJson(errors));
    }
    var data := CreateTaskData(body.title.value, body.description, body.assignedToId, body.dueDate);
    var result := TaskService.CreateTask(db, data, user, toDate, newId, now);
    r := Answer(result, AsTask, 201);
  }

  /**
   * The filters of a raw list query: sortBy and sortOrder default to
   * createdAt and desc; an empty status is no filter. None when the store
   * would refuse the query (an unknown status, column or direction).
   */
  function QueryFilters(q: RawQuery): (f: Option<TaskFilters>)
    ensures f.None? <==>
      || (Truthy(q.status) && ParseStatus(q.status.value).None?)
      || ParseSortField(q.sortBy.GetOr("createdAt")).None?
      || ParseSortOrder(q.sortOrder.GetOr("desc")).None?
    ensures f.Some? ==>
      && f.value.assignedToId == q.assignedToId
      && (f.value.status.Some? <==> Truthy(q.status))
      && SortFieldName(OrderField(f.value)) == q.sortBy.GetOr("createdAt")
      && SortOrderName(OrderDirection(f.value)) == q.sortOrder.GetOr("desc")
  {
    var sortBy := ParseSortField(q.sortBy.GetOr("createdAt"));
    var sortOrder := ParseSortOrder(q.sortOrder.GetOr("desc"));
    if Truthy(q.status) && ParseStatus(q.status.value).None? then None
    else if sortBy.None? || sortOrder.None? then None
    else Some(TaskFilters(q.assignedToId, if Truthy(q.status) then ParseStatus(q.status.value) else None, sortBy, sortOrder))
  }

  /** On every query the schema accepts, the raw handling reads the same filters. */
  lemma QueryFiltersAgreeWithSchema(q: RawQuery)
    requires TaskSchemas.ParseTaskQuery(q).Some?
    ensures QueryFilters(q) == TaskSchemas.ParseTaskQuery(q)
  {
  }

  /** `getTasks` on the raw query: 500 when the store refuses it, else the service's list with 200. */
  method GetTasks(db: Database, q: RawQuery, user: AuthUser) returns (r: Response)
    requires db.Valid()
    ensures QueryFilters(q).None? ==> r == InternalError
    ensures QueryFilters(q).Some? ==>
      && r.status == 200 && r.body.TaskListJson?
      && var f := QueryFilters(q).value;
      && (forall t :: t in r.body.tasks <==> t in db.tasks.Values && Listed(f, user, t))
      && Distinct(r.body.tasks)
      && Sorted(r.body.tasks, Comparator(OrderField(f), OrderDirection(f)))
  {
    var filters := QueryFilters(q);
    if filters.None? {
      return InternalError;
    }
    var tasks := TaskService.GetTasks(db, filters.value, user);
    r := Response(200, TaskListJson(tasks));
  }

  /** `getTaskById`: 404 only for an absent id, 403 outside the caller's scope, else 200. */
  method GetTaskById(db: Database, id: Id, user: AuthUser) returns (r: Response)
    ensures id !in db.tasks ==> r == Response(404, ErrorJson("Task not found"))
    ensures id in db.tasks ==>
      r == if CanRead(db.tasks[id], user) then Response(200, TaskJson(db.tasks[id]))
           else Response(403, ErrorJson("Access denied"))
  {
    var result := TaskService.GetTaskById(db, id, user);
    r := Answer(result, AsTask, 200);
  }

  /** The update request a validated body carries. */
  function UpdateDataOf(body: RawTaskBody): UpdateTaskData {
    UpdateTaskData(body.title, body.description,
                   if body.status.Some? then ParseStatus(body.status.value) else None,
                   body.assignedToId, body.dueDate)
  }

  /** `updateTask`: 400 with the rule errors, then 404, 403, 400 as the service, then the patch with 200. */
  method UpdateTask(db: Database, id: Id, body: RawTaskBody, user: AuthUser, iso: string -> bool, toDate: string -> int, now: int)
    returns (r: Response)
    requires db.Valid()
    modifies db`tasks
    ensures db.Valid()
    ensures UpdateTaskErrors(body, iso) != [] ==> r == Response(400, ErrorsJson(UpdateTaskErrors(body, iso)))
    ensures UpdateTaskErrors(body, iso) == [] && id !in old(db.tasks) ==> r == Response(404, ErrorJson("Task not found"))
    ensures UpdateTaskErrors(body, iso) == [] && id in old(db.tasks) ==>
      var t := old(db.tasks)[id];
      var data := UpdateDataOf(body);
      r == if UpdateDenial(t, data, user).Some? then Response(403, ErrorJson(UpdateDenial(t, data, user).value))
           else if AssigneeRejected(db.users, body.assignedToId) then Response(400, ErrorJson("Invalid employee assignment"))
           else if !ForeignKeysResolve(db.users, UpdatedRow(t, data, toDate, now)) then InternalError
           else Response(200, TaskJson(UpdatedRow(t, data, toDate, now)))
    ensures r.status == 200 ==> db.tasks == old(db.tasks)[id := r.body.task]
    ensures r.status != 200 ==> db.tasks == old(db.tasks)
  {
    var errors := UpdateTaskErrors(body, iso);
    if errors != [] {
      return Response(400, ErrorsJson(errors));
    }
    var result := TaskService.UpdateTask(db, id, UpdateDataOf(body), user, toDate, now);
    r := Answer(result, AsTask, 200);
  }

  function Nothing(u: ()): Body { NoContent }

  /** `deleteTask`: 404 before 403; only the creating EMPLOYER deletes, answered 204. */
  method DeleteTask(db: Database, id: Id, user: AuthUser) returns (r: Response)
    requires db.Valid()
    modifies db`tasks
    ensures db.Valid()
    ensures id !in old(db.tasks) ==> r == Response(404, ErrorJson("Task not found"))
    ensures id in old(db.tasks) ==>
      r == if CanDelete(old(db.tasks)[id], user) then Response(204, NoContent) else Response(403, ErrorJson("Access denied"))
    ensures r.status == 204 ==> db.tasks == old(db.tasks) - {id}
    ensures r.status != 204 ==> db.tasks == old(db.tasks)
  {
    var result := TaskService.DeleteTask(db, id, user);
    r := Answer(result, Nothing, 204);
  }

  /** An employee row as the summary query selects it: the statuses of the tasks counted for them. */
  datatype EmployeeRow = EmployeeRow(id: Id, username: string, assignedTasks: seq<Status>)

  predicate IsCompleted(s: Status) { s == Completed }

  /** The summary entry of one row: counts, and the rate rounded to two decimals. */
  function SummaryOf(e: EmployeeRow): (s: SummaryEntry)
    ensures s.id == e.id && s.username == e.username
    ensures s.totalTasks == |e.assignedTasks| && s.completedTasks == multiset(e.assignedTasks)[Completed]
    ensures s.completedTasks <= s.totalTasks
    ensures s.completionRate <= 10000
    ensures s.totalTasks == 0 ==> s.completionRate == 0
    ensures s.totalTasks > 0 ==>
      2 * s.totalTasks * s.completionRate <= 20000 * s.completedTasks + s.totalTasks < 2 * s.totalTasks * (s.completionRate + 1)
  {
    FilterCount(e.assignedTasks, IsCompleted, Completed);
    var total := |e.assignedTasks|;
    var completed := |Filter(e.assignedTasks, IsCompleted)|;
    SummaryEntry(e.id, e.username, total, completed, PercentHundredths(completed, total))
  }

  /** The requester's tasks assigned to the employee, and those of them that are COMPLETED. */
  predicate Counted(t: Task, employee: Id, employer: Id) {
    t.assignedToId == Some(employee) && t.createdById == employer
  }

  ghost function AssignedBy(tasks: map<Id, Task>, employee: Id, employer: Id): set<Id> {
    set k | k in tasks && Counted(tasks[k], employee, employer)
  }

  ghost function CompletedBy(tasks: map<Id, Task>, employee: Id, employer: Id): set<Id> {
    set k | k in tasks && Counted(tasks[k], employee, employer) && tasks[k].status == Completed
  }

  /** `assignedTasks: { where: { createdById } , select: { status } }` for one employee. */
  method AssignedStatuses(db: Database, employee: Id, employer: Id) returns (statuses: seq<Status>)
    ensures |statuses| == |AssignedBy(db.tasks, employee, employer)|
    ensures multiset(statuses)[Completed] == |CompletedBy(db.tasks, employee, employer)|
  {
    statuses := [];
    var pending := db.tasks.Keys;
    ghost var seen: set<Id> := {};
    ghost var seenCompleted: set<Id> := {};
    while pending != {}
      invariant pending <= db.tasks.Keys
      invariant forall k :: k in seen <==> k in db.tasks && k !in pending && Counted(db.tasks[k], employee, employer)
      invariant forall k :: k in seenCompleted <==> k in seen && db.tasks[k].status == Completed
      invariant |statuses| == |seen| && multiset(statuses)[Completed] == |seenCompleted|
      decreases pending
    {
      var id :| id in pending;
      var t := db.tasks[id];
      if Counted(t, employee, employer) {
        assert id !in seen;
        statuses := statuses + [t.status];
        seen := seen + {id};
        if t.status == Completed {
          assert id !in seenCompleted;
          seenCompleted := seenCompleted + {id};
        }
      }
      pending := pending - {id};
    }
    assert seen == AssignedBy(db.tasks, employee, employer);
    assert seenCompleted == CompletedBy(db.tasks, employee, employer);
  }

  /** A row of the query: an EMPLOYEE user with the statuses of the requester's tasks assigned to them. */
  ghost predicate RowOf(users: map<Id, User>, tasks: map<Id, Task>, requester: Id, row: EmployeeRow) {
    && IsEmployeeId(users, row.id) && row.username == users[row.id].username
    && |row.assignedTasks| == |AssignedBy(tasks, row.id, requester)|
    && multiset(row.assignedTasks)[Completed] == |CompletedBy(tasks, row.id, requester)|
  }

  /** The selected row of one EMPLOYEE user. */
  method RowFor(db: Database, id: Id, requester: Id) returns (row: EmployeeRow)
    requires IsEmployeeId(db.users, id)
    ensures row.id == id && RowOf(db.users, db.tasks, requester, row)
  {
    var statuses := AssignedStatuses(db, id, requester);
    row := EmployeeRow(id, db.users[id].username, statuses);
  }

  /** The rows selected once the users outside `pending` are visited, and their ids in order. */
  ghost predicate RowsState(users: map<Id, User>, tasks: map<Id, Task>, requester: Id, pending: set<Id>,
                            rows: seq<EmployeeRow>, ids: seq<Id>) {
    && pending <= users.Keys
    && |ids| == |rows| && (forall i :: 0 <= i < |rows| ==> ids[i] == rows[i].id)
    && (forall id :: IsEmployeeId(users, id) && id !in pending ==> id in ids)
    && (forall i :: 0 <= i < |ids| ==> ids[i] !in pending)
    && (forall i, j :: 0 <= i < j < |ids| ==> ids[i] != ids[j])
    && (forall i :: 0 <= i < |rows| ==> RowOf(users, tasks, requester, rows[i]))
  }

  /** Visiting one user: an EMPLOYEE gets a row. */
  method VisitUser(db: Database, requester: Id, pending: set<Id>, rows: seq<EmployeeRow>, ghost ids: seq<Id>, id: Id)
    returns (rows': seq<EmployeeRow>, ghost ids': seq<Id>)
    requires id in pending && RowsState(db.users, db.tasks, requester, pending, rows, ids)
    ensures RowsState(db.users, db.tasks, requester, pending - {id}, rows', ids')
  {
    rows', ids' := rows, ids;
    if db.users[id].role == Employee {
      var row := RowFor(db, id, requester);
      rows' := rows + [row];
      ids' := ids + [id];
    }
  }

  /** `prisma.user.findMany({ where: { role: 'EMPLOYEE' }, ... })`: every EMPLOYEE user once. */
  method EmployeeRows(db: Database, requester: Id) returns (rows: seq<EmployeeRow>)
    ensures forall id :: IsEmployeeId(db.users, id) ==> exists i :: 0 <= i < |rows| && rows[i].id == id
    ensures forall i, j :: 0 <= i < j < |rows| ==> rows[i].id != rows[j].id
    ensures forall i :: 0 <= i < |rows| ==> RowOf(db.users, db.tasks, requester, rows[i])
  {
    rows := [];
    ghost var ids: seq<Id> := [];
    var pending := db.users.Keys;
    while pending != {}
      invariant RowsState(db.users, db.tasks, requester, pending, rows, ids)
      decreases pending
    {
      var id :| id in pending;
      rows, ids := VisitUser(db, requester, pending, rows, ids, id);
      pending := pending - {id};
    }
    forall id | IsEmployeeId(db.users, id) ensures exists i :: 0 <= i < |rows| && rows[i].id == id {
      var i :| 0 <= i < |ids| && ids[i] == id;
    }
  }

  /** The entries of the summary: each EMPLOYEE user exactly once, with the counts of the requester's tasks. */
  ghost predicate IsSummaryOf(users: map<Id, User>, tasks: map<Id, Task>, requester: Id, entries: seq<SummaryEntry>) {
    && (forall id :: IsEmployeeId(users, id) ==> exists i :: 0 <= i < |entries| && entries[i].id == id)
    && (forall i, j :: 0 <= i < j < |entries| ==> entries[i].id != entries[j].id)
    && forall i :: 0 <= i < |entries| ==>
        var e := entries[i];
        && IsEmployeeId(users, e.id) && e.username == users[e.id].username
        && e.totalTasks == |AssignedBy(tasks, e.id, requester)|
        && e.completedTasks == |CompletedBy(tasks, e.id, requester)|
        && e.completedTasks <= e.totalTasks
        && e.completionRate == PercentHundredths(e.completedTasks, e.totalTasks)
  }

  /** Mapping SummaryOf over the selected rows gives the summary. */
  lemma EntriesFromRows(users: map<Id, User>, tasks: map<Id, Task>, requester: Id,
                        rows: seq<EmployeeRow>, entries: seq<SummaryEntry>)
    requires forall id :: IsEmployeeId(users, id) ==> exists i :: 0 <= i < |rows| && rows[i].id == id
    requires forall i, j :: 0 <= i < j < |rows| ==> rows[i].id != rows[j].id
    requires forall i :: 0 <= i < |rows| ==> RowOf(users, tasks, requester, rows[i])
    requires |entries| == |rows| && forall i :: 0 <= i < |rows| ==> entries[i] == SummaryOf(rows[i])
    ensures IsSummaryOf(users, tasks, requester, entries)
  {
    forall id | IsEmployeeId(users, id) ensures exists i :: 0 <= i < |entries| && entries[i].id == id {
      var i :| 0 <= i < |rows| && rows[i].id == id;
      assert entries[i].id == id;
    }
  }

  /** `getEmployeeSummary`: 403 unless an EMPLOYER asks; else every EMPLOYEE, even one with no tasks. */
  method GetEmployeeSummary(db: Database, user: AuthUser) returns (r: Response)
    ensures user.role != Employer ==> r == Response(403, ErrorJson("Access denied"))
    ensures user.role == Employer ==> r.status == 200 && r.body.SummaryJson? && IsSummaryOf(db.users, db.tasks, user.id, r.body.entries)
  {
    if user.role != Employer {
      return Response(403, ErrorJson("Access denied"));
    }
    var rows := EmployeeRows(db, user.id);
    var entries := seq(|rows|, i requires 0 <= i < |rows| => SummaryOf(rows[i]));
    EntriesFromRows(db.users, db.tasks, user.id, rows, entries);
    r := Response(200, SummaryJson(entries));
  }

  /** `getEmployees`: 403 unless an EMPLOYER asks; else every EMPLOYEE user once. */
  method GetEmployees(db: Database, user: AuthUser) returns (r: Response)
    requires db.Valid()
    ensures user.role != Employer ==> r == Response(403, ErrorJson("Access denied"))
    ensures user.role == Employer ==>
      && r.status == 200 && r.body.EmployeesJson?
      && (forall id :: IsEmployeeId(db.users, id) ==> TaskService.InfoOf(db.users[id]) in r.body.employees)
      && (forall e :: e in r.body.employees ==> IsEmployeeId(db.users, e.id) && e == TaskService.InfoOf(db.users[e.id]))
      && Distinct(r.body.employees)
  {
    if user.role != Employer {
      return Response(403, ErrorJson("Access denied"));
    }
    var employees := TaskService.GetEmployees(db);
    r := Response(200, EmployeesJson(employees));
  }
}
