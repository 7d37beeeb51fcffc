/**
 * `TaskService`: create, list, read, update and delete tasks over the store,
 * each with its role checks, and the employee listing. A thrown `AppError`
 * is an `Err` result; every check runs before any write.
 */
module TaskService {
  import opened Wrappers
  import opened Domain
  import opened Seqs
  import opened ErrorHandler
  import opened Store
  import opened TaskPolicy

  /** `createTask(data, createdBy)`; `newId` is the id the store assigns and `now` its clock. */
  method CreateTask(db: Database, data: CreateTaskData, createdBy: AuthUser, toDate: string -> int, newId: Id, now: int)
    returns (r: Result<Task, ErrorValue>)
    requires db.Valid() && newId !in db.tasks
    modifies db`tasks
    ensures db.Valid()
    ensures AssigneeRejected(db.users, data.assignedToId) ==> r == Err(AppError("Invalid employee assignment", 400))
    ensures !AssigneeRejected(db.users, data.assignedToId) ==>
      r == if ForeignKeysResolve(db.users, CreatedRow(newId, data, createdBy, toDate, now))
           then Ok(CreatedRow(newId, data, createdBy, toDate, now))
           else Err(ForeignKeyViolation)
    ensures r.Err? ==> db.tasks == old(db.tasks)
    ensures r.Ok? ==> db.tasks == old(db.tasks)[newId := r.value]
    ensures old(db.AssigneesAreEmployees()) ==> db.AssigneesAreEmployees()
  {
    if Truthy(data.assignedToId) {
      var assignee := data.assignedToId.value;
      if assignee !in db.users || db.users[assignee].role != Employee {
        return Err(AppError("Invalid employee assignment", 400));
      }
    }
    var dueDate := if data.dueDate.Some? && data.dueDate.value != "" then Some(toDate(data.dueDate.value)) else None;
    var task := Task(newId, data.title, data.description, Pending, dueDate, createdBy.id, data.assignedToId, now, now);
    if !ForeignKeysResolve(db.users, task) {
      return Err(ForeignKeyViolation);
    }
    db.tasks := db.tasks[newId := task];
    r := Ok(task);
  }

  /** The `where` object of `getTasks`, built field by field. */
  method BuildWhere(filters: TaskFilters, user: AuthUser) returns (w: Where)
    ensures user.role == Employee ==> w == Where(None, Some(user.id), filters.status)
    ensures user.role == Employer ==>
      w == Where(Some(user.id), if Truthy(filters.assignedToId) then filters.assignedToId else None, filters.status)
    ensures forall t :: Matches(w, t) <==> Listed(filters, user, t)
  {
    w := Where(None, None, None);
    if user.role == Employee {
      w := w.(assignedToId := Some(user.id));
    } else {
      w := w.(createdById := Some(user.id));
      if Truthy(filters.assignedToId) {
        w := w.(assignedToId := filters.assignedToId);
      }
    }
    if filters.status.Some? {
      w := w.(status := filters.status);
    }
  }

  /** `getTasks(filters, user)`: every task the caller may list under the filters, once each, in the requested order. */
  method GetTasks(db: Database, filters: TaskFilters, user: AuthUser) returns (r: seq<Task>)
    requires db.Valid()
    ensures forall t :: t in r <==> t in db.tasks.Values && Listed(filters, user, t)
    ensures Distinct(r)
    ensures Sorted(r, Comparator(OrderField(filters), OrderDirection(filters)))
    ensures user.role == Employee ==> forall t :: t in r ==> t.assignedToId == Some(user.id)
    ensures user.role == Employer ==> forall t :: t in r ==> t.createdById == user.id
  {
    var w := BuildWhere(filters, user);
    var found: seq<Task> := [];
    var pending := db.tasks.Keys;
    while pending != {}
      invariant pending <= db.tasks.Keys
      invariant forall t :: t in found ==> t in db.tasks.Values && Matches(w, t) && t.id !in pending
      invariant forall id :: id in db.tasks && id !in pending && Matches(w, db.tasks[id]) ==> db.tasks[id] in found
      invariant Distinct(found)
      decreases pending
    {
      var id :| id in pending;
      var t := db.tasks[id];
      if Matches(w, t) {
        DistinctAppend(found, t);
        found := found + [t];
      }
      pending := pending - {id};
    }
    var cmp := Comparator(OrderField(filters), OrderDirection(filters));
    r := Sort(found, cmp);
    SortDistinct(found, cmp);
    ComparatorConsistent(OrderField(filters), OrderDirection(filters), multiset(found));
    SortSorted(found, cmp);
  }

  /** `getTaskById(id, user)`: 404 for an absent id, 403 for a task outside the caller's scope. */
  method GetTaskById(db: Database, id: Id, user: AuthUser) returns (r: Result<Task, ErrorValue>)
    ensures id !in db.tasks ==> r == Err(AppError("Task not found", 404))
    ensures id in db.tasks ==>
      r == if CanRead(db.tasks[id], user) then Ok(db.tasks[id]) else Err(AppError("Access denied", 403))
  {
    if id !in db.tasks {
      return Err(AppError("Task not found", 404));
    }
    var task := db.tasks[id];
    if user.role == Employee {
      if task.assignedToId != Some(user.id) {
        return Err(AppError("Access denied", 403));
      }
    } else if user.role == Employer {
      if task.createdById != user.id {
        return Err(AppError("Access denied", 403));
      }
    }
    r := Ok(task);
  }

  /** The role checks of `updateTask`, in the order they run; the result is the 403 message, if any. */
  method CheckUpdateAllowed(task: Task, data: UpdateTaskData, user: AuthUser) returns (denial: Option<string>)
    ensures denial == UpdateDenial(task, data, user)
  {
    denial := None;
    if user.role == Employee {
      if task.assignedToId != Some(user.id) {
        return Some("Access denied");
      }
      if Truthy(data.title) || Truthy(data.description) || Truthy(data.assignedToId) || Truthy(data.dueDate) {
        return Some("Employees can only update task status");
      }
    } else if user.role == Employer {
      if task.createdById != user.id {
        return Some("Access denied");
      }
    }
  }

  /** The `updateData` object: every field of the request that is not `undefined`, a falsy due date as null. */
  method BuildUpdateData(data: UpdateTaskData, toDate: string -> int) returns (u: UpdateFields)
    ensures forall t: Task, now: int :: ApplyFields(t, u, now) == UpdatedRow(t, data, toDate, now)
  {
    u := NoFields;
    if data.title.Some? { u := u.(title := data.title); }
    if data.description.Some? { u := u.(description := data.description); }
    if data.status.Some? { u := u.(status := data.status); }
    if data.assignedToId.Some? { u := u.(assignedToId := data.assignedToId); }
    if data.dueDate.Some? {
      u := u.(dueDate := Some(if data.dueDate.value != "" then Some(toDate(data.dueDate.value)) else None));
    }
  }

  /** `updateTask(id, data, user)`: checks 404, then the role rules (403), then the assignee (400), then writes. */
  method UpdateTask(db: Database, id: Id, data: UpdateTaskData, user: AuthUser, toDate: string -> int, now: int)
    returns (r: Result<Task, ErrorValue>)
    requires db.Valid()
    modifies db`tasks
    ensures db.Valid()
    ensures id !in old(db.tasks) ==> r == Err(AppError("Task not found", 404))
    ensures id in old(db.tasks) ==>
      var t := old(db.tasks)[id];
      r == if UpdateDenial(t, data, user).Some? then Err(AppError(UpdateDenial(t, data, user).value, 403))
           else if AssigneeRejected(db.users, data.assignedToId) then Err(AppError("Invalid employee assignment", 400))
           else if !ForeignKeysResolve(db.users, UpdatedRow(t, data, toDate, now)) then Err(ForeignKeyViolation)
           else Ok(UpdatedRow(t, data, toDate, now))
    ensures r.Err? ==> db.tasks == old(db.tasks)
    ensures r.Ok? ==> db.tasks == old(db.tasks)[id := r.value]
    ensures old(db.AssigneesAreEmployees()) ==> db.AssigneesAreEmployees()
  {
    if id !in db.tasks {
      return Err(AppError("Task not found", 404));
    }
    var task := db.tasks[id];
    var denial := CheckUpdateAllowed(task, data, user);
    if denial.Some? {
      return Err(AppError(denial.value, 403));
    }
    if Truthy(data.assignedToId) {
      var assignee := data.assignedToId.value;
      if assignee !in db.users || db.users[assignee].role != Employee {
        return Err(AppError("Invalid employee assignment", 400));
      }
    }
    var updateData := BuildUpdateData(data, toDate);
    var updated := ApplyFields(task, updateData, now);
    if !ForeignKeysResolve(db.users, updated) {
      return Err(ForeignKeyViolation);
    }
    db.tasks := db.tasks[id := updated];
    r := Ok(updated);
  }

  /** `deleteTask(id, user)`: 404 for an absent id, 403 unless the caller is the EMPLOYER who created it. */
  method DeleteTask(db: Database, id: Id, user: AuthUser) returns (r: Result<(), ErrorValue>)
    requires db.Valid()
    modifies db`tasks
    ensures db.Valid()
    ensures id !in old(db.tasks) ==> r == Err(AppError("Task not found", 404))
    ensures id in old(db.tasks) && !CanDelete(old(db.tasks)[id], user) ==> r == Err(AppError("Access denied", 403))
    ensures r.Ok? <==> id in old(db.tasks) && CanDelete(old(db.tasks)[id], user)
    ensures r.Err? ==> db.tasks == old(db.tasks)
    ensures r.Ok? ==> db.tasks == old(db.tasks) - {id}
    ensures old(db.AssigneesAreEmployees()) ==> db.AssigneesAreEmployees()
  {
    if id !in db.tasks {
      return Err(AppError("Task not found", 404));
    }
    var task := db.tasks[id];
    if user.role != Employer || task.createdById != user.id {
      return Err(AppError("Access denied", 403));
    }
    db.tasks := db.tasks - {id};
    r := Ok(());
  }

  /** One entry of the employee listing (`select: { id, username, createdAt }`). */
  datatype EmployeeInfo = EmployeeInfo(id: Id, username: string, createdAt: int)

  function InfoOf(u: User): EmployeeInfo {
    EmployeeInfo(u.id, u.username, u.createdAt)
  }

  /** `getEmployees()`: every EMPLOYEE user once, in no particular order. */
  method GetEmployees(db: Database) returns (r: seq<EmployeeInfo>)
    requires db.Valid()
    ensures forall id :: IsEmployeeId(db.users, id) ==> InfoOf(db.users[id]) in r
    ensures forall e :: e in r ==> e.id in db.users && IsEmployeeId(db.users, e.id) && e == InfoOf(db.users[e.id])
    ensures Distinct(r)
  {
    r := [];
    var pending := db.users.Keys;
    while pending != {}
      invariant pending <= db.users.Keys
      invariant forall e :: e in r ==> IsEmployeeId(db.users, e.id) && e == InfoOf(db.users[e.id]) && e.id !in pending
      invariant forall id :: IsEmployeeId(db.users, id) && id !in pending ==> InfoOf(db.users[id]) in r
      invariant Distinct(r)
      decreases pending
    {
      var id :| id in pending;
      var u := db.users[id];
      if u.role == Employee {
        DistinctAppend(r, InfoOf(u));
        r := r + [InfoOf(u)];
      }
      pending := pending - {id};
    }
  }
}
