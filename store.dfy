/**
 * The relational store behind the backend: the user and task tables, keyed by
 * primary key, with the unique username index and the foreign keys of a task.
 */
module Store {
  import opened Wrappers
  import opened Domain
  import opened ErrorHandler

  class Database {
    var users: map<Id, User>
    var tasks: map<Id, Task>

    constructor (users: map<Id, User>, tasks: map<Id, Task>)
      ensures this.users == users && this.tasks == tasks
    {
      this.users := users;
      this.tasks := tasks;
    }

    /** Rows sit under their own primary key, ids are non-empty, usernames unique. */
    ghost predicate Valid()
      reads this
    {
      && (forall id :: id in users ==> users[id].id == id && id != "")
      && (forall a, b :: a in users && b in users && users[a].username == users[b].username ==> a == b)
      && (forall id :: id in tasks ==> tasks[id].id == id)
    }

    /** Every assignee of a task is an EMPLOYEE user (the data-model invariant the handlers keep). */
    ghost predicate AssigneesAreEmployees()
      reads this
    {
      forall id :: id in tasks && tasks[id].assignedToId.Some? ==> IsEmployeeId(users, tasks[id].assignedToId.value)
    }
  }

  /** The id names an existing user whose role is EMPLOYEE. */
  predicate IsEmployeeId(users: map<Id, User>, id: Id) {
    id in users && users[id].role == Employee
  }

  /** The foreign keys of a task row resolve to users. */
  predicate ForeignKeysResolve(users: map<Id, User>, t: Task) {
    t.createdById in users && (t.assignedToId.Some? ==> t.assignedToId.value in users)
  }

  /** The `data` of `prisma.task.update`: the columns to write (a due date may be written as null). */
  datatype UpdateFields = UpdateFields(
    title: Option<string>, description: Option<string>, status: Option<Status>,
    assignedToId: Option<Id>, dueDate: Option<Option<int>>)

  const NoFields := UpdateFields(None, None, None, None, None)

  /** `prisma.task.update`: the present columns are written and `updatedAt` is stamped. */
  function ApplyFields(t: Task, u: UpdateFields, now: int): (r: Task)
    ensures r.id == t.id && r.createdById == t.createdById && r.createdAt == t.createdAt && r.updatedAt == now
    ensures u == NoFields ==> r == t.(updatedAt := now)
  {
    t.(title := u.title.GetOr(t.title),
       description := if u.description.Some? then u.description else t.description,
       status := u.status.GetOr(t.status),
       assignedToId := if u.assignedToId.Some? then u.assignedToId else t.assignedToId,
       dueDate := u.dueDate.GetOr(t.dueDate),
       updatedAt := now)
  }

  /** What the store throws when a write breaks a foreign key. */
  const ForeignKeyViolation := OtherError(PrismaKnownError, "Foreign key constraint failed", Some("P2003"), None)

  ghost predicate UsernameTaken(users: map<Id, User>, name: string) {
    exists id :: id in users && users[id].username == name
  }

  /** The user with that username (unique when the store is valid). */
  ghost function UserNamed(users: map<Id, User>, name: string): (u: User)
    requires UsernameTaken(users, name)
    ensures u in users.Values && u.username == name
  {
    var id :| id in users && users[id].username == name; users[id]
  }

  /** `prisma.user.findUnique({ where: { username } })`. */
  method FindUserByUsername(db: Database, name: string) returns (u: Option<User>)
    requires db.Valid()
    ensures u.Some? <==> UsernameTaken(db.users, name)
    ensures u.Some? ==> u.value == UserNamed(db.users, name) && u.value.id in db.users && db.users[u.value.id] == u.value
  {
    if id :| id in db.users && db.users[id].username == name {
      u := Some(db.users[id]);
      ghost var other := UserNamed(db.users, name);
      assert other.id in db.users && db.users[other.id] == other;
    } else {
      u := None;
    }
  }
}
