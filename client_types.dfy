/**
 * The frontend's view of the data: tasks as the API returns them (dates as
 * strings, creator and assignee as {id, username}), partial updates with
 * JavaScript's object-spread semantics, and the list filters.
 */
module ClientTypes {
  import opened Wrappers
  import opened Domain

  datatype Person = Person(id: string, username: string)

  datatype ClientUser = ClientUser(id: string, username: string, role: Role, createdAt: Option<string>)

  datatype ClientTask = ClientTask(
    id: string, title: string, description: Option<string>, status: Status, dueDate: Option<string>,
    createdAt: string, updatedAt: string, createdBy: Person, assignedTo: Option<Person>)

  /**
   * A `Partial<Task>`: None is a key that is not there; for an optional
   * field, Some(None) is a key present with the value `undefined`.
   */
  datatype TaskPatch = TaskPatch(
    id: Option<string>, title: Option<string>, description: Option<Option<string>>, status: Option<Status>,
    dueDate: Option<Option<string>>, createdAt: Option<string>, updatedAt: Option<string>,
    createdBy: Option<Person>, assignedTo: Option<Option<Person>>)

  const EmptyPatch := TaskPatch(None, None, None, None, None, None, None, None, None)

  /** `{ ...task, ...patch }`: every key present in the patch wins. */
  function Merge(t: ClientTask, p: TaskPatch): ClientTask {
    ClientTask(
      p.id.GetOr(t.id), p.title.GetOr(t.title), p.description.GetOr(t.description), p.status.GetOr(t.status),
      p.dueDate.GetOr(t.dueDate), p.createdAt.GetOr(t.createdAt), p.updatedAt.GetOr(t.updatedAt),
      p.createdBy.GetOr(t.createdBy), p.assignedTo.GetOr(t.assignedTo))
  }

  /** The empty patch changes nothing, and applying a patch twice is applying it once. */
  lemma MergeLaws(t: ClientTask, p: TaskPatch)
    ensures Merge(t, EmptyPatch) == t
    ensures Merge(Merge(t, p), p) == Merge(t, p)
  {
  }

  /** A status-only patch, as a status update sends, changes the status and nothing else. */
  lemma StatusPatchChangesOnlyStatus(t: ClientTask, s: Status)
    ensures Merge(t, EmptyPatch.(status := Some(s))) == t.(status := s)
  {
  }

  datatype ClientFilters = ClientFilters(
    assignedToId: Option<string>, status: Option<Status>, sortBy: Option<SortField>, sortOrder: Option<SortOrder>)

  const NoFilters := ClientFilters(None, None, None, None)

  /** A `Partial<TaskFilters>`, with Some(None) for a key present as `undefined`. */
  datatype FiltersPatch = FiltersPatch(
    assignedToId: Option<Option<string>>, status: Option<Option<Status>>,
    sortBy: Option<Option<SortField>>, sortOrder: Option<Option<SortOrder>>)

  /** `{ ...filters, ...patch }` */
  function MergeFilters(f: ClientFilters, p: FiltersPatch): (r: ClientFilters)
    ensures p.assignedToId.Some? ==> r.assignedToId == p.assignedToId.value
    ensures p.assignedToId.None? ==> r.assignedToId == f.assignedToId
    ensures p.status.Some? ==> r.status == p.status.value
    ensures p.status.None? ==> r.status == f.status
    ensures p.sortBy.Some? ==> r.sortBy == p.sortBy.value
    ensures p.sortBy.None? ==> r.sortBy == f.sortBy
    ensures p.sortOrder.Some? ==> r.sortOrder == p.sortOrder.value
    ensures p.sortOrder.None? ==> r.sortOrder == f.sortOrder
  {
    ClientFilters(p.assignedToId.GetOr(f.assignedToId), p.status.GetOr(f.status),
                  p.sortBy.GetOr(f.sortBy), p.sortOrder.GetOr(f.sortOrder))
  }

  /** Merging the same patch again changes nothing. */
  lemma MergeFiltersIdempotent(f: ClientFilters, p: FiltersPatch)
    ensures MergeFilters(MergeFilters(f, p), p) == MergeFilters(f, p)
  {
  }
}
