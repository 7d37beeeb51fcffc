/**
 * The permission tests the task list uses to show the status selector and
 * the delete button. Its badge-class and display-name switches are the
 * same as those of module CheckStatus, which models both.
 */
module TaskList {
  import opened Wrappers
  import opened Domain
  import opened ClientTypes

  /** `canUpdateStatus`: only the employee the task is assigned to. */
  function CanUpdateStatus(user: Option<ClientUser>, task: ClientTask): (b: bool)
    ensures b <==> && user.Some? && user.value.role == Employee
                   && task.assignedTo.Some? && task.assignedTo.value.id == user.value.id
  {
    if user.Some? && user.value.role == Employee then
      task.assignedTo.Some? && task.assignedTo.value.id == user.value.id
    else false
  }

  /** `canDelete`: only the employer who created the task. */
  function CanDelete(user: Option<ClientUser>, task: ClientTask): (b: bool)
    ensures b <==> user.Some? && user.value.role == Employer && task.createdBy.id == user.value.id
  {
    match user
    case None => false
    case Some(u) => u.role == Employer && task.createdBy.id == u.id
  }

  /** No user sees both controls on the same task, and an unassigned task shows no status selector. */
  lemma ControlsExclusive(user: Option<ClientUser>, task: ClientTask)
    ensures !(CanUpdateStatus(user, task) && CanDelete(user, task))
    ensures task.assignedTo.None? ==> !CanUpdateStatus(user, task)
    ensures user.None? ==> !CanUpdateStatus(user, task) && !CanDelete(user, task)
  {
  }
}
