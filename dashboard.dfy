/**
 * The dashboard's task statistics: the status counts of the loaded tasks
 * and the completion rate, shown only when there is a task.
 */
module Dashboard {
  import opened Wrappers
  import opened Domain
  import opened Seqs
  import opened Rates
  import opened ClientTypes
  import opened FrontendTaskStore
  import UseSummary

  datatype Counts = Counts(totalTasks: nat, completedTasks: nat, inProgressTasks: nat, pendingTasks: nat)

  /** The counts split the tasks by status, and agree with the summary hook's `taskStats`. */
  function CountsOf(tasks: seq<ClientTask>): (c: Counts)
    ensures c.totalTasks == |tasks|
    ensures c.completedTasks == multiset(UseSummary.StatusesOf(tasks))[Completed]
    ensures c.inProgressTasks == multiset(UseSummary.StatusesOf(tasks))[InProgress]
    ensures c.pendingTasks == multiset(UseSummary.StatusesOf(tasks))[Pending]
    ensures c.completedTasks + c.inProgressTasks + c.pendingTasks == c.totalTasks
    ensures c.completedTasks <= c.totalTasks && c.inProgressTasks <= c.totalTasks && c.pendingTasks <= c.totalTasks
    ensures c.completedTasks == UseSummary.Stats(tasks).completed
    ensures c.inProgressTasks == UseSummary.Stats(tasks).inProgress
    ensures c.pendingTasks == UseSummary.Stats(tasks).pending
  {
    UseSummary.StatusCountsSum(tasks);
    UseSummary.StatusCount(tasks, Completed);
    UseSummary.StatusCount(tasks, InProgress);
    UseSummary.StatusCount(tasks, Pending);
    Counts(|tasks|, |Filter(tasks, HasStatus(Completed))|, |Filter(tasks, HasStatus(InProgress))|,
           |Filter(tasks, HasStatus(Pending))|)
  }

  /** The "Completion Rate" line: absent with no tasks, else the whole percent rounded half up. */
  function ShownRate(tasks: seq<ClientTask>): (r: Option<nat>)
    ensures r.None? <==> |tasks| == 0
    ensures r.Some? ==> r.value <= 100 && r.value == UseSummary.Stats(tasks).completionRate
    ensures r.Some? ==>
      var c := CountsOf(tasks);
      2 * c.totalTasks * r.value <= 200 * c.completedTasks + c.totalTasks < 2 * c.totalTasks * (r.value + 1)
  {
    var c := CountsOf(tasks);
    if c.totalTasks > 0 then Some(PercentRounded(c.completedTasks, c.totalTasks)) else None
  }

  /** When every task is completed the dashboard shows 100; with none completed, 0. */
  lemma ExtremeRates(tasks: seq<ClientTask>)
    requires |tasks| > 0
    ensures CountsOf(tasks).completedTasks == |tasks| ==> ShownRate(tasks) == Some(100)
    ensures CountsOf(tasks).completedTasks == 0 ==> ShownRate(tasks) == Some(0)
  {
    var c := CountsOf(tasks);
    if c.completedTasks == |tasks| {
      AllDone(|tasks|);
    }
    if c.completedTasks == 0 {
      NoneDone(|tasks|);
    }
  }
}
