/**
 * The `useSummary` hook: the per-employee breakdown of the loaded tasks
 * (built by one pass that fills a Map), the overall task statistics, and
 * the employee count. Rates are in hundredths of a percent, the overall
 * rate in whole percent.
 */
module UseSummary {
  import opened Wrappers
  import opened Domain
  import opened Seqs
  import opened Rates
  import opened ClientTypes
  import opened FrontendTaskStore

  /** The assignee ids of the tasks, each once, in order of first appearance. */
  function AssigneeIds(ts: seq<ClientTask>): seq<string>
    decreases |ts|
  {
    if ts == [] then []
    else
      var prev := AssigneeIds(ts[..|ts| - 1]);
      var t := ts[|ts| - 1];
      if t.assignedTo.Some? && t.assignedTo.value.id !in prev then prev + [t.assignedTo.value.id] else prev
  }

  /** Exactly the ids some task is assigned to, with no repeats. */
  lemma {:induction false} AssigneeIdsSpec(ts: seq<ClientTask>)
    ensures forall id :: id in AssigneeIds(ts) <==> exists i :: 0 <= i < |ts| && AssignedTo(id)(ts[i])
    ensures forall i, j :: 0 <= i < j < |AssigneeIds(ts)| ==> AssigneeIds(ts)[i] != AssigneeIds(ts)[j]
  {
    if ts != [] {
      var init := ts[..|ts| - 1];
      AssigneeIdsSpec(init);
      forall id ensures id in AssigneeIds(ts) <==> exists i :: 0 <= i < |ts| && AssignedTo(id)(ts[i]) {
        if id in AssigneeIds(init) {
          var i :| 0 <= i < |init| && AssignedTo(id)(init[i]);
          assert ts[i] == init[i];
        }
        if exists i :: 0 <= i < |ts| && AssignedTo(id)(ts[i]) {
          var i :| 0 <= i < |ts| && AssignedTo(id)(ts[i]);
          if i < |init| {
            assert AssignedTo(id)(init[i]);
          }
        }
      }
    }
  }

  /** The username on the first task assigned to the id. */
  function FirstUsername(ts: seq<ClientTask>, id: string): string {
    if ts == [] then ""
    else if AssignedTo(id)(ts[0]) then ts[0].assignedTo.value.username
    else FirstUsername(ts[1..], id)
  }

  /** Later tasks do not change the first username once the id has appeared. */
  lemma {:induction false} FirstUsernameStable(ts: seq<ClientTask>, t: ClientTask, id: string)
    requires exists i :: 0 <= i < |ts| && AssignedTo(id)(ts[i])
    ensures FirstUsername(ts + [t], id) == FirstUsername(ts, id)
  {
    if !AssignedTo(id)(ts[0]) {
      var i :| 0 <= i < |ts| && AssignedTo(id)(ts[i]);
      assert i > 0 && AssignedTo(id)(ts[1..][i - 1]);
      assert (ts + [t])[1..] == ts[1..] + [t];
      FirstUsernameStable(ts[1..], t, id);
    }
  }

  /** The first username of an id that appears for the first time in the last task. */
  lemma {:induction false} FirstUsernameNew(ts: seq<ClientTask>, t: ClientTask, id: string)
    requires forall i :: 0 <= i < |ts| ==> !AssignedTo(id)(ts[i])
    requires AssignedTo(id)(t)
    ensures FirstUsername(ts + [t], id) == t.assignedTo.value.username
  {
    if ts != [] {
      assert (ts + [t])[1..] == ts[1..] + [t];
      FirstUsernameNew(ts[1..], t, id);
    }
  }

  function CompletedFor(id: string): ClientTask -> bool {
    (t: ClientTask) => AssignedTo(id)(t) && t.status == Completed
  }

  /** One entry of `employeeMap` while the pass runs. */
  datatype Counter = Counter(id: string, username: string, totalTasks: nat, completedTasks: nat)

  /** The map entry of one assignee after the tasks seen so far. */
  ghost predicate CounterOf(ts: seq<ClientTask>, id: string, c: Counter) {
    && c.id == id && c.username == FirstUsername(ts, id)
    && c.totalTasks == |Filter(ts, AssignedTo(id))| && c.completedTasks == |Filter(ts, CompletedFor(id))|
    && 1 <= c.totalTasks && c.completedTasks <= c.totalTasks
  }

  /** One row of the breakdown: the assignee's first username, their counts and their rate. */
  ghost predicate RowOf(ts: seq<ClientTask>, id: string, r: SummaryRow) {
    && r.id == id && r.username == FirstUsername(ts, id)
    && r.totalTasks == |Filter(ts, AssignedTo(id))| && r.completedTasks == |Filter(ts, CompletedFor(id))|
    && 1 <= r.totalTasks && r.completedTasks <= r.totalTasks
    && r.completionRate == PercentHundredths(r.completedTasks, r.totalTasks)
  }

  /** Adding one task to the counters of an id it is assigned to. */
  lemma CountStep(ts: seq<ClientTask>, t: ClientTask, p: ClientTask -> bool)
    ensures |Filter(ts + [t], p)| == |Filter(ts, p)| + (if p(t) then 1 else 0)
  {
    FilterAppend(ts, [t], p);
  }

  /** The state of the pass after the tasks ts: insertion order and one counter per assignee. */
  ghost predicate PassState(ts: seq<ClientTask>, m: map<string, Counter>, order: seq<string>) {
    && order == AssigneeIds(ts)
    && (forall id :: id in m <==> id in order)
    && (forall id :: id in m ==> CounterOf(ts, id, m[id]))
  }

  /** An id no task is assigned to has empty counts. */
  lemma NoTasksNoCount(ts: seq<ClientTask>, id: string)
    requires id !in AssigneeIds(ts)
    ensures |Filter(ts, AssignedTo(id))| == 0 && |Filter(ts, CompletedFor(id))| == 0
  {
    AssigneeIdsSpec(ts);
    FilterNone(ts, AssignedTo(id));
    FilterNone(ts, CompletedFor(id));
  }

  /** The entry after counting task t: one more task, and one more completed if t is. */
  function Bump(c: Counter, t: ClientTask): (r: Counter)
    ensures r.id == c.id && r.username == c.username && r.totalTasks == c.totalTasks + 1
    ensures r.completedTasks == c.completedTasks + (if t.status == Completed then 1 else 0)
  {
    c.(totalTasks := c.totalTasks + 1,
       completedTasks := c.completedTasks + (if t.status == Completed then 1 else 0))
  }

  /** An id with a counted task has a task assigned to it. */
  lemma Appears(ts: seq<ClientTask>, id: string)
    requires |Filter(ts, AssignedTo(id))| >= 1
    ensures exists i :: 0 <= i < |ts| && AssignedTo(id)(ts[i])
  {
    var f := Filter(ts, AssignedTo(id));
    FilterMembers(ts, AssignedTo(id));
    assert f[0] in ts && AssignedTo(id)(f[0]);
  }

  /** An id outside the order has no task assigned to it. */
  lemma NotAppears(ts: seq<ClientTask>, id: string)
    requires id !in AssigneeIds(ts)
    ensures forall i :: 0 <= i < |ts| ==> !AssignedTo(id)(ts[i])
  {
    AssigneeIdsSpec(ts);
  }

  /** How the first-appearance order grows by one task. */
  lemma OrderStep(ts: seq<ClientTask>, t: ClientTask)
    ensures AssigneeIds(ts + [t]) ==
      if t.assignedTo.Some? && t.assignedTo.value.id !in AssigneeIds(ts) then AssigneeIds(ts) + [t.assignedTo.value.id]
      else AssigneeIds(ts)
  {
    var ts' := ts + [t];
    assert ts'[..|ts'| - 1] == ts;
  }

  /** The entry of an id the new task is not assigned to stays right. */
  lemma OtherEntryStep(ts: seq<ClientTask>, t: ClientTask, id: string, c: Counter)
    requires CounterOf(ts, id, c) && !AssignedTo(id)(t)
    ensures CounterOf(ts + [t], id, c)
  {
    CountStep(ts, t, AssignedTo(id));
    CountStep(ts, t, CompletedFor(id));
    Appears(ts, id);
    FirstUsernameStable(ts, t, id);
  }

  /** The counted entry of the new task's assignee. */
  lemma OwnEntryStep(ts: seq<ClientTask>, t: ClientTask, base: Counter)
    requires t.assignedTo.Some?
    requires CounterOf(ts, t.assignedTo.value.id, base)
      || ((forall i :: 0 <= i < |ts| ==> !AssignedTo(t.assignedTo.value.id)(ts[i]))
          && base == Counter(t.assignedTo.value.id, t.assignedTo.value.username, 0, 0))
    ensures CounterOf(ts + [t], t.assignedTo.value.id, Bump(base, t))
  {
    var id := t.assignedTo.value.id;
    CountStep(ts, t, AssignedTo(id));
    CountStep(ts, t, CompletedFor(id));
    if CounterOf(ts, id, base) {
      Appears(ts, id);
      FirstUsernameStable(ts, t, id);
    } else {
      FilterNone(ts, AssignedTo(id));
      FilterNone(ts, CompletedFor(id));
      FirstUsernameNew(ts, t, id);
    }
  }

  /** A task with no assignee leaves the pass state as it is. */
  lemma SkipStep(ts: seq<ClientTask>, t: ClientTask, m: map<string, Counter>, order: seq<string>)
    requires PassState(ts, m, order) && t.assignedTo.None?
    ensures PassState(ts + [t], m, order)
  {
    var ts' := ts + [t];
    OrderStep(ts, t);
    forall id | id in m
      ensures CounterOf(ts', id, m[id])
    {
      OtherEntryStep(ts, t, id, m[id]);
    }
  }

  /** The entries after counting a task for its assignee, whose entry was `base`. */
  lemma CountedEntries(ts: seq<ClientTask>, t: ClientTask, m: map<string, Counter>, base: Counter, m': map<string, Counter>)
    requires t.assignedTo.Some? && m' == m[t.assignedTo.value.id := Bump(base, t)]
    requires forall id :: id in m ==> CounterOf(ts, id, m[id])
    requires t.assignedTo.value.id in m ==> base == m[t.assignedTo.value.id]
    requires t.assignedTo.value.id !in m ==>
      && base == Counter(t.assignedTo.value.id, t.assignedTo.value.username, 0, 0)
      && forall i :: 0 <= i < |ts| ==> !AssignedTo(t.assignedTo.value.id)(ts[i])
    ensures forall id :: id in m' ==> CounterOf(ts + [t], id, m'[id])
  {
    var tid := t.assignedTo.value.id;
    forall id | id in m'
      ensures CounterOf(ts + [t], id, m'[id])
    {
      if id == tid {
        OwnEntryStep(ts, t, base);
      } else {
        OtherEntryStep(ts, t, id, m[id]);
      }
    }
  }

  /** The order and the keys after counting a task for its assignee. */
  lemma CountedKeys(ts: seq<ClientTask>, t: ClientTask, m: map<string, Counter>, order: seq<string>,
                    m': map<string, Counter>, order': seq<string>)
    requires order == AssigneeIds(ts) && (forall id :: id in m <==> id in order)
    requires t.assignedTo.Some? && m'.Keys == m.Keys + {t.assignedTo.value.id}
    requires t.assignedTo.value.id in m ==> order' == order
    requires t.assignedTo.value.id !in m ==> order' == order + [t.assignedTo.value.id]
    ensures order' == AssigneeIds(ts + [t])
    ensures forall id :: id in m' <==> id in order'
  {
    OrderStep(ts, t);
  }

  /** Counting a task for its assignee, whose entry was `base` (a zero entry for a new assignee). */
  lemma CountedStep(ts: seq<ClientTask>, t: ClientTask, m: map<string, Counter>, order: seq<string>,
                    base: Counter, order': seq<string>)
    requires PassState(ts, m, order) && t.assignedTo.Some?
    requires t.assignedTo.value.id in m ==> base == m[t.assignedTo.value.id] && order' == order
    requires t.assignedTo.value.id !in m ==>
      && base == Counter(t.assignedTo.value.id, t.assignedTo.value.username, 0, 0)
      && order' == order + [t.assignedTo.value.id]
    ensures PassState(ts + [t], m[t.assignedTo.value.id := Bump(base, t)], order')
  {
    var tid := t.assignedTo.value.id;
    var m' := m[tid := Bump(base, t)];
    assert tid !in m ==> forall i :: 0 <= i < |ts| ==> !AssignedTo(tid)(ts[i]) by {
      if tid !in m {
        NotAppears(ts, tid);
      }
    }
    assert m'.Keys == m.Keys + {tid};
    CountedKeys(ts, t, m, order, m', order');
    CountedEntries(ts, t, m, base, m');
  }

  /** The `forEach` callback on one task: a new assignee gets a zero entry, then the entry is counted. */
  method Visit(ghost seen: seq<ClientTask>, task: ClientTask, m: map<string, Counter>, order: seq<string>)
    returns (employeeMap: map<string, Counter>, order': seq<string>)
    requires PassState(seen, m, order)
    ensures PassState(seen + [task], employeeMap, order')
  {
    employeeMap, order' := m, order;
    if task.assignedTo.Some? {
      var employeeId := task.assignedTo.value.id;
      if employeeId !in employeeMap {
        employeeMap := employeeMap[employeeId := Counter(employeeId, task.assignedTo.value.username, 0, 0)];
        order' := order' + [employeeId];
      }
      var employee := employeeMap[employeeId];
      ghost var base := employee;
      employee := employee.(totalTasks := employee.totalTasks + 1);
      if task.status == Completed {
        employee := employee.(completedTasks := employee.completedTasks + 1);
      }
      employeeMap := employeeMap[employeeId := employee];
      assert employee == Bump(base, task);
      assert employeeMap == m[employeeId := employee];
      CountedStep(seen, task, m, order, base, order');
    } else {
      SkipStep(seen, task, m, order);
    }
  }

  /** `employeeSummary`: one pass over the tasks filling the map, then the rows in insertion order. */
  method EmployeeSummary(tasks: seq<ClientTask>) returns (rows: seq<SummaryRow>)
    ensures |rows| == |AssigneeIds(tasks)|
    ensures forall j :: 0 <= j < |rows| ==> RowOf(tasks, AssigneeIds(tasks)[j], rows[j])
  {
    var employeeMap: map<string, Counter> := map[];
    var order: seq<string> := [];
    var i := 0;
    while i < |tasks|
      invariant 0 <= i <= |tasks|
      invariant PassState(tasks[..i], employeeMap, order)
    {
      assert tasks[..i + 1] == tasks[..i] + [tasks[i]];
      employeeMap, order := Visit(tasks[..i], tasks[i], employeeMap, order);
      i := i + 1;
    }
    assert tasks[..i] == tasks;
    rows := seq(|order|, k requires 0 <= k < |order| => WithRate(employeeMap[order[k]]));
    RowsFromPass(tasks, employeeMap, order);
  }

  /** The rows the `.map` builds from a finished pass. */
  lemma RowsFromPass(ts: seq<ClientTask>, m: map<string, Counter>, order: seq<string>)
    requires PassState(ts, m, order)
    ensures forall k :: 0 <= k < |order| ==> order[k] in m && RowOf(ts, order[k], WithRate(m[order[k]]))
  {
  }

  /** The `.map` over the map's values: the counter and its rate, 0 for a counter with no tasks. */
  function WithRate(c: Counter): (r: SummaryRow)
    ensures r.id == c.id && r.username == c.username
    ensures r.totalTasks == c.totalTasks && r.completedTasks == c.completedTasks
    ensures c.totalTasks > 0 ==> r.completionRate == PercentHundredths(c.completedTasks, c.totalTasks)
    ensures c.totalTasks == 0 ==> r.completionRate == 0
  {
    var rate := if c.totalTasks > 0 then PercentHundredths(c.completedTasks, c.totalTasks) else 0;
    SummaryRow(c.id, c.username, c.totalTasks, c.completedTasks, rate)
  }

  datatype TaskStats = TaskStats(total: nat, completed: nat, inProgress: nat, pending: nat, completionRate: nat)

  /** The three status counts split the tasks. */
  lemma {:induction false} StatusCountsSum(ts: seq<ClientTask>)
    ensures |Filter(ts, HasStatus(Completed))| + |Filter(ts, HasStatus(InProgress))| + |Filter(ts, HasStatus(Pending))| == |ts|
  {
    if ts != [] {
      StatusCountsSum(ts[1..]);
    }
  }

  /** The status of each task, in order. */
  function StatusesOf(ts: seq<ClientTask>): (r: seq<Status>)
    ensures |r| == |ts| && forall i :: 0 <= i < |ts| ==> r[i] == ts[i].status
  {
    seq(|ts|, i requires 0 <= i < |ts| => ts[i].status)
  }

  /** Filtering by a status keeps as many tasks as hold that status. */
  lemma {:induction false} StatusCount(ts: seq<ClientTask>, st: Status)
    ensures |Filter(ts, HasStatus(st))| == multiset(StatusesOf(ts))[st]
  {
    if ts != [] {
      StatusCount(ts[1..], st);
      assert StatusesOf(ts) == [ts[0].status] + StatusesOf(ts[1..]);
      assert multiset(StatusesOf(ts)) == multiset{ts[0].status} + multiset(StatusesOf(ts[1..]));
      assert |Filter(ts, HasStatus(st))| == (if ts[0].status == st then 1 else 0) + |Filter(ts[1..], HasStatus(st))|;
    }
  }

  /** `taskStats`: every task counts, assigned or not; the rate is rounded to a whole percent. */
  function Stats(ts: seq<ClientTask>): (s: TaskStats)
    ensures s.total == |ts|
    ensures s.completed == multiset(StatusesOf(ts))[Completed]
    ensures s.inProgress == multiset(StatusesOf(ts))[InProgress]
    ensures s.pending == multiset(StatusesOf(ts))[Pending]
    ensures s.completed + s.inProgress + s.pending == s.total
    ensures s.completionRate <= 100 && (s.total == 0 ==> s.completionRate == 0)
    ensures s.total > 0 ==> 2 * s.total * s.completionRate <= 200 * s.completed + s.total < 2 * s.total * (s.completionRate + 1)
  {
    StatusCountsSum(ts);
    StatusCount(ts, Completed);
    StatusCount(ts, InProgress);
    StatusCount(ts, Pending);
    var total := |ts|;
    var completed := |Filter(ts, HasStatus(Completed))|;
    TaskStats(total, completed, |Filter(ts, HasStatus(InProgress))|, |Filter(ts, HasStatus(Pending))|,
              PercentRounded(completed, total))
  }

  datatype SummaryData = SummaryData(employeeSummary: seq<SummaryRow>, taskStats: TaskStats, totalEmployees: nat)

  /** `useSummary()` over the store's tasks. */
  method Summary(tasks: seq<ClientTask>) returns (d: SummaryData)
    ensures d.totalEmployees == |d.employeeSummary| == |AssigneeIds(tasks)|
    ensures forall j :: 0 <= j < |d.employeeSummary| ==> RowOf(tasks, AssigneeIds(tasks)[j], d.employeeSummary[j])
    ensures d.taskStats == Stats(tasks)
  {
    var employeeSummary := EmployeeSummary(tasks);
    d := SummaryData(employeeSummary, Stats(tasks), |employeeSummary|);
  }
}
