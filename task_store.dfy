/**
 * The frontend task store: the task list, employees, summary, loading flag
 * and filters, replaced field by field through its actions, and the
 * filtered, sorted view the task list renders.
 */
module FrontendTaskStore {
  import opened Wrappers
  import opened Domain
  import opened Seqs
  import opened Text
  import opened ClientTypes

  /** One row of the employee summary as the client holds it; the rate is in hundredths of a percent. */
  datatype SummaryRow = SummaryRow(id: string, username: string, totalTasks: nat, completedTasks: nat, completionRate: nat)

  /** Whether a task passes the active assignee and status filters. */
  predicate Shown(f: ClientFilters, t: ClientTask) {
    && (Truthy(f.assignedToId) ==> t.assignedTo.Some? && t.assignedTo.value.id == f.assignedToId.value)
    && (f.status.Some? ==> t.status == f.status.value)
  }

  function ShownBy(f: ClientFilters): ClientTask -> bool {
    (t: ClientTask) => Shown(f, t)
  }

  function AssignedTo(id: string): ClientTask -> bool {
    (t: ClientTask) => t.assignedTo.Some? && t.assignedTo.value.id == id
  }

  function HasStatus(s: Status): ClientTask -> bool {
    (t: ClientTask) => t.status == s
  }

  function HasNotId(id: string): ClientTask -> bool {
    (t: ClientTask) => t.id != id
  }

  /** `a[sortBy]`: the sort key of a task, absent for a task with no due date. */
  function Key(t: ClientTask, f: SortField): Option<string> {
    match f
    case ByCreatedAt => Some(t.createdAt)
    case ByDueDate => t.dueDate
    case ByStatus => Some(StatusName(t.status))
  }

  /** Comparing two keys: an absent key compares equal to anything. */
  function KeyCompare(ka: Option<string>, kb: Option<string>): int {
    if ka.None? || kb.None? then 0 else if Less(ka.value, kb.value) then -1 else if Less(kb.value, ka.value) then 1 else 0
  }

  /** The comparator's verdict on two tasks; desc negates. */
  function Compare(a: ClientTask, b: ClientTask, f: SortField, o: SortOrder): int {
    var c := KeyCompare(Key(a, f), Key(b, f));
    if o == Asc then c else -c
  }

  /** The comparator of the view. */
  function Comparator(f: SortField, o: SortOrder): (ClientTask, ClientTask) -> int {
    (a: ClientTask, b: ClientTask) => Compare(a, b, f, o)
  }

  lemma CompareAntisymmetric(a: ClientTask, b: ClientTask, f: SortField, o: SortOrder)
    requires Key(a, f).Some? && Key(b, f).Some?
    ensures Compare(a, b, f, o) == -Compare(b, a, f, o)
  {
    var ka, kb := Key(a, f).value, Key(b, f).value;
    if Less(ka, kb) { LessAsymmetric(ka, kb); }
  }

  lemma CompareTransitive(a: ClientTask, b: ClientTask, c: ClientTask, f: SortField, o: SortOrder)
    requires Key(a, f).Some? && Key(b, f).Some? && Key(c, f).Some?
    requires Compare(a, b, f, o) <= 0 && Compare(b, c, f, o) <= 0
    ensures Compare(a, c, f, o) <= 0
  {
    var ka, kb, kc := Key(a, f).value, Key(b, f).value, Key(c, f).value;
    if Less(ka, kb) { LessAsymmetric(ka, kb); }
    if Less(kb, ka) { LessAsymmetric(kb, ka); }
    if Less(kb, kc) { LessAsymmetric(kb, kc); }
    if Less(kc, kb) { LessAsymmetric(kc, kb); }
    if o == Asc { KeyOrder(ka, kb, kc); } else { KeyOrder(kc, kb, ka); }
  }

  /** Where every task has its key, the comparator is a total preorder. */
  lemma ComparatorConsistent(f: SortField, o: SortOrder, xs: multiset<ClientTask>)
    requires forall t :: t in xs ==> Key(t, f).Some?
    ensures ConsistentOn(Comparator(f, o), xs)
  {
    var cmp := Comparator(f, o);
    forall a, b | a in xs && b in xs && cmp(a, b) >= 0
      ensures cmp(b, a) <= 0
    {
      CompareAntisymmetric(a, b, f, o);
    }
    forall a, b, c | a in xs && b in xs && c in xs && cmp(a, b) <= 0 && cmp(b, c) <= 0
      ensures cmp(a, c) <= 0
    {
      CompareTransitive(a, b, c, f, o);
    }
  }

  /** "Not after" on keys is transitive. */
  lemma KeyOrder(a: string, b: string, c: string)
    requires !Less(b, a) && !Less(c, b)
    ensures !Less(c, a)
  {
    if a != b && b != c {
      LessTotal(a, b);
      LessTotal(b, c);
      LessTransitive(a, b, c);
      LessAsymmetric(a, c);
    }
  }

  /**
   * With a task that has no due date among dated ones, sorting by due date
   * is not a consistent order: the undated task ties with both, the dated
   * ones do not tie, so the order of the result is left to the engine.
   */
  lemma UndatedTasksBreakTheOrder(x: ClientTask, y: ClientTask, u: ClientTask)
    requires x.dueDate == Some("2024-02-01") && y.dueDate == Some("2024-01-01") && u.dueDate.None?
    ensures !ConsistentOn(Comparator(ByDueDate, Asc), multiset{x, y, u})
  {
    assert Compare(x, y, ByDueDate, Asc) == 1 by {
      assert "2024-01-01" == "2024-0" + "1-01" && "2024-02-01" == "2024-0" + "2-01";
      LessAfterPrefix("2024-0", "1-01", "2-01");
      LessAsymmetric("2024-01-01", "2024-02-01");
    }
    assert Compare(x, u, ByDueDate, Asc) == 0 && Compare(u, y, ByDueDate, Asc) == 0;
    var cmp, xs := Comparator(ByDueDate, Asc), multiset{x, y, u};
    assert x in xs && y in xs && u in xs;
    assert cmp(x, u) <= 0 && cmp(u, y) <= 0 && cmp(x, y) > 0;
    BrokenTransitivity(cmp, xs, x, u, y);
  }

  /** The first index holding a task with the id, if any. */
  function FirstWithId(ts: seq<ClientTask>, id: string): (r: Option<nat>)
    ensures r.Some? ==> r.value < |ts| && ts[r.value].id == id && forall j :: 0 <= j < r.value ==> ts[j].id != id
    ensures r.None? ==> forall j :: 0 <= j < |ts| ==> ts[j].id != id
  {
    if ts == [] then None
    else if ts[0].id == id then Some(0)
    else match FirstWithId(ts[1..], id)
      case None => None
      case Some(k) => Some(k + 1)
  }

  class TaskStore {
    var tasks: seq<ClientTask>
    var employees: seq<ClientUser>
    var employeeSummary: seq<SummaryRow>
    var loading: bool
    var filters: ClientFilters

    /** The initial state: nothing loaded, no filters. */
    constructor ()
      ensures tasks == [] && employees == [] && employeeSummary == [] && !loading && filters == NoFilters
    {
      tasks := [];
      employees := [];
      employeeSummary := [];
      loading := false;
      filters := NoFilters;
    }

    method SetTasks(ts: seq<ClientTask>)
      modifies this`tasks
      ensures tasks == ts
    {
      tasks := ts;
    }

    /** `addTask` prepends. */
    method AddTask(t: ClientTask)
      modifies this`tasks
      ensures tasks == [t] + old(tasks)
    {
      tasks := [t] + tasks;
    }

    /** `updateTask`: the tasks with the id get the patch; length, order and every other task stay. */
    method UpdateTask(id: string, patch: TaskPatch)
      modifies this`tasks
      ensures |tasks| == |old(tasks)|
      ensures forall i :: 0 <= i < |tasks| ==> tasks[i] == if old(tasks)[i].id == id then Merge(old(tasks)[i], patch) else old(tasks)[i]
    {
      var ts := tasks;
      tasks := seq(|ts|, i requires 0 <= i < |ts| => if ts[i].id == id then Merge(ts[i], patch) else ts[i]);
    }

    /** `removeTask`: every task with the id goes; the rest keep their order. */
    method RemoveTask(id: string)
      modifies this`tasks
      ensures tasks == Filter(old(tasks), HasNotId(id))
      ensures forall t :: t in tasks <==> t in old(tasks) && t.id != id
    {
      FilterMembers(tasks, HasNotId(id));
      tasks := Filter(tasks, HasNotId(id));
    }

    method SetEmployees(es: seq<ClientUser>)
      modifies this`employees
      ensures employees == es
    {
      employees := es;
    }

    method SetEmployeeSummary(summary: seq<SummaryRow>)
      modifies this`employeeSummary
      ensures employeeSummary == summary
    {
      employeeSummary := summary;
    }

    method SetLoading(b: bool)
      modifies this`loading
      ensures loading == b
    {
      loading := b;
    }

    /** `setFilters`: the supplied keys overwrite, the others stay. */
    method SetFilters(p: FiltersPatch)
      modifies this`filters
      ensures filters == MergeFilters(old(filters), p)
    {
      filters := MergeFilters(filters, p);
    }

    method ClearFilters()
      modifies this`filters
      ensures filters == NoFilters
    {
      filters := NoFilters;
    }

    /**
     * `getFilteredTasks`: the tasks that pass the filters, in store order,
     * sorted when both sortBy and sortOrder are set. The store is not changed.
     */
    method GetFilteredTasks() returns (r: seq<ClientTask>)
      ensures forall t :: t in r <==> t in tasks && Shown(filters, t)
      ensures multiset(r) == multiset(Filter(tasks, ShownBy(filters)))
      ensures filters.sortBy.None? || filters.sortOrder.None? ==> r == Filter(tasks, ShownBy(filters))
      ensures filters.sortBy.Some? && filters.sortOrder.Some? && (forall t :: t in r ==> Key(t, filters.sortBy.value).Some?) ==>
        Sorted(r, Comparator(filters.sortBy.value, filters.sortOrder.value))
    {
      var filteredTasks := tasks;
      if Truthy(filters.assignedToId) {
        filteredTasks := Filter(filteredTasks, AssignedTo(filters.assignedToId.value));
      }
      if filters.status.Some? {
        filteredTasks := Filter(filteredTasks, HasStatus(filters.status.value));
      }
      FilteredIsShown(tasks, filters);
      ShownView(tasks, filters);
      assert filteredTasks == Filter(tasks, ShownBy(filters));
      if filters.sortBy.Some? && filters.sortOrder.Some? {
        SortedView(filteredTasks, filters.sortBy.value, filters.sortOrder.value);
        filteredTasks := Sort(filteredTasks, Comparator(filters.sortBy.value, filters.sortOrder.value));
      }
      r := filteredTasks;
    }

    /** `getTaskById`: the first task with the id, or none. */
    function GetTaskById(id: string): (r: Option<ClientTask>)
      reads this
      ensures r.None? <==> forall t :: t in tasks ==> t.id != id
      ensures r.Some? ==> exists i :: 0 <= i < |tasks| && tasks[i] == r.value && r.value.id == id && forall j :: 0 <= j < i ==> tasks[j].id != id
    {
      match FirstWithId(tasks, id)
      case None => None
      case Some(i) => Some(tasks[i])
    }

    /** `getTasksByStatus`: the tasks with the status, in store order. */
    function GetTasksByStatus(s: Status): (r: seq<ClientTask>)
      reads this
      ensures forall t :: t in r <==> t in tasks && t.status == s
      ensures multiset(r) == multiset(Filter(tasks, HasStatus(s)))
      ensures r == Pick(tasks, KeptIndices(tasks, HasStatus(s)))
    {
      FilterKeepsOrder(tasks, HasStatus(s));
      Filter(tasks, HasStatus(s))
    }
  }

  /** Sorting the view keeps its tasks, and orders them when every task has the key. */
  lemma SortedView(s: seq<ClientTask>, f: SortField, o: SortOrder)
    ensures multiset(Sort(s, Comparator(f, o))) == multiset(s)
    ensures forall t :: t in Sort(s, Comparator(f, o)) <==> t in s
    ensures (forall t :: t in s ==> Key(t, f).Some?) ==> Sorted(Sort(s, Comparator(f, o)), Comparator(f, o))
  {
    var cmp := Comparator(f, o);
    SortMultiset(s, cmp);
    forall t ensures t in Sort(s, cmp) <==> t in s {
      assert t in Sort(s, cmp) <==> t in multiset(Sort(s, cmp));
      assert t in s <==> t in multiset(s);
    }
    if forall t :: t in s ==> Key(t, f).Some? {
      ComparatorConsistent(f, o, multiset(s));
      SortSorted(s, cmp);
    }
  }

  /** The view holds exactly the tasks the filters show. */
  lemma ShownView(ts: seq<ClientTask>, f: ClientFilters)
    ensures forall t :: t in Filter(ts, ShownBy(f)) <==> t in ts && Shown(f, t)
  {
    FilterMembers(ts, ShownBy(f));
  }

  /** The two filter steps of the view select exactly the tasks Shown admits. */
  lemma FilteredIsShown(ts: seq<ClientTask>, f: ClientFilters)
    ensures var a := if Truthy(f.assignedToId) then Filter(ts, AssignedTo(f.assignedToId.value)) else ts;
      (if f.status.Some? then Filter(a, HasStatus(f.status.value)) else a) == Filter(ts, ShownBy(f))
  {
    if Truthy(f.assignedToId) && f.status.Some? {
      FilterBoth(ts, AssignedTo(f.assignedToId.value), HasStatus(f.status.value), ShownBy(f));
    } else if Truthy(f.assignedToId) {
      FilterEquiv(ts, AssignedTo(f.assignedToId.value), ShownBy(f));
    } else if f.status.Some? {
      FilterEquiv(ts, HasStatus(f.status.value), ShownBy(f));
    } else {
      FilterAll(ts, ShownBy(f));
    }
  }
}
