/**
 * The zod schemas for task bodies, route parameters and list queries. Each
 * parser accepts exactly the inputs its schema accepts and returns the
 * parsed value, with the query defaults filled in. `parses` stands for
 * "`new Date(s)` is a valid date".
 */
module TaskSchemas {
  import opened Wrappers
  import opened Domain
  import opened Text
  import opened Requests
  import opened TaskPolicy

  /** `/^c[a-z0-9]{24}$/` */
  function IsCuid(s: string): (b: bool)
    ensures b <==> |s| == 25 && s[0] == 'c' && forall i :: 1 <= i < 25 ==> IsLowerAlnum(s[i])
  {
    |s| == 25 && s[0] == 'c' && AllChars(s[1..], IsLowerAlnum)
  }

  /** `/^\d{4}-\d{2}-\d{2}$/` */
  predicate DateShape(s: string) {
    && |s| == 10 && s[4] == '-' && s[7] == '-'
    && IsDigit(s[0]) && IsDigit(s[1]) && IsDigit(s[2]) && IsDigit(s[3])
    && IsDigit(s[5]) && IsDigit(s[6]) && IsDigit(s[8]) && IsDigit(s[9])
  }

  /** A date string: the shape, and a date that parses. */
  predicate DateString(s: string, parses: string -> bool) {
    DateShape(s) && parses(s)
  }

  /** An optional field passes when it is missing or its value passes. */
  predicate OptionalOk(f: Option<string>, ok: string -> bool) {
    f.None? || ok(f.value)
  }

  /** `min(1).max(200)`, in UTF-16 code units. */
  predicate TitleOk(t: string) { 1 <= Utf16Length(t) <= 200 }

  /** `max(1000)`, in UTF-16 code units. */
  predicate DescriptionOk(d: string) { Utf16Length(d) <= 1000 }

  /** `createTaskSchema`: the body as CreateTaskData, or None when any field fails. */
  function ParseCreateBody(b: RawTaskBody, parses: string -> bool): (r: Option<CreateTaskData>)
    ensures r.Some? <==>
      && b.title.Some? && TitleOk(b.title.value)
      && OptionalOk(b.description, DescriptionOk)
      && OptionalOk(b.assignedToId, IsCuid)
      && OptionalOk(b.dueDate, (d: string) => DateString(d, parses))
    ensures r.Some? ==> r.value == CreateTaskData(b.title.value, b.description, b.assignedToId, b.dueDate)
  {
    if b.title.Some? && TitleOk(b.title.value) && OptionalOk(b.description, DescriptionOk)
       && OptionalOk(b.assignedToId, IsCuid) && OptionalOk(b.dueDate, (d: string) => DateString(d, parses))
    then Some(CreateTaskData(b.title.value, b.description, b.assignedToId, b.dueDate))
    else None
  }

  /** `updateTaskSchema`: every field optional, status one of the three names. */
  function ParseUpdateBody(b: RawTaskBody, parses: string -> bool): (r: Option<UpdateTaskData>)
    ensures r.Some? <==>
      && OptionalOk(b.title, TitleOk)
      && OptionalOk(b.description, DescriptionOk)
      && OptionalOk(b.status, (s: string) => ParseStatus(s).Some?)
      && OptionalOk(b.assignedToId, IsCuid)
      && OptionalOk(b.dueDate, (d: string) => DateString(d, parses))
    ensures r.Some? ==>
      && r.value.title == b.title && r.value.description == b.description
      && r.value.assignedToId == b.assignedToId && r.value.dueDate == b.dueDate
      && (r.value.status.Some? <==> b.status.Some?)
      && (r.value.status.Some? ==> StatusName(r.value.status.value) == b.status.value)
  {
    if OptionalOk(b.title, TitleOk) && OptionalOk(b.description, DescriptionOk)
       && OptionalOk(b.status, (s: string) => ParseStatus(s).Some?)
       && OptionalOk(b.assignedToId, IsCuid) && OptionalOk(b.dueDate, (d: string) => DateString(d, parses))
    then Some(UpdateTaskData(b.title, b.description,
                             if b.status.Some? then ParseStatus(b.status.value) else None,
                             b.assignedToId, b.dueDate))
    else None
  }

  /** `taskParamSchema`: the route id must be a cuid. */
  function ParseTaskParam(id: string): (r: Option<Id>)
    ensures r.Some? <==> IsCuid(id)
    ensures r.Some? ==> r.value == id && id != ""
  {
    if IsCuid(id) then Some(id) else None
  }

  /** `taskQuerySchema`: optional assignee and status; sortBy and sortOrder default to createdAt and desc. */
  function ParseTaskQuery(q: RawQuery): (r: Option<TaskFilters>)
    ensures r.Some? <==>
      && OptionalOk(q.assignedToId, IsCuid)
      && OptionalOk(q.status, (s: string) => ParseStatus(s).Some?)
      && OptionalOk(q.sortBy, (s: string) => ParseSortField(s).Some?)
      && OptionalOk(q.sortOrder, (s: string) => ParseSortOrder(s).Some?)
    ensures r.Some? ==> r.value.sortBy.Some? && r.value.sortOrder.Some?
    ensures r.Some? && q.sortBy.None? ==> r.value.sortBy == Some(ByCreatedAt)
    ensures r.Some? && q.sortOrder.None? ==> r.value.sortOrder == Some(Desc)
    ensures r.Some? ==> r.value.assignedToId == q.assignedToId
  {
    var status := if q.status.Some? then ParseStatus(q.status.value) else None;
    var sortBy := if q.sortBy.Some? then ParseSortField(q.sortBy.value) else Some(ByCreatedAt);
    var sortOrder := if q.sortOrder.Some? then ParseSortOrder(q.sortOrder.value) else Some(Desc);
    if OptionalOk(q.assignedToId, IsCuid) && (q.status.None? || status.Some?) && sortBy.Some? && sortOrder.Some?
    then Some(TaskFilters(q.assignedToId, status, sortBy, sortOrder))
    else None
  }

  /** The query string a client sends for the given filters. */
  function QueryOf(f: TaskFilters): RawQuery {
    RawQuery(f.assignedToId,
             if f.status.Some? then Some(StatusName(f.status.value)) else None,
             if f.sortBy.Some? then Some(SortFieldName(f.sortBy.value)) else None,
             if f.sortOrder.Some? then Some(SortOrderName(f.sortOrder.value)) else None)
  }

  /**
   * Parsing the query of any filters gives the filters back with the
   * service's own defaults for the order filled in: the schema defaults
   * and the `orderBy` fallback agree.
   */
  lemma QueryRoundTrip(f: TaskFilters)
    requires OptionalOk(f.assignedToId, IsCuid)
    ensures ParseTaskQuery(QueryOf(f)) == Some(f.(sortBy := Some(OrderField(f)), sortOrder := Some(OrderDirection(f))))
  {
    NamesRoundTrip(Employer, f.status.GetOr(Pending), f.sortBy.GetOr(ByCreatedAt), f.sortOrder.GetOr(Desc));
  }

  /** The shape alone does not make a date string: `2024-13-45` has it, and is refused unless it parses. */
  lemma ShapeIsNotEnough(parses: string -> bool)
    requires !parses("2024-13-45")
    ensures DateShape("2024-13-45") && !DateString("2024-13-45", parses)
  {
  }
}
