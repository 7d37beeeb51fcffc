/**
 * The express-validator rule sets used by the older controllers. Each rule
 * set yields the list of field errors `validationResult` reports, in chain
 * order; a missing field is validated as the empty string unless its chain
 * is `optional()`. `iso` stands for the ISO 8601 date check.
 */
module Validation {
  import opened Wrappers
  import opened Domain
  import opened Text
  import opened Requests
  import TaskSchemas
  import AuthSchemas

  datatype FieldError = FieldError(path: string, msg: string)

  /** One validator of a chain: no error when it passes, else its message. */
  function Check(ok: bool, path: string, msg: string): (r: seq<FieldError>)
    ensures r == [] <==> ok
  {
    if ok then [] else [FieldError(path, msg)]
  }

  /** The value a non-optional chain validates: `undefined` reads as "". */
  function Value(f: Option<string>): string {
    f.GetOr("")
  }

  const StatusMessage := "Status must be PENDING, IN_PROGRESS, or COMPLETED"

  /** The username chain of `signupValidation`; it reports both of its messages when both fail. */
  function UsernameErrors(u: string): (r: seq<FieldError>)
    ensures r == [] <==> 3 <= ValidatorLength(u) <= 30 && forall i :: 0 <= i < |u| ==> IsWordChar(u[i])
    ensures forall e :: e in r ==> e.path == "username"
  {
    Check(3 <= ValidatorLength(u) <= 30, "username", "Username must be between 3 and 30 characters")
    + Check(u != "" && AllChars(u, IsWordChar), "username", "Username can only contain letters, numbers, and underscores")
  }

  /** `signupValidation`. */
  function SignupErrors(b: RawAuthBody): (r: seq<FieldError>)
    ensures r == [] <==>
      && 3 <= ValidatorLength(Value(b.username)) <= 30 && (forall i :: 0 <= i < |Value(b.username)| ==> IsWordChar(Value(b.username)[i]))
      && ValidatorLength(Value(b.password)) >= 6
      && (Value(b.role) == "EMPLOYER" || Value(b.role) == "EMPLOYEE")
    ensures forall e :: e in r ==> e.path == "username" || e.path == "password" || e.path == "role"
  {
    UsernameErrors(Value(b.username))
    + Check(ValidatorLength(Value(b.password)) >= 6, "password", "Password must be at least 6 characters long")
    + Check(ParseRole(Value(b.role)).Some?, "role", "Role must be either EMPLOYER or EMPLOYEE")
  }

  /** `signinValidation`: both fields non-empty. */
  function SigninErrors(b: RawAuthBody): (r: seq<FieldError>)
    ensures r == [] <==> Value(b.username) != "" && Value(b.password) != ""
    ensures |r| <= 2
  {
    Check(Value(b.username) != "", "username", "Username is required")
    + Check(Value(b.password) != "", "password", "Password is required")
  }

  /** An optional chain runs only when the field is present. */
  function WhenPresent(f: Option<string>, errors: string -> seq<FieldError>): seq<FieldError> {
    if f.Some? then errors(f.value) else []
  }

  function TitleChain(t: string, emptyMessage: string): seq<FieldError> {
    Check(t != "", "title", emptyMessage) + Check(ValidatorLength(t) <= 200, "title", "Title must not exceed 200 characters")
  }

  function DescriptionChain(d: string): seq<FieldError> {
    Check(ValidatorLength(d) <= 1000, "description", "Description must not exceed 1000 characters")
  }

  function DueDateChain(d: string, iso: string -> bool): seq<FieldError> {
    Check(iso(d), "dueDate", "Due date must be a valid date")
  }

  /** `createTaskValidation`: a title is required; `assignedToId` only has to be a string. */
  function CreateTaskErrors(b: RawTaskBody, iso: string -> bool): (r: seq<FieldError>)
    ensures r == [] <==>
      && Value(b.title) != "" && ValidatorLength(Value(b.title)) <= 200
      && (b.description.Some? ==> ValidatorLength(b.description.value) <= 1000)
      && (b.dueDate.Some? ==> iso(b.dueDate.value))
    ensures r == [] ==> b.title.Some?
  {
    TitleChain(Value(b.title), "Title is required")
    + WhenPresent(b.description, DescriptionChain)
    + WhenPresent(b.dueDate, (d: string) => DueDateChain(d, iso))
  }

  /** `updateTaskValidation`: every chain optional; a present title must be non-empty. */
  function UpdateTaskErrors(b: RawTaskBody, iso: string -> bool): (r: seq<FieldError>)
    ensures r == [] <==>
      && (b.title.Some? ==> b.title.value != "" && ValidatorLength(b.title.value) <= 200)
      && (b.description.Some? ==> ValidatorLength(b.description.value) <= 1000)
      && (b.status.Some? ==> ParseStatus(b.status.value).Some?)
      && (b.dueDate.Some? ==> iso(b.dueDate.value))
  {
    WhenPresent(b.title, (t: string) => TitleChain(t, "Title cannot be empty"))
    + WhenPresent(b.description, DescriptionChain)
    + WhenPresent(b.status, (s: string) => Check(ParseStatus(s).Some?, "status", StatusMessage))
    + WhenPresent(b.dueDate, (d: string) => DueDateChain(d, iso))
  }

  /** `taskParamValidation`: the id only has to be non-empty. */
  function TaskParamErrors(id: string): (r: seq<FieldError>)
    ensures r == [] <==> id != ""
  {
    Check(id != "", "id", "Task ID is required")
  }

  /** `taskQueryValidation`: optional enums and no defaults. */
  function TaskQueryErrors(q: RawQuery): (r: seq<FieldError>)
    ensures r == [] <==>
      && (q.status.Some? ==> ParseStatus(q.status.value).Some?)
      && (q.sortBy.Some? ==> ParseSortField(q.sortBy.value).Some?)
      && (q.sortOrder.Some? ==> ParseSortOrder(q.sortOrder.value).Some?)
  {
    WhenPresent(q.status, (s: string) => Check(ParseStatus(s).Some?, "status", StatusMessage))
    + WhenPresent(q.sortBy, (s: string) => Check(ParseSortField(s).Some?, "sortBy", "Sort by must be createdAt, dueDate, or status"))
    + WhenPresent(q.sortOrder, (s: string) => Check(ParseSortOrder(s).Some?, "sortOrder", "Sort order must be asc or desc"))
  }

  /**
   * Every body the signup rules accept, the signup schema accepts. The converse
   * fails only on the password: the rules count its characters other than
   * variation selectors, the schema its UTF-16 code units.
   */
  lemma SignupRulesAgree(b: RawAuthBody)
    ensures SignupErrors(b) == [] ==> AuthSchemas.ParseSignup(b).Some?
    ensures AuthSchemas.ParseSignup(b).Some? ==> (SignupErrors(b) == [] <==> ValidatorLength(b.password.value) >= 6)
  {
    var u, pw := Value(b.username), Value(b.password);
    UsernameRuleAgrees(u);
    assert SignupErrors(b) == [] <==> UsernameErrors(u) == [] && ValidatorLength(pw) >= 6 && ParseRole(Value(b.role)).Some?;
    assert AuthSchemas.ParseSignup(b).Some? <==>
      b.username.Some? && AuthSchemas.UsernameOk(u) && b.password.Some? && Utf16Length(pw) >= 6
      && b.role.Some? && ParseRole(b.role.value).Some?;
  }

  /** The username chain and the schema's username checks agree, since a word has one code unit per character. */
  lemma UsernameRuleAgrees(u: string)
    ensures UsernameErrors(u) == [] <==> AuthSchemas.UsernameOk(u)
  {
    if forall i :: 0 <= i < |u| ==> IsWordChar(u[i]) {
      WordLength(u);
    }
  }

  /** Three astral characters make a password the schema accepts and the rules refuse. */
  lemma AstralPasswordSplitsRules()
    ensures var b := RawAuthBody(Some("alice"), Some("\U{1F600}\U{1F600}\U{1F600}"), Some("EMPLOYEE"));
      AuthSchemas.ParseSignup(b).Some? && SignupErrors(b) != []
  {
    var p := "\U{1F600}\U{1F600}\U{1F600}";
    assert forall i :: 0 <= i < |p| ==> Astral(p[i]);
    assert ValidatorLength(p) <= |p| == 3;
    AliceOk();
    PasswordSplitsRules("alice", p);
  }

  /** A variation selector is counted by the schema and not by the rules: "abcd❤️" has 6 code units and 5 counted characters. */
  lemma SelectorPasswordSplitsRules()
    ensures var b := RawAuthBody(Some("alice"), Some("abcd\U{2764}\U{FE0F}"), Some("EMPLOYEE"));
      AuthSchemas.ParseSignup(b).Some? && SignupErrors(b) != []
  {
    var p := "abcd\U{2764}\U{FE0F}";
    assert InBmp(p) && Selector(p[5]);
    AliceOk();
    PasswordSplitsRules("alice", p);
  }

  /** "alice" is a username the schema accepts. */
  lemma AliceOk()
    ensures AuthSchemas.UsernameOk("alice")
  {
    assert AllChars("alice", IsWordChar);
    WordLength("alice");
  }

  /** The signup schema accepts a valid username with a password of at least 6 code units. */
  lemma SchemaAcceptsSignup(u: string, p: string)
    requires AuthSchemas.UsernameOk(u) && Utf16Length(p) >= 6
    ensures AuthSchemas.ParseSignup(RawAuthBody(Some(u), Some(p), Some("EMPLOYEE"))).Some?
  {
  }

  /** The signup rules refuse a password of fewer than 6 counted characters, whatever the other fields. */
  lemma RulesRefuseShortPassword(u: Option<string>, p: string, role: Option<string>)
    requires ValidatorLength(p) < 6
    ensures SignupErrors(RawAuthBody(u, Some(p), role)) != []
  {
  }

  /** A password of at least 6 code units but fewer than 6 counted characters splits the schema and the rules. */
  lemma PasswordSplitsRules(u: string, p: string)
    requires AuthSchemas.UsernameOk(u) && Utf16Length(p) >= 6 && ValidatorLength(p) < 6
    ensures var b := RawAuthBody(Some(u), Some(p), Some("EMPLOYEE"));
      AuthSchemas.ParseSignup(b).Some? && SignupErrors(b) != []
  {
    SchemaAcceptsSignup(u, p);
    RulesRefuseShortPassword(Some(u), p, Some("EMPLOYEE"));
  }

  /**
   * The blank-description update of an employee passes both the update schema
   * and the update rules, so it reaches the service's check. A blank due date
   * is refused by the schema, and by the rules unless `iso("")` holds.
   */
  lemma BlankDescriptionPassesValidation(iso: string -> bool, parses: string -> bool)
    ensures var b := RawTaskBody(None, Some(""), None, None, None);
      TaskSchemas.ParseUpdateBody(b, parses).Some? && UpdateTaskErrors(b, iso) == []
    ensures var b := RawTaskBody(None, Some(""), None, None, Some(""));
      TaskSchemas.ParseUpdateBody(b, parses).None? && (!iso("") ==> UpdateTaskErrors(b, iso) != [])
  {
  }

  /** The signin rules accept exactly what the signin schema accepts. */
  lemma SigninRulesAgree(b: RawAuthBody)
    ensures SigninErrors(b) == [] <==> AuthSchemas.ParseSignin(b).Some?
  {
  }

  /** With the two date checks agreeing, every body the create schema accepts passes the create rules. */
  lemma CreateSchemaPassesRules(b: RawTaskBody, iso: string -> bool, parses: string -> bool)
    requires b.dueDate.None? || (iso(b.dueDate.value) <==> TaskSchemas.DateString(b.dueDate.value, parses))
    ensures TaskSchemas.ParseCreateBody(b, parses).Some? ==> CreateTaskErrors(b, iso) == []
  {
  }

  /**
   * With a cuid (or no) assignee and the two date checks agreeing, a body that
   * passes the create rules is accepted by the create schema exactly when its
   * title and description fit in UTF-16 code units as well as in characters.
   */
  lemma CreateRulesAgree(b: RawTaskBody, iso: string -> bool, parses: string -> bool)
    requires b.assignedToId.None? || TaskSchemas.IsCuid(b.assignedToId.value)
    requires b.dueDate.None? || (iso(b.dueDate.value) <==> TaskSchemas.DateString(b.dueDate.value, parses))
    requires CreateTaskErrors(b, iso) == []
    ensures TaskSchemas.ParseCreateBody(b, parses).Some? <==>
      Utf16Length(b.title.value) <= 200 && (b.description.Some? ==> Utf16Length(b.description.value) <= 1000)
  {
  }

  /** The same for updates: every body the update schema accepts passes the update rules. */
  lemma UpdateSchemaPassesRules(b: RawTaskBody, iso: string -> bool, parses: string -> bool)
    requires b.dueDate.None? || (iso(b.dueDate.value) <==> TaskSchemas.DateString(b.dueDate.value, parses))
    ensures TaskSchemas.ParseUpdateBody(b, parses).Some? ==> UpdateTaskErrors(b, iso) == []
  {
  }

  /** A body that passes the update rules is accepted by the update schema exactly when it fits in code units. */
  lemma UpdateRulesAgree(b: RawTaskBody, iso: string -> bool, parses: string -> bool)
    requires b.assignedToId.None? || TaskSchemas.IsCuid(b.assignedToId.value)
    requires b.dueDate.None? || (iso(b.dueDate.value) <==> TaskSchemas.DateString(b.dueDate.value, parses))
    requires UpdateTaskErrors(b, iso) == []
    ensures TaskSchemas.ParseUpdateBody(b, parses).Some? <==>
      (b.title.Some? ==> Utf16Length(b.title.value) <= 200) && (b.description.Some? ==> Utf16Length(b.description.value) <= 1000)
  {
  }

  /** A title of 150 astral characters passes the create rules and fails the create schema. */
  lemma AstralTitleSplitsRules(iso: string -> bool, parses: string -> bool)
    ensures var b := RawTaskBody(Some(seq(150, _ => '\U{1F600}')), None, None, None, None);
      CreateTaskErrors(b, iso) == [] && TaskSchemas.ParseCreateBody(b, parses).None?
  {
    var t: string := seq(150, _ => '\U{1F600}');
    assert forall i :: 0 <= i < |t| ==> Astral(t[i]);
  }

  /** The query rules accept what the query schema accepts, given a cuid (or no) assignee. */
  lemma QueryRulesAgree(q: RawQuery)
    requires q.assignedToId.None? || TaskSchemas.IsCuid(q.assignedToId.value)
    ensures TaskQueryErrors(q) == [] <==> TaskSchemas.ParseTaskQuery(q).Some?
  {
  }

  /** Every id the param schema accepts passes the param rule, but not conversely. */
  lemma ParamRuleIsLooser()
    ensures forall id :: TaskSchemas.IsCuid(id) ==> TaskParamErrors(id) == []
    ensures TaskParamErrors("42") == [] && !TaskSchemas.IsCuid("42")
  {
  }

  /** The create rules let a non-cuid assignee through that the schema refuses. */
  lemma CreateRulesAcceptAnyAssignee(iso: string -> bool, parses: string -> bool)
    ensures var b := RawTaskBody(Some("Write report"), None, None, Some("42"), None);
      CreateTaskErrors(b, iso) == [] && TaskSchemas.ParseCreateBody(b, parses).None?
  {
  }
}
