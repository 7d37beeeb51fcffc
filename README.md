# knovel task manager — a Dafny model of its access policy and bookkeeping

knovel is a small task manager. An EMPLOYER creates tasks and assigns them to EMPLOYEE users. An employee sees and updates the status of the tasks assigned to them. A React client keeps the loaded tasks in a store and derives per-employee summaries and overall statistics.

This project models the logic that decides what each caller may see and change, and proves properties of that model:

- **Backend** (Express over a Prisma user/task table):
  - the task service (`TaskService`) and the older task handlers (`TaskController`), both over one shared policy (`TaskPolicy`);
  - the authentication service and handlers (`AuthService`, `AuthController`) and the bearer-token and role middleware (`AuthMiddleware`);
  - the error-to-HTTP mapping (`ErrorHandler`);
  - the zod schemas (`TaskSchemas`, `AuthSchemas`) and the express-validator rule sets (`Validation`).
- **Frontend**:
  - the task store (`FrontendTaskStore`) and the login store (`FrontendAuthStore`), modelled as classes whose methods reassign their fields;
  - the `useSummary` hook (`UseSummary`); its per-employee breakdown is a loop that fills a map;
  - the dashboard counts (`Dashboard`), the task-list permission tests (`TaskList`), and the colour and status mappings (`GetColors`, `CheckStatus`).

**How the model is built:**

- **Store.** The database is `Store.Database`, a class with two maps: users and tasks, each keyed by id. Its invariant `Valid()` says:
  - every row sits under its own id;
  - user ids are non-empty;
  - usernames are unique.
- **Handlers.** Each handler is a method over the database. It returns its outcome or the HTTP response it sends. The older create and update handlers and the two auth handlers run their validator rules first; the older list, lookup, delete and summary handlers run none. The older handlers then call the same methods as the service and map each outcome to a status and body with `TaskController.Answer`.
- **Foreign code as parameters.** Code the repository only calls is passed in as a parameter:
  - `new Date` is `toDate`;
  - the ISO-8601 and date-parse checks are `iso` and `parses`;
  - bcrypt and jsonwebtoken are the function values of `AuthService.Crypto`;
  - `JWT_SECRET`, the clock `now`, and the id the store assigns (`newId`).
- **Sorting.**
  - Prisma's `orderBy` and `Array.prototype.sort` are both modelled by `Seqs.Sort`, a stable insertion sort driven by a JavaScript-style comparator.
  - On the backend a null due date sorts after every date ascending and before every date descending.
  - The backend sorts status columns in the enum's declaration order, PENDING < IN_PROGRESS < COMPLETED. The Prisma schema is not part of this model; that order is an assumption.
- **Rates.** Completion rates rounded to two decimals are kept as whole hundredths of a percent: `floor((20000·c + t) / (2t))`. The whole-percent rates are rounded half up: `floor((200·c + t) / (2t))`.
- **String lengths.** Strings are sequences of Unicode characters. zod's `min` and `max` compare JavaScript's `length`, the number of UTF-16 code units (`Text.Utf16Length`). express-validator's `isLength` counts a surrogate pair once and does not count the variation selectors U+FE0E and U+FE0F (`Text.ValidatorLength`).
- **JavaScript truthiness.** A value that may be `undefined` counts as truthy when it is present and non-empty (`Domain.Truthy`).

Notes on the source:

- **One update finding.** As written, the employee update check tests truthiness. The write it guards tests `!== undefined`. So an employee can blank a task's description (see "## Findings"). The check would also let a blank due date through, but both validators refuse `dueDate: ""` before it.
- **Two length counts.** The older handlers' rules and the zod schemas measure text differently. A title of 150 emoji passes the create rules and is refused by the create schema. A password of three emoji passes the signup schema and is refused by the signup rules.
- **Two summaries.** The backend summary lists every EMPLOYEE user, including those with no tasks. The frontend summary lists only users who appear as assignees.
- **Unsorted client dates.** The client's comparator treats a missing due date as equal to every task. `FrontendTaskStore.UndatedTasksBreakTheOrder` shows that this is not an ordering, so for such lists only the permutation is promised.

## Model

| member | source | states |
|---|---|---|
| Domain.ParseRole | apps/backend/src/schemas/auth.schemas.ts:12-14 | exactly the two role names parse, each back to the role it names |
| Domain.ParseStatus | apps/backend/src/schemas/task.schemas.ts:29-35 | exactly PENDING, IN_PROGRESS and COMPLETED parse, each back to its status |
| Domain.ParseSortField | apps/backend/src/schemas/task.schemas.ts:51 | exactly createdAt, dueDate and status parse, each to its column |
| Domain.ParseSortOrder | apps/backend/src/schemas/task.schemas.ts:52 | exactly asc and desc parse |
| Domain.NamesRoundTrip | apps/backend/src/schemas/task.schemas.ts:47-54 | the name of every role, status, column and direction parses back to it |
| Seqs.Filter | apps/frontend/src/stores/taskStore.ts:69-79 | `filter` never lengthens, and every element it keeps satisfies the predicate |
| Seqs.FilterMembers | apps/frontend/src/stores/taskStore.ts:69-79 | `filter` keeps exactly the elements that satisfy the predicate: each kept one is from the input, and each input element that passes is kept |
| Seqs.KeptIndices | apps/frontend/src/stores/taskStore.ts:101-104 | the positions whose elements pass, strictly increasing, each passing, and including every passing position |
| Seqs.FilterKeepsOrder | apps/frontend/src/stores/taskStore.ts:101-104 | `filter` returns the input's elements at those increasing positions, so the passing elements keep their original order |
| Seqs.FilterAppend | apps/frontend/src/stores/taskStore.ts:47-50 | filtering distributes over concatenation, so the kept elements keep their relative order |
| Seqs.FilterBoth | apps/frontend/src/stores/taskStore.ts:69-79 | two filters in a row are one filter by the conjunction |
| Seqs.FilterCount | apps/backend/src/controllers/taskController.ts:307-309 | filtering for one value counts its occurrences |
| Seqs.SortMultiset | apps/frontend/src/stores/taskStore.ts:81-91 | the sort is a permutation of its input |
| Seqs.SortSorted | apps/backend/src/services/task.service.ts:69-71 | under a comparator that is a total preorder, the sort's output is ordered |
| Seqs.InsertSorted | apps/backend/src/services/task.service.ts:69-71 | inserting into an ordered list under a consistent comparator keeps it ordered |
| Text.Split | apps/backend/src/middleware/auth.ts:15 | `split(' ')` gives at least one field, and no field holds the separator |
| Text.JoinSplit | apps/backend/src/middleware/auth.ts:15 | joining the fields of a split gives back the header |
| Text.SplitJoin | apps/backend/src/middleware/auth.ts:15 | splitting a join of separator-free fields gives back the fields |
| Text.LessTransitive | apps/frontend/src/stores/taskStore.ts:88 | the model's string `<`, lexicographic by code point, is transitive |
| Text.LessTotal | apps/frontend/src/stores/taskStore.ts:88 | two different strings are ordered one way or the other |
| Text.LessAfterPrefix | apps/frontend/src/stores/taskStore.ts:88 | a common prefix does not change how two strings compare |
| Text.Utf16Length | apps/backend/src/schemas/task.schemas.ts:18-19 | JavaScript's `length` counts UTF-16 code units: between the number of characters and twice it, equal to it exactly when no character needs a surrogate pair, and twice it when every character does |
| Text.WordLength | apps/backend/src/schemas/auth.schemas.ts:6-9 | a word of `[a-zA-Z0-9_]` characters has as many code units, and as many counted characters, as characters |
| Text.ValidatorLength | apps/backend/src/middleware/validation.ts:5 | the `isLength` measure: at most the number of characters, and equal to it exactly when no character is a variation selector |
| Text.AllChars | apps/backend/src/schemas/auth.schemas.ts:9 | a `^[...]+$` class test holds exactly when every character is in the class |
| Rates.PercentHundredths | apps/backend/src/controllers/taskController.ts:310-318 | the rate rounded half up to two decimals, at most 100.00 when completed ≤ total, 0 with no tasks |
| Rates.PercentRounded | apps/frontend/src/hooks/useSummary.ts:54-55 | the rate rounded half up to a whole percent, at most 100, 0 with no tasks |
| Rates.AllDone | apps/frontend/src/hooks/useSummary.ts:54-55 | all tasks completed gives exactly 100 % (10000 hundredths) |
| Rates.NoneDone | apps/frontend/src/hooks/useSummary.ts:54-55 | no task completed gives exactly 0 % |
| ErrorHandler.NewAppError | apps/backend/src/middleware/errorHandler.ts:10-16 | an AppError carries its message and status code |
| ErrorHandler.DefaultStatusIs500 | apps/backend/src/middleware/errorHandler.ts:10 | an AppError built without a status code has status 500 |
| ErrorHandler.GlobalErrorHandler | apps/backend/src/middleware/errorHandler.ts:29-99 | the ordered chain: Zod 400 with one detail per issue; AppError with its own status and message; Prisma P2002 409 and P2025 404; JsonWebTokenError and TokenExpiredError 401; otherwise the error's own status or 500, and its message unless in production |
| ErrorHandler.ProductionHidesMessages | apps/backend/src/middleware/errorHandler.ts:92-98 | in production an error of no named kind answers "Internal server error" |
| ErrorHandler.OtherPrismaCodesFallThrough | apps/backend/src/middleware/errorHandler.ts:61-75 | a Prisma error with another code gets the default treatment |
| ErrorHandler.DetailFieldRecoversPath | apps/backend/src/middleware/errorHandler.ts:41-44 | each detail's field is the issue path joined by dots, which splits back into the path |
| ErrorHandler.NotFoundHandler | apps/backend/src/middleware/errorHandler.ts:101-111 | an unknown route answers 404 "Route not found" |
| Store.ApplyFields | apps/backend/src/services/task.service.ts:149-151 | a Prisma update keeps id, creator and creation time, stamps `updatedAt`, and an empty patch changes nothing else |
| Store.FindUserByUsername | apps/backend/src/services/auth.service.ts:18-20 | finds the user with that username exactly when the name is taken |
| TaskPolicy.UpdateDenial | apps/backend/src/services/task.service.ts:118-130 | an update is refused unless the caller is the assigned EMPLOYEE who sends no truthy non-status field, or the creating EMPLOYER; the message is "Access denied", or "Employees can only update task status" for the assigned employee |
| TaskPolicy.DueDateOf | apps/backend/src/services/task.service.ts:147 | a falsy due date is written as null, any other through `new Date` |
| TaskPolicy.CreatedRow | apps/backend/src/services/task.service.ts:21-28 | a created row has the creator from the token, status PENDING, the request's fields, and a due date exactly when one was truthy |
| TaskPolicy.UpdatedRow | apps/backend/src/services/task.service.ts:141-151 | the written row takes every field that is not `undefined` from the request and keeps every other column |
| TaskPolicy.WrittenRowIsUnique | apps/backend/src/services/task.service.ts:141-151 | that field-by-field description determines the written row |
| TaskPolicy.ComparatorConsistent | apps/backend/src/services/task.service.ts:69-71 | every column order, ascending or descending, is a total preorder on tasks; a null due date sorts after every date ascending and before every date descending |
| TaskPolicy.ColumnTransitive | apps/backend/src/services/task.service.ts:69-71 | the ascending order on each column is transitive |
| TaskPolicy.EmployeeBlankFieldsAreWritten | apps/backend/src/services/task.service.ts:123 | the as-written check admits an employee's `description: ""`, and the write blanks the description and changes nothing else but the stamp; it also admits `dueDate: ""` and clears the due date, an input only a caller that skips both validators can send |
| TaskPolicy.UpdateDenialIntended | apps/backend/src/services/task.service.ts:119-125 | the corrected check refuses every field but status by presence; it only refuses more than the check as written |
| TaskPolicy.IntendedEmployeeUpdateChangesOnlyStatus | apps/backend/src/services/task.service.ts:119-125 | under the corrected check an accepted employee update changes only the status and the update stamp |
| TaskService.CreateTask | apps/backend/src/services/task.service.ts:7-40 | a truthy assignee that is not an EMPLOYEE gives 400 "Invalid employee assignment" with the table unchanged; otherwise exactly the created row is added under the new id; the store stays valid and assignees stay employees |
| TaskService.BuildWhere | apps/backend/src/services/task.service.ts:45-58 | the `where` for an EMPLOYEE is their own id as assignee, ignoring an assignee filter; for an EMPLOYER it is their own id as creator plus a truthy assignee filter; the status filter is added for both; a task matches it exactly when it is listed |
| TaskService.GetTasks | apps/backend/src/services/task.service.ts:42-75 | the list is every task the caller may list under the filters, each once, ordered by the requested column and direction (createdAt and desc by default) |
| TaskService.GetTaskById | apps/backend/src/services/task.service.ts:77-105 | 404 for an absent id; 403 unless the caller is the assignee EMPLOYEE or the creating EMPLOYER; else the task; the store is untouched |
| TaskService.CheckUpdateAllowed | apps/backend/src/services/task.service.ts:118-130 | the role checks run in source order and give the denial the policy states |
| TaskService.BuildUpdateData | apps/backend/src/services/task.service.ts:141-148 | the patch built field by field writes exactly the row the policy states |
| TaskService.UpdateTask | apps/backend/src/services/task.service.ts:107-163 | 404, then 403 with the policy's message, then 400 for a rejected assignee, then the write; every failure leaves the tasks unchanged; success stores the updated row |
| TaskService.DeleteTask | apps/backend/src/services/task.service.ts:165-182 | 404 for an absent id, 403 unless the caller is the creating EMPLOYER; only success removes the task and nothing else |
| TaskService.GetEmployees | apps/backend/src/services/task.service.ts:184-195 | every EMPLOYEE user appears once, with id, username and creation time, and nobody else |
| TaskController.Answer | apps/backend/src/controllers/taskController.ts:51-54 | a handler answers success with its status, an AppError with its own status and message, and anything else with 500 |
| TaskController.CreateTask | apps/backend/src/controllers/taskController.ts:7-55 | 400 with the rule errors before any lookup; then 400 for a rejected assignee; 201 with the created row; the table changes only on 201 |
| TaskController.QueryFilters | apps/backend/src/controllers/taskController.ts:62-87 | sortBy and sortOrder default to createdAt and desc, an empty status is no filter, and a status, column or direction the store cannot read is refused |
| TaskController.QueryFiltersAgreeWithSchema | apps/backend/src/controllers/taskController.ts:62-67 | on every query the zod schema accepts, the raw defaults read the same filters |
| TaskController.GetTasks | apps/backend/src/controllers/taskController.ts:57-109 | 500 when the store refuses the query, else 200 with every listed task once, in order |
| TaskController.GetTaskById | apps/backend/src/controllers/taskController.ts:111-153 | 404, then 403 for a task outside the caller's scope, else 200 with the task |
| TaskController.UpdateTask | apps/backend/src/controllers/taskController.ts:155-237 | 400 with the rule errors, then 404, 403, 400 as the service, then 200 with the written row; the tasks change only on 200 |
| TaskController.DeleteTask | apps/backend/src/controllers/taskController.ts:239-270 | 404 before 403; 204 only for the creating EMPLOYER, removing just that task |
| TaskController.SummaryOf | apps/backend/src/controllers/taskController.ts:305-320 | an entry's counts are its task count and its COMPLETED count, completed ≤ total, and the rate is completed/total rounded to two decimals, 0 with no tasks |
| TaskController.AssignedStatuses | apps/backend/src/controllers/taskController.ts:294-301 | the statuses selected for an employee are exactly those of the requester's tasks assigned to them |
| TaskController.RowFor | apps/backend/src/controllers/taskController.ts:289-303 | the row selected for an EMPLOYEE user carries their username and the statuses of the requester's tasks assigned to them |
| TaskController.VisitUser | apps/backend/src/controllers/taskController.ts:289-303 | visiting one more user keeps the rows tied to the visited users: each visited EMPLOYEE once, nobody else |
| TaskController.EmployeeRows | apps/backend/src/controllers/taskController.ts:289-303 | one row per EMPLOYEE user, each once, with the requester's tasks assigned to them |
| TaskController.EntriesFromRows | apps/backend/src/controllers/taskController.ts:305-320 | mapping the entry computation over the rows gives each EMPLOYEE once with their counts and rate |
| TaskController.GetEmployeeSummary | apps/backend/src/controllers/taskController.ts:278-327 | 403 unless an EMPLOYER asks; else 200 with every EMPLOYEE exactly once, even one with no tasks, counting only the requester's tasks |
| TaskController.GetEmployees | apps/backend/src/controllers/taskController.ts:329-354 | 403 unless an EMPLOYER asks; else 200 with every EMPLOYEE user once |
| AuthService.ResponseFor | apps/backend/src/services/auth.service.ts:43-54 | the response carries the stored user's id, username and role and a token signed over them |
| AuthService.NewUser | apps/backend/src/services/auth.service.ts:27-38 | the new row stores the hash of the password, never the password, with the requested role |
| AuthService.Signup | apps/backend/src/services/auth.service.ts:14-55 | a taken username gives 409 and no write; otherwise exactly the new user is inserted and answered with a token; the store stays valid |
| AuthService.SigninOutcome | apps/backend/src/services/auth.service.ts:57-92 | signin succeeds exactly when the username exists and the password checks against its hash; an unknown user and a wrong password get the same 401 |
| AuthService.Signin | apps/backend/src/services/auth.service.ts:57-92 | signin answers that outcome and reads the user table only |
| AuthService.InsertedUserIsFound | apps/backend/src/services/auth.service.ts:18-38 | after a signup the username finds the inserted user |
| AuthService.SignupThenSignin | apps/backend/src/services/auth.service.ts:14-92 | with a hash that checks against itself, signing in with the credentials just signed up succeeds and answers the same user |
| AuthService.VerifyToken | apps/backend/src/services/auth.service.ts:94-101 | a token that verifies gives its user; every failure gives 401 "Invalid or expired token" |
| AuthService.FailuresLookAlike | apps/backend/src/services/auth.service.ts:97-100 | a bad signature and an expired token get the same answer |
| AuthController.SignupDataOf | apps/backend/src/controllers/authController.ts:21 | a body that passes the signup rules is one the signup schema accepts |
| AuthController.Signup | apps/backend/src/controllers/authController.ts:13-71 | 400 with the rule errors, 409 for a taken name, else the user is inserted; then 500 when `JWT_SECRET` is falsy, with the user still inserted, else 201 |
| AuthController.Signin | apps/backend/src/controllers/authController.ts:73-125 | 400 with the rule errors, the same 401 for an unknown user and a wrong password, 500 when the secret is falsy, else 200 |
| AuthMiddleware.TokenOf | apps/backend/src/middleware/auth.ts:14-19 | the token is the header's second space-separated word, present only when non-empty |
| AuthMiddleware.TokenIsSecondWord | apps/backend/src/middleware/auth.ts:15 | for `scheme token rest...` the token is `token`, whatever the scheme is |
| AuthMiddleware.NoSecondWord | apps/backend/src/middleware/auth.ts:15-19 | a header with no space carries no token |
| AuthMiddleware.Authenticate | apps/backend/src/middleware/auth.ts:12-29 | 401 "Access token required" without a token, else the outcome of verifying it |
| AuthMiddleware.AuthRequest.constructor | apps/backend/src/middleware/auth.ts:8-10 | a request starts with its header and no user |
| AuthMiddleware.AuthenticateToken | apps/backend/src/middleware/auth.ts:12-29 | `req.user` is set to the verified user exactly when the token verifies; otherwise the error goes to `next` and the user is untouched |
| AuthMiddleware.RequireRole | apps/backend/src/middleware/auth.ts:31-48 | 401 without a user, 403 "Insufficient permissions" for a role not listed, else pass |
| AuthMiddleware.RequireEmployer | apps/backend/src/middleware/auth.ts:50 | only an EMPLOYER passes |
| AuthMiddleware.RequireEmployee | apps/backend/src/middleware/auth.ts:51 | only an EMPLOYEE passes |
| AuthMiddleware.RequireAnyRole | apps/backend/src/middleware/auth.ts:52 | every authenticated user passes |
| AuthMiddleware.GateAfterAuthentication | apps/backend/src/middleware/auth.ts:12-48 | behind token authentication, a role gate admits exactly the verified users with a listed role |
| TaskSchemas.IsCuid | apps/backend/src/schemas/task.schemas.ts:3-4 | a cuid is 25 characters, 'c' then lower-case letters and digits |
| TaskSchemas.ParseCreateBody | apps/backend/src/schemas/task.schemas.ts:16-23 | a create body passes exactly when the title has 1 to 200 UTF-16 code units, a description at most 1000, an assignee is a cuid and a due date a parsable YYYY-MM-DD |
| TaskSchemas.ParseUpdateBody | apps/backend/src/schemas/task.schemas.ts:25-39 | an update body passes exactly when each present field passes its check, status being one of the three names |
| TaskSchemas.ParseTaskParam | apps/backend/src/schemas/task.schemas.ts:41-45 | the route id passes exactly when it is a cuid |
| TaskSchemas.ParseTaskQuery | apps/backend/src/schemas/task.schemas.ts:47-54 | a query passes exactly when each present field is valid; sortBy and sortOrder default to createdAt and desc |
| TaskSchemas.QueryRoundTrip | apps/backend/src/schemas/task.schemas.ts:47-54 | the query string of a filter set parses back to it, with the defaults filled in |
| TaskSchemas.ShapeIsNotEnough | apps/backend/src/schemas/task.schemas.ts:6-14 | a string of the right shape is still refused when it does not parse as a date |
| AuthSchemas.ParseSignup | apps/backend/src/schemas/auth.schemas.ts:3-15 | a signup passes exactly when the username has 3 to 30 word characters, the password at least 6 UTF-16 code units, and the role is one of the two names |
| AuthSchemas.ParseSignin | apps/backend/src/schemas/auth.schemas.ts:17-22 | a signin passes exactly when both fields are non-empty |
| AuthSchemas.SignupCredentialsSignIn | apps/backend/src/schemas/auth.schemas.ts:3-22 | every accepted signup body is an accepted signin with the same credentials |
| AuthSchemas.UnknownRoleRefused | apps/backend/src/schemas/auth.schemas.ts:12-14 | a role outside the two names is refused even with good credentials |
| Validation.Check | apps/backend/src/middleware/validation.ts:4-8 | a validator reports nothing exactly when it passes |
| Validation.UsernameErrors | apps/backend/src/middleware/validation.ts:4-8 | the username chain reports nothing exactly when the name has 3 to 30 counted characters, all word characters |
| Validation.SignupErrors | apps/backend/src/middleware/validation.ts:3-15 | the signup rules report nothing exactly when every chain passes |
| Validation.SigninErrors | apps/backend/src/middleware/validation.ts:17-20 | the signin rules report nothing exactly when both fields are non-empty |
| Validation.CreateTaskErrors | apps/backend/src/middleware/validation.ts:22-40 | the create rules report nothing exactly when the title is present, non-empty and at most 200 counted characters, and each optional field passes its check |
| Validation.UpdateTaskErrors | apps/backend/src/middleware/validation.ts:42-65 | the update rules report nothing exactly when each present field passes its check |
| Validation.TaskParamErrors | apps/backend/src/middleware/validation.ts:67-69 | the param rule only demands a non-empty id |
| Validation.TaskQueryErrors | apps/backend/src/middleware/validation.ts:71-88 | the query rules report nothing exactly when each present field is one of its names |
| Validation.SignupRulesAgree | apps/backend/src/middleware/validation.ts:3-15 | every body the signup rules accept, the signup schema accepts; a body the schema accepts passes the rules exactly when its password has at least 6 counted characters, not only 6 code units |
| Validation.UsernameRuleAgrees | apps/backend/src/middleware/validation.ts:4-8 | the username chain and the schema's username checks accept the same names |
| Validation.SelectorPasswordSplitsRules | apps/backend/src/middleware/validation.ts:9-11 | the password "abcd❤️" passes the schema (6 code units) and fails the rules (5 counted characters, the variation selector not counted) |
| Validation.BlankDescriptionPassesValidation | apps/backend/src/middleware/validation.ts:42-65 | the update body `{ description: "" }` passes both the update schema and the update rules; adding `dueDate: ""` makes the schema refuse it, and the rules too unless `""` is an ISO date |
| Validation.AstralPasswordSplitsRules | apps/backend/src/middleware/validation.ts:9-11 | a password of three astral characters passes the schema (6 code units) and fails the rules (3 characters) |
| Validation.SigninRulesAgree | apps/backend/src/middleware/validation.ts:17-20 | the signin rules and the signin schema accept the same bodies |
| Validation.CreateSchemaPassesRules | apps/backend/src/middleware/validation.ts:22-40 | with agreeing date checks, every body the create schema accepts passes the create rules |
| Validation.CreateRulesAgree | apps/backend/src/middleware/validation.ts:22-40 | with a cuid or missing assignee and agreeing date checks, a body passing the create rules is accepted by the schema exactly when its title and description also fit in UTF-16 code units |
| Validation.UpdateSchemaPassesRules | apps/backend/src/middleware/validation.ts:42-65 | with agreeing date checks, every body the update schema accepts passes the update rules |
| Validation.UpdateRulesAgree | apps/backend/src/middleware/validation.ts:42-65 | with a cuid or missing assignee and agreeing date checks, a body passing the update rules is accepted by the schema exactly when its present title and description also fit in UTF-16 code units |
| Validation.AstralTitleSplitsRules | apps/backend/src/middleware/validation.ts:23-27 | a title of 150 astral characters passes the create rules (150 characters) and fails the create schema (300 code units) |
| Validation.QueryRulesAgree | apps/backend/src/middleware/validation.ts:71-88 | with a cuid or missing assignee, the query rules and schema accept the same queries |
| Validation.ParamRuleIsLooser | apps/backend/src/middleware/validation.ts:67-69 | every cuid passes the param rule, but some non-cuid does too |
| Validation.CreateRulesAcceptAnyAssignee | apps/backend/src/middleware/validation.ts:32-35 | the create rules accept an assignee that the schema refuses |
| ClientTypes.MergeLaws | apps/frontend/src/stores/taskStore.ts:43 | an empty patch changes nothing, and merging a patch twice is merging it once |
| ClientTypes.StatusPatchChangesOnlyStatus | apps/frontend/src/stores/taskStore.ts:43 | a status-only patch changes the status and nothing else |
| ClientTypes.MergeFilters | apps/frontend/src/stores/taskStore.ts:58-61 | each supplied filter key overwrites, every other key stays |
| ClientTypes.MergeFiltersIdempotent | apps/frontend/src/stores/taskStore.ts:58-61 | merging the same filter patch again changes nothing |
| FrontendTaskStore.ComparatorConsistent | apps/frontend/src/stores/taskStore.ts:82-90 | when every task has the sort key, the view's comparator, asc or desc, is a total preorder |
| FrontendTaskStore.KeyOrder | apps/frontend/src/stores/taskStore.ts:88 | "not after" on string keys is transitive |
| FrontendTaskStore.CompareAntisymmetric | apps/frontend/src/stores/taskStore.ts:82-90 | on tasks that have the key, comparing the other way round negates the verdict |
| FrontendTaskStore.CompareTransitive | apps/frontend/src/stores/taskStore.ts:82-90 | on tasks that have the key, "not after" is transitive, ascending and descending |
| FrontendTaskStore.UndatedTasksBreakTheOrder | apps/frontend/src/stores/taskStore.ts:86 | with an undated task, two dated tasks in strict order both compare equal to it, so the comparator is no ordering |
| FrontendTaskStore.FirstWithId | apps/frontend/src/stores/taskStore.ts:98 | `find` gives the first index holding the id, and none when no task has it |
| FrontendTaskStore.TaskStore.constructor | apps/frontend/src/stores/taskStore.ts:27-31 | the store starts with no tasks, employees or summary, not loading, and no filters |
| FrontendTaskStore.TaskStore.SetTasks | apps/frontend/src/stores/taskStore.ts:33 | the tasks are replaced and nothing else changes |
| FrontendTaskStore.TaskStore.AddTask | apps/frontend/src/stores/taskStore.ts:35-38 | the task is prepended and nothing else changes |
| FrontendTaskStore.TaskStore.UpdateTask | apps/frontend/src/stores/taskStore.ts:40-45 | length and order are kept; the tasks with the id get the patch merged in, every other task is unchanged |
| FrontendTaskStore.TaskStore.RemoveTask | apps/frontend/src/stores/taskStore.ts:47-50 | every task with the id is dropped and the rest keep their order |
| FrontendTaskStore.TaskStore.SetEmployees | apps/frontend/src/stores/taskStore.ts:52 | the employees are replaced and nothing else changes |
| FrontendTaskStore.TaskStore.SetEmployeeSummary | apps/frontend/src/stores/taskStore.ts:54 | the summary is replaced and nothing else changes |
| FrontendTaskStore.TaskStore.SetLoading | apps/frontend/src/stores/taskStore.ts:56 | the loading flag is replaced and nothing else changes |
| FrontendTaskStore.TaskStore.SetFilters | apps/frontend/src/stores/taskStore.ts:58-61 | the filters become the old filters with the supplied keys overwritten |
| FrontendTaskStore.TaskStore.ClearFilters | apps/frontend/src/stores/taskStore.ts:63 | the filters become empty |
| FrontendTaskStore.TaskStore.GetFilteredTasks | apps/frontend/src/stores/taskStore.ts:65-94 | the view holds exactly the stored tasks that pass the filters, as a permutation of them; it is unsorted unless both sort keys are set; it is sorted when every task has the key; the store is not changed |
| FrontendTaskStore.TaskStore.GetTaskById | apps/frontend/src/stores/taskStore.ts:96-99 | the first stored task with the id, or none exactly when no task has it |
| FrontendTaskStore.TaskStore.GetTasksByStatus | apps/frontend/src/stores/taskStore.ts:101-104 | exactly the stored tasks with that status, each as often as it is stored, in store order: the store's tasks at the increasing positions `KeptIndices` gives |
| FrontendTaskStore.SortedView | apps/frontend/src/stores/taskStore.ts:81-91 | sorting the view keeps its tasks and orders them when every task has the key |
| FrontendTaskStore.ShownView | apps/frontend/src/stores/taskStore.ts:69-79 | the one-step view holds exactly the stored tasks the active filters show |
| FrontendTaskStore.FilteredIsShown | apps/frontend/src/stores/taskStore.ts:69-79 | the two filter steps select exactly the tasks the active filters admit |
| FrontendAuthStore.AuthStore.constructor | apps/frontend/src/stores/auth.store.ts:17-18 | the store starts logged out, with no user, and `isAuthenticated` holds exactly when a user is held |
| FrontendAuthStore.AuthStore.SetAuth | apps/frontend/src/stores/auth.store.ts:20-24 | the user is set and `isAuthenticated` is true |
| FrontendAuthStore.AuthStore.ClearAuth | apps/frontend/src/stores/auth.store.ts:26-30 | logged out whatever the state was, so a second call changes nothing |
| FrontendAuthStore.AuthStore.IsEmployer | apps/frontend/src/stores/auth.store.ts:32-35 | holds exactly when the user held is an EMPLOYER |
| FrontendAuthStore.AuthStore.IsEmployee | apps/frontend/src/stores/auth.store.ts:37-40 | holds exactly when the user held is an EMPLOYEE |
| FrontendAuthStore.RoleTestsExclusive | apps/frontend/src/stores/auth.store.ts:17-40 | the role tests never both hold; both fail when logged out, and one holds when logged in |
| UseSummary.AssigneeIdsSpec | apps/frontend/src/hooks/useSummary.ts:12-21 | the breakdown's ids are exactly the ids some task is assigned to, with no repeats |
| UseSummary.FirstUsernameStable | apps/frontend/src/hooks/useSummary.ts:14-21 | once an employee has appeared, later tasks do not change their username |
| UseSummary.Visit | apps/frontend/src/hooks/useSummary.ts:11-28 | one `forEach` step keeps the map tied to the tasks seen: insertion order is first appearance, and each entry holds the first username and the task and COMPLETED counts |
| UseSummary.EmployeeSummary | apps/frontend/src/hooks/useSummary.ts:8-43 | one entry per distinct assignee, in order of first appearance, with the username of their first task, total ≥ 1, completed ≤ total, and the rate rounded to two decimals |
| UseSummary.WithRate | apps/frontend/src/hooks/useSummary.ts:31-40 | an entry keeps its counts and gets completed/total to two decimals, 0 with no tasks |
| UseSummary.StatusCountsSum | apps/frontend/src/hooks/useSummary.ts:47-53 | the three status counts add up to the number of tasks |
| UseSummary.Stats | apps/frontend/src/hooks/useSummary.ts:45-64 | overall stats count every task, assigned or not; completed, inProgress and pending are the numbers of COMPLETED, IN_PROGRESS and PENDING tasks, summing to the total; the rate rounds to a whole percent, 0 with no tasks |
| UseSummary.StatusCount | apps/frontend/src/hooks/useSummary.ts:47-53 | filtering by a status keeps as many tasks as hold that status |
| UseSummary.Summary | apps/frontend/src/hooks/useSummary.ts:5-71 | `totalEmployees` is the length of the breakdown, one entry per distinct assignee, and the stats cover every task |
| Dashboard.CountsOf | apps/frontend/src/components/dashboard/Dashboard.tsx:13-20 | each count is the number of tasks with its status, the counts sum to the total and lie between 0 and it, and they agree with the summary hook's stats |
| Dashboard.ShownRate | apps/frontend/src/components/dashboard/Dashboard.tsx:109-117 | the completion rate is shown exactly when there is a task, and is completed/total rounded to a whole percent |
| Dashboard.ExtremeRates | apps/frontend/src/components/dashboard/Dashboard.tsx:116 | all completed shows 100, none completed shows 0 |
| TaskList.CanUpdateStatus | apps/frontend/src/components/tasks/TaskList.tsx:96-101 | holds exactly for the EMPLOYEE the task is assigned to |
| TaskList.CanDelete | apps/frontend/src/components/tasks/TaskList.tsx:103-105 | holds exactly for the EMPLOYER who created the task |
| TaskList.ControlsExclusive | apps/frontend/src/components/tasks/TaskList.tsx:96-105 | no user gets both controls on a task; an unassigned task and a logged-out user get no status selector |
| GetColors.BucketOf | apps/frontend/src/utils/getColors.ts:1-20 | the thresholds 80, 60 and 40 split the rates into four bands, negatives red |
| GetColors.CompletionRateColor | apps/frontend/src/utils/getColors.ts:1-6 | green from 80, blue from 60, yellow from 40, else red |
| GetColors.CompletionRateBackground | apps/frontend/src/utils/getColors.ts:8-13 | the same bands as background classes |
| GetColors.ProgressRateBackground | apps/frontend/src/utils/getColors.ts:15-20 | the same bands as progress-bar classes |
| GetColors.SameBucket | apps/frontend/src/utils/getColors.ts:1-20 | all three functions pick the class of the same band |
| GetColors.BucketMonotone | apps/frontend/src/utils/getColors.ts:1-20 | a higher rate never gets a lower band |
| GetColors.HundredthsBuckets | apps/frontend/src/utils/getColors.ts:2-5 | for a rate held in hundredths, green starts at 8000 and red ends below 4000 |
| CheckStatus.BadgeClass | apps/frontend/src/utils/checkStatus.ts:3-14 | IN_PROGRESS and COMPLETED get their own badge classes, and every other string gets the PENDING class |
| CheckStatus.DisplayName | apps/frontend/src/utils/checkStatus.ts:16-27 | IN_PROGRESS and COMPLETED get their own names, and every other string gets "Pending" |
| CheckStatus.FallbackIsPending | apps/frontend/src/utils/checkStatus.ts:11-12 | a string naming no status gets the PENDING values in both maps |
| CheckStatus.MapsInjective | apps/frontend/src/utils/checkStatus.ts:3-27 | both maps tell the three statuses apart |

## Left out

- **Database, wiring and configuration.** The Prisma client, the Express server and routes, CORS, helmet, rate limiting, the environment and logger modules, the `asyncHandler` wrapper and every log call are not part of this model. The store is two maps.
- **The live adapters.** `controllers/task.controller.ts` and `controllers/auth.controller.ts` are not part of this model. Each only forwards to the service.
- **Prisma includes.** The `createdBy` and `assignedTo` `{ id, username }` objects a response includes are not modelled. A response carries the task row.
- **Foreign keys.** A create or update whose row names a missing user is answered as the store's foreign-key error. Assignee checks make this unreachable for assignees; a creator id from a token of a deleted user can still reach it.
- **Cryptography and time.** bcrypt hashing, salting and comparing, JWT signing and verifying, the 24-hour expiry, `new Date`, and the ISO-8601 and date-parse checks are parameters. Whether their results are right is not modelled. `HashesCheck` states the one property a lemma needs.
- **Message texts.** The texts of zod issues and of express-validator errors are not modelled beyond the messages the source writes out.
- **Rounding and numbers.** Rates are exact rationals rounded half up. IEEE-754 effects of `Math.round(x * 100) / 100` are not modelled. JavaScript numbers passed to the colour functions are reals.
- **Unpaired surrogates.** A JavaScript string may hold a surrogate code unit with no partner. The model's characters are Unicode scalar values, so such strings are not modelled.
- **Request values of other types.** Request fields are strings or missing. JSON arrays, numbers and objects are not modelled.
- **Undefined values in a client patch.** A client patch may give a required field explicitly as `undefined`. This is not modelled.
- **String order in UTF-16.** `Text.Less` compares code points. JavaScript's `<` compares UTF-16 code units. The two differ only when one string has an astral character and the other, at the same place, a character from U+E000 to U+FFFF. The sort keys here, ISO dates and status names, hold neither.
- FrontendTaskStore.TaskStore.GetFilteredTasks: stability is not stated. `Seqs.Sort` is stable like `Array.prototype.sort`, but no ensures says that tasks with equal keys keep their filtered order.
- **Sorting with an inconsistent comparator.** The engine's `sort` order when the client comparator is not an ordering (undated tasks sorted by due date) is not modelled. Only the permutation is promised there.
- **Columns outside the three.** The older list handler passes other column names to the store and may sort by them. The model answers 500 for any sort column other than createdAt, dueDate and status.
- **Null due dates in the backend order.** The backend puts a null due date after every date ascending and before every date descending, which is PostgreSQL's default. The database engine is not named in these sources, so this placement is an assumption.
- **Status column order.** The backend's ordering of the status column is taken as the enum's declaration order, because the Prisma schema is not part of this model.
- **Client persistence and asynchrony.** zustand `persist` and localStorage, React rendering, hooks memoisation, axios and toasts, the forms and the other UI components are not part of this model. Each asynchronous handler is one sequential method.
- **Seed data.** The seed script is not part of this model.
- **Status badge copies.** The badge-class and display-name switches inside TaskList.tsx (lines 70-94) are the same as those in checkStatus.ts, so `CheckStatus` models both.
- TaskService.GetTasks: the row order among ties (equal sort keys) is left open, as for the store.
- TaskService.GetEmployees: the order of the employee list is left open, as for the store.

## Findings

| source | as written | input that shows it | evidently intended | confidence | as-written member | corrected member |
|---|---|---|---|---|---|---|
| apps/backend/src/services/task.service.ts:123 | The employee check refuses an update only when title, description, assignedToId or dueDate is truthy. The write at lines 141-148 takes every field that is not `undefined`. The same pair is at taskController.ts:186 and 211-217. | The task's assigned EMPLOYEE sends `{ "description": "" }`. The update schema and the update rules accept it (`Validation.BlankDescriptionPassesValidation`). The check passes. The task's description becomes "". A blank `dueDate` would pass the check too and clear the due date, but both validators refuse it first. | Employees can change only the status, so any other field that is present is refused. | not executed | TaskPolicy.EmployeeBlankFieldsAreWritten | TaskPolicy.IntendedEmployeeUpdateChangesOnlyStatus |

`TaskService.UpdateTask` and `TaskController.UpdateTask` model the check as written, because they describe the deployed handlers. `TaskPolicy.UpdateDenialIntended` is the corrected check. `TaskPolicy.IntendedEmployeeUpdateChangesOnlyStatus` proves that it lets an employee change only the status. The corrected check refuses everything the check as written refuses.
