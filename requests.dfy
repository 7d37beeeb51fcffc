/**
 * Request bodies and query strings as they arrive, before any schema or rule
 * set has looked at them: every field is a string or missing (`undefined`).
 */
module Requests {
  import opened Wrappers

  /** The fields of a task create or update body. */
  datatype RawTaskBody = RawTaskBody(
    title: Option<string>, description: Option<string>, status: Option<string>,
    assignedToId: Option<string>, dueDate: Option<string>)

  /** The query string of a task list request. */
  datatype RawQuery = RawQuery(
    assignedToId: Option<string>, status: Option<string>, sortBy: Option<string>, sortOrder: Option<string>)

  /** The fields of a signup or signin body. */
  datatype RawAuthBody = RawAuthBody(username: Option<string>, password: Option<string>, role: Option<string>)
}
