/**
  The records of the incident-management API as the mock servers write them
  (schedules, users, on-call entries, list pages, error envelopes), an HTTP
  exchange reduced to what the handlers read and write, and the boundary at
  which a client turns a response into a value or an error.
*/
module Wire {
  import opened Wrappers
  import opened Text

  datatype Schedule = Schedule(id: string, name: string, timezone: string)

  datatype User = User(id: string, name: string, email: string, role: string)

  /** The user embedded in an on-call entry: a user without its role. */
  datatype EntryUser = EntryUser(id: string, name: string, email: string)

  /** One on-call assignment; start and end are RFC 3339 text, kept opaque. */
  datatype Entry = Entry(entryId: string, scheduleId: string, startAt: string, endAt: string, user: EntryUser)

  /** One page of a list response with its pagination_meta. */
  datatype Page<T> = Page(items: seq<T>, after: string, pageSize: int, totalRecordCount: int)

  datatype Body =
    | ErrorEnvelope(kind: string, status: int, message: string)
    | PlainText(text: string)
    | NoBody
    | IdentityBody(name: string, apiKeyId: string, organisationId: Option<string>)
    | SchedulesBody(schedulePage: Page<Schedule>)
    | ScheduleBody(schedule: Schedule)
    | EntriesBody(entryPage: Page<Entry>)
    | UserBody(user: User)
    | UsersBody(userPage: Page<User>)

  /**
    What the client receives: a status and a body, or nothing at all when the
    handler panicked and the server dropped the connection.
  */
  datatype Response = Response(status: int, body: Body) | Dropped

  /** The parts of an HTTP request the handlers read; a query parameter has one value. */
  datatype Request = Request(verb: string, path: string, query: map<string, string>, authorization: string)

  /** url.Values.Get: the parameter's value, or "" when it is absent. */
  function QueryGet(query: map<string, string>, key: string): (v: string)
    ensures key in query ==> v == query[key]
    ensures key !in query ==> v == ""
  {
    if key in query then query[key] else ""
  }

  /** The Authorization header value for an API key (the bearer form of section 2.1 of RFC 6750). */
  function Bearer(apiKey: string): string { "Bearer " + apiKey }

  function ErrorResponse(status: int, kind: string, message: string): Response {
    Response(status, ErrorEnvelope(kind, status, message))
  }

  /** The 401 every server here sends for a missing or wrong API key. */
  function Unauthorized(): Response {
    ErrorResponse(401, "authentication_error", "Invalid API key")
  }

  predicate IsSuccess(status: int) { 200 <= status < 300 }

  /** A failed call as the client reports it: the HTTP status and the envelope's type and message. */
  datatype ApiError = ApiError(status: int, kind: string, message: string) | ConnectionLost

  function ErrorOf(r: Response): ApiError {
    match r
    case Dropped => ConnectionLost
    case Response(status, body) =>
      match body
      case ErrorEnvelope(kind, _, message) => ApiError(status, kind, message)
      case PlainText(text) => ApiError(status, "", text)
      case _ => ApiError(status, "", "")
  }

  /** The result of a list-schedules call: the page on a 2xx schedule list, otherwise an error. */
  function SchedulePageOf(r: Response): (res: Result<Page<Schedule>, ApiError>)
    ensures res.Ok? <==> r.Response? && IsSuccess(r.status) && r.body.SchedulesBody?
    ensures res.Ok? ==> res.value == r.body.schedulePage
  {
    if r.Response? && IsSuccess(r.status) && r.body.SchedulesBody? then Ok(r.body.schedulePage)
    else Err(ErrorOf(r))
  }

  /** The result of a list-entries call: the entries on a 2xx entry list, otherwise an error. */
  function EntriesOf(r: Response): (res: Result<seq<Entry>, ApiError>)
    ensures res.Ok? <==> r.Response? && IsSuccess(r.status) && r.body.EntriesBody?
    ensures res.Ok? ==> res.value == r.body.entryPage.items
  {
    if r.Response? && IsSuccess(r.status) && r.body.EntriesBody? then Ok(r.body.entryPage.items)
    else Err(ErrorOf(r))
  }

  /** The result of a get-user call: the user on a 2xx user record, otherwise an error. */
  function UserOf(r: Response): (res: Result<User, ApiError>)
    ensures res.Ok? <==> r.Response? && IsSuccess(r.status) && r.body.UserBody?
    ensures res.Ok? ==> res.value == r.body.user
  {
    if r.Response? && IsSuccess(r.status) && r.body.UserBody? then Ok(r.body.user)
    else Err(ErrorOf(r))
  }

  /** GET /v2/schedules as a client sends it: page_size always, after only when non-empty. */
  function ListSchedulesRequest(apiKey: string, pageSize: nat, after: string): Request {
    var q := map["page_size" := Itoa(pageSize)];
    Request("GET", "/v2/schedules", if after == "" then q else q["after" := after], Bearer(apiKey))
  }

  /** The server reads back the page size and the cursor the client wrote. */
  lemma ListSchedulesRequestQuery(apiKey: string, pageSize: nat, after: string)
    ensures var q := ListSchedulesRequest(apiKey, pageSize, after).query;
            QueryGet(q, "page_size") == Itoa(pageSize) && QueryGet(q, "after") == after
  {
    assert "page_size"[0] != "after"[0];
  }

  /** GET /v2/schedule_entries for one schedule and an entry window. */
  function ListEntriesRequest(apiKey: string, scheduleId: string, windowStart: string, windowEnd: string): Request {
    Request("GET", "/v2/schedule_entries",
      map["schedule_id" := scheduleId, "entry_window_start" := windowStart, "entry_window_end" := windowEnd],
      Bearer(apiKey))
  }

  /** GET /v2/users/{id}; the server sees the decoded path. */
  function GetUserRequest(apiKey: string, userId: string): Request {
    Request("GET", "/v2/users/" + userId, map[], Bearer(apiKey))
  }
}
