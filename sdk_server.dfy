/**
  The fixed fake server of the SDK tests: three schedules served two at a
  time with the id of a page's last schedule as the cursor, lookups by id,
  fixed on-call entry tables and a user table. Every route sits behind the
  same API-key check; a path no route claims gets the mux's plain 404 before
  any key check.
*/
module SdkServer {
  import opened Wrappers
  import opened Text
  import opened Wire
  import opened Sync
  import opened PageWalk

  const ValidApiKey := "test-api-key-valid"

  /** The schedule list ignores the requested page size and always serves this many. */
  const SdkPageSize := 2

  const Platform := Schedule("sched-001", "Platform Engineering", "America/New_York")
  const Backend := Schedule("sched-002", "Backend Team", "America/Los_Angeles")
  const Infra := Schedule("sched-003", "Infra Escalation", "Europe/London")

  /** The schedule list in the order the handler pages through it. */
  const Catalogue := [Platform, Backend, Infra]

  /** The lookup table of the get-schedule handler. */
  const ScheduleTable := map["sched-001" := Platform, "sched-002" := Backend, "sched-003" := Infra]

  const Alice := User("user-alice", "Alice Chen", "alice@example.com", "responder")
  const Bob := User("user-bob", "Bob Martinez", "bob@example.com", "responder")
  const Carol := User("user-carol", "Carol Davis", "carol@example.com", "responder")
  const NoEmail := User("user-noemail", "No Email User", "", "observer")

  /** The lookup table of the get-user handler. */
  const UserTable := map["user-alice" := Alice, "user-bob" := Bob, "user-carol" := Carol, "user-noemail" := NoEmail]

  /** The users the list handler returns. */
  const ListedUsers := [Alice, Bob, Carol]

  /** http.NotFound: the mux's plain-text 404. */
  function MuxNotFound(): Response {
    Response(404, PlainText("404 page not found\n"))
  }

  /** withAuth: the wrapped handler's response only for the exact bearer header of the valid key. */
  function WithAuth(req: Request, next: Response): (r: Response)
    ensures req.authorization == Bearer(ValidApiKey) ==> r == next
    ensures req.authorization != Bearer(ValidApiKey) ==> r == Unauthorized()
  {
    if req.authorization != Bearer(ValidApiKey) then Unauthorized() else next
  }

  // ---------------------------------------------------------------------
  // GET /v2/schedules: id-cursor paging
  // ---------------------------------------------------------------------

  /** The index of the first schedule in s with this id, if there is one. */
  function FirstIndexOf(s: seq<Schedule>, id: string): (r: Option<nat>)
    ensures r.Some? ==> r.value < |s| && s[r.value].id == id && forall j :: 0 <= j < r.value ==> s[j].id != id
    ensures r.None? ==> forall j :: 0 <= j < |s| ==> s[j].id != id
  {
    if s == [] then None
    else if s[0].id == id then Some(0)
    else match FirstIndexOf(s[1..], id)
      case Some(i) => Some(i + 1)
      case None => None
  }

  /** Where a page starts: one past the schedule named by the cursor; 0 for an empty or unknown cursor. */
  function StartAfter(after: string): (start: nat)
    ensures start <= |Catalogue|
  {
    if after == "" then 0
    else match FirstIndexOf(Catalogue, after)
      case Some(i) => i + 1
      case None => 0
  }

  /** The handler's search loop for the cursor. */
  method FindStart(after: string) returns (start: nat)
    ensures start == StartAfter(after)
  {
    start := 0;
    if after != "" {
      var i := 0;
      while i < |Catalogue|
        invariant 0 <= i <= |Catalogue|
        invariant forall j :: 0 <= j < i ==> Catalogue[j].id != after
      {
        if Catalogue[i].id == after {
          start := i + 1;
          break;
        }
        i := i + 1;
      }
    }
  }

  function PageEnd(start: nat): (e: nat)
    ensures e <= |Catalogue|
  {
    if start + SdkPageSize > |Catalogue| then |Catalogue| else start + SdkPageSize
  }

  /** The schedule-list handler for a cursor. */
  function SchedulesPage(after: string): (r: Response)
    ensures r.Response? && r.status == 200 && r.body.SchedulesBody?
    ensures var p := r.body.schedulePage;
            && p.items == Catalogue[StartAfter(after)..PageEnd(StartAfter(after))]
            && p.pageSize == SdkPageSize && p.totalRecordCount == |Catalogue|
            && (p.after != "" <==> PageEnd(StartAfter(after)) < |Catalogue|)
  {
    var start := StartAfter(after);
    var e := PageEnd(start);
    var cursor := if e < |Catalogue| then Catalogue[e - 1].id else "";
    Response(200, SchedulesBody(Page(Catalogue[start..e], cursor, SdkPageSize, |Catalogue|)))
  }

  /** The schedule-list handler as the source runs it, with its search loop. */
  method ServeSchedulesPage(after: string) returns (r: Response)
    ensures r == SchedulesPage(after)
  {
    var start := FindStart(after);
    var e := start + SdkPageSize;
    if e > |Catalogue| {
      e := |Catalogue|;
    }
    var cursor := "";
    if e < |Catalogue| {
      cursor := Catalogue[e - 1].id;
    }
    r := Response(200, SchedulesBody(Page(Catalogue[start..e], cursor, SdkPageSize, |Catalogue|)));
  }

  /**
    One page: at most two schedules from the cursor on, total_record_count 3,
    and, when schedules remain, the id of the page's last schedule as the
    next cursor, which resumes exactly where the page ended.
  */
  lemma SchedulesPageContents(after: string)
    ensures var p := SchedulesPage(after).body.schedulePage;
            var start := StartAfter(after);
            && p.items == Catalogue[start..PageEnd(start)]
            && |p.items| <= SdkPageSize && p.pageSize == SdkPageSize
            && p.totalRecordCount == |Catalogue|
            && (p.after != "" <==> PageEnd(start) < |Catalogue|)
            && (p.after != "" ==> |p.items| > 0 && p.after == p.items[|p.items| - 1].id && StartAfter(p.after) == PageEnd(start))
  {
    var start := StartAfter(after);
    var e := PageEnd(start);
    if e < |Catalogue| {
      assert e == start + SdkPageSize;
      CatalogueIdsDistinct();
      var idx := FirstIndexOf(Catalogue, Catalogue[e - 1].id);
      assert idx == Some(e - 1);
    }
  }

  lemma CatalogueIdsDistinct()
    ensures forall i, j :: 0 <= i < j < |Catalogue| ==> Catalogue[i].id != Catalogue[j].id
  {
    assert Platform.id[8] == '1' && Backend.id[8] == '2' && Infra.id[8] == '3';
  }

  /** The schedule list never reads the clock; the walker's requests use this one. */
  function NoClock(hours: int): string { "" }

  /** The client's schedule listing against this server, for the walker. */
  function SdkList(c: string): Result<Page<Schedule>, ApiError> {
    SchedulePageOf(Handle(ListSchedulesRequest(ValidApiKey, SdkPageSize, c), NoClock))
  }

  /** Walking the list from the empty cursor with the test's cap of 10 yields the three schedules once each, in two pages. */
  lemma SdkWalkCollectsAll()
    ensures WalkFrom(SdkList, "", 0, 10) == Walked(Catalogue, 2)
  {
    var list := SdkList;
    SdkListPage("");
    SdkListPage("sched-002");
    assert StartAfter("") == 0;
    assert FirstIndexOf(Catalogue, "sched-002") == Some(1);
    assert list("") == Ok(Page(Catalogue[0..2], "sched-002", SdkPageSize, 3));
    assert list("sched-002") == Ok(Page(Catalogue[2..3], "", SdkPageSize, 3));
    assert WalkFrom(list, "sched-002", 1, 10) == Walked(Catalogue[2..3], 2);
    assert Catalogue[0..2] + Catalogue[2..3] == Catalogue;
  }

  /** What the walker's client reads for one cursor: the list handler's page. */
  lemma SdkListPage(c: string)
    ensures SdkList(c) == Ok(SchedulesPage(c).body.schedulePage)
  {
    ListedSchedulePage(ValidApiKey, SdkPageSize, c, NoClock);
  }

  /** A listing request with the valid key reaches the list handler, whatever page size it asks for. */
  lemma ListedSchedulePage(apiKey: string, pageSize: nat, after: string, at: int -> string)
    requires apiKey == ValidApiKey
    ensures Handle(ListSchedulesRequest(apiKey, pageSize, after), at) == SchedulesPage(after)
  {
    ListSchedulesRequestQuery(apiKey, pageSize, after);
  }

  // ---------------------------------------------------------------------
  // Lookups and fixed tables
  // ---------------------------------------------------------------------

  /** GET /v2/schedules/{id}: the mux's 404 for an empty id, the record, or 404 naming the id. */
  function GetSchedule(id: string): (r: Response)
    ensures id == "" ==> r == MuxNotFound()
    ensures id in ScheduleTable ==> r.Response? && r.status == 200 && r.body == ScheduleBody(ScheduleTable[id])
    ensures id != "" && id !in ScheduleTable ==> r.Response? && r.status == 404 && r.body.ErrorEnvelope?
  {
    if id == "" then MuxNotFound()
    else if id in ScheduleTable then Response(200, ScheduleBody(ScheduleTable[id]))
    else ErrorResponse(404, "not_found", "Schedule " + id + " not found")
  }

  /** GET /v2/users/{id}: the mux's 404 for an empty id, the record, or 404 naming the id. */
  function GetUser(id: string): (r: Response)
    ensures id == "" ==> r == MuxNotFound()
    ensures id in UserTable ==> r.Response? && r.status == 200 && r.body == UserBody(UserTable[id])
    ensures id != "" && id !in UserTable ==> r.Response? && r.status == 404 && r.body.ErrorEnvelope?
  {
    if id == "" then MuxNotFound()
    else if id in UserTable then Response(200, UserBody(UserTable[id]))
    else ErrorResponse(404, "not_found", "User " + id + " not found")
  }

  function EntryFor(entryId: string, scheduleId: string, startAt: string, endAt: string, u: User): Entry {
    Entry(entryId, scheduleId, startAt, endAt, EntryUser(u.id, u.name, u.email))
  }

  /** The fixed on-call entries of a schedule; at(h) is the RFC 3339 text of now plus h hours. */
  function FixedEntries(scheduleId: string, at: int -> string): seq<Entry> {
    if scheduleId == "sched-001" then
      [EntryFor("entry-001", "sched-001", at(-1), at(7), Alice), EntryFor("entry-002", "sched-001", at(-1), at(7), Bob)]
    else if scheduleId == "sched-002" then
      [EntryFor("entry-003", "sched-002", at(-2), at(6), Carol)]
    else []
  }

  /** GET /v2/schedule_entries: 400 without schedule_id, 404 for sched-nonexistent, else the fixed entries. */
  function ListEntries(scheduleId: string, at: int -> string): (r: Response)
    ensures r.Response?
    ensures r.status == 400 <==> scheduleId == ""
    ensures r.status == 404 <==> scheduleId == "sched-nonexistent"
    ensures r.status == 200 <==> scheduleId != "" && scheduleId != "sched-nonexistent"
    ensures r.status == 200 ==> r.body == EntriesBody(Page(FixedEntries(scheduleId, at), "", 250, |FixedEntries(scheduleId, at)|))
  {
    if scheduleId == "" then ErrorResponse(400, "validation_error", "schedule_id is required")
    else if scheduleId == "sched-nonexistent" then ErrorResponse(404, "not_found", "Schedule not found")
    else
      var entries := FixedEntries(scheduleId, at);
      Response(200, EntriesBody(Page(entries, "", 250, |entries|)))
  }

  /** GET /v2/users: every user with an email, on one page with no cursor. */
  function ListUsers(): (r: Response)
    ensures r.Response? && r.status == 200 && r.body.UsersBody? && r.body.userPage.after == ""
    ensures forall u :: u in r.body.userPage.items <==> u in UserTable.Values && u.email != ""
  {
    ListedUsersHaveEmail();
    Response(200, UsersBody(Page(ListedUsers, "", 250, |ListedUsers|)))
  }

  function Identity(): Response {
    Response(200, IdentityBody("Test Integration", "ak-test-123", None))
  }

  /** The paths a route is registered for: four exact paths and two subtrees. */
  predicate Registered(path: string) {
    || path == "/v1/identity" || path == "/v2/schedules" || path == "/v2/schedule_entries" || path == "/v2/users"
    || HasPrefix(path, "/v2/schedules/") || HasPrefix(path, "/v2/users/")
  }

  /** The server: the mux picks the route, the route checks the key, then the handler answers. */
  function Handle(req: Request, at: int -> string): (r: Response)
    ensures !Registered(req.path) ==> r == MuxNotFound()
    ensures Registered(req.path) && req.authorization != Bearer(ValidApiKey) ==> r == Unauthorized()
    ensures req.path == "/v2/schedules" && req.authorization == Bearer(ValidApiKey) ==> r == SchedulesPage(QueryGet(req.query, "after"))
    ensures req.path == "/v2/schedule_entries" && req.authorization == Bearer(ValidApiKey) ==>
              r == ListEntries(QueryGet(req.query, "schedule_id"), at)
    ensures req.path == "/v2/users" && req.authorization == Bearer(ValidApiKey) ==> r == ListUsers()
  {
    var p := req.path;
    if p == "/v1/identity" then WithAuth(req, Identity())
    else if p == "/v2/schedules" then WithAuth(req, SchedulesPage(QueryGet(req.query, "after")))
    else if p == "/v2/schedule_entries" then WithAuth(req, ListEntries(QueryGet(req.query, "schedule_id"), at))
    else if p == "/v2/users" then WithAuth(req, ListUsers())
    else if HasPrefix(p, "/v2/schedules/") then WithAuth(req, GetSchedule(TrimPrefix(p, "/v2/schedules/")))
    else if HasPrefix(p, "/v2/users/") then WithAuth(req, GetUser(TrimPrefix(p, "/v2/users/")))
    else MuxNotFound()
  }

  /**
    The key check: every registered route answers 401 unless the header is
    exactly the bearer form of the valid key; unregistered paths get the
    mux's 404 whatever the header.
  */
  lemma AuthGuardsEveryRoute(req: Request, at: int -> string)
    ensures Registered(req.path) && req.authorization != Bearer(ValidApiKey) ==> Handle(req, at) == Unauthorized()
    ensures !Registered(req.path) ==> Handle(req, at) == MuxNotFound()
  {
  }

  lemma ScheduleByIdRoutes(req: Request, at: int -> string, id: string)
    requires req.authorization == Bearer(ValidApiKey) && req.path == "/v2/schedules/" + id
    ensures Handle(req, at) == GetSchedule(id)
  {
    var p := req.path;
    assert p[..14] == "/v2/schedules/" && p[14..] == id;
    assert p[1] == 'v' && p[13] == '/';
  }

  lemma UserByIdRoutes(req: Request, at: int -> string, id: string)
    requires req.authorization == Bearer(ValidApiKey) && req.path == "/v2/users/" + id
    ensures Handle(req, at) == GetUser(id)
  {
    var p := req.path;
    assert p[..10] == "/v2/users/" && p[10..] == id;
    assert p[1] == 'v' && p[4] == 'u' && p[9] == '/';
    assert "/v2/schedules/"[4] == 's' && "/v2/schedule_entries"[4] == 's' && "/v2/schedules"[4] == 's';
  }

  /** With the valid key, a get by id reaches the lookup with the rest of the path as id. */
  lemma GetByIdRoutes(req: Request, at: int -> string, id: string)
    requires req.authorization == Bearer(ValidApiKey)
    ensures req.path == "/v2/schedules/" + id ==> Handle(req, at) == GetSchedule(id)
    ensures req.path == "/v2/users/" + id ==> Handle(req, at) == GetUser(id)
  {
    if req.path == "/v2/schedules/" + id {
      ScheduleByIdRoutes(req, at, id);
    }
    if req.path == "/v2/users/" + id {
      UserByIdRoutes(req, at, id);
    }
  }

  /** The lookup table and the list hold the same three schedules, each under its own id. */
  lemma TablesAgree()
    ensures ScheduleTable.Keys == set s | s in Catalogue :: s.id
    ensures forall i :: 0 <= i < |Catalogue| ==> ScheduleTable[Catalogue[i].id] == Catalogue[i]
    ensures forall id :: id in ScheduleTable ==> ScheduleTable[id].id == id
  {
    assert forall s :: s in Catalogue <==> s == Platform || s == Backend || s == Infra;
  }

  /** Get schedule: not-found for an empty id, 404 naming an unknown id, the listed record for a known one. */
  lemma GetScheduleOutcome(id: string)
    ensures id == "" ==> GetSchedule(id).status == 404
    ensures id != "" && id !in ScheduleTable ==> GetSchedule(id) == ErrorResponse(404, "not_found", "Schedule " + id + " not found")
    ensures id in ScheduleTable ==>
              GetSchedule(id).body.ScheduleBody? && GetSchedule(id).body.schedule in Catalogue && GetSchedule(id).body.schedule.id == id
  {
    TablesAgree();
  }

  /**
    The entry tables: sched-001 has Alice then Bob, sched-002 has Carol, any
    other non-empty id except sched-nonexistent has none; every entry belongs
    to the schedule asked for and names a user of the user table.
  */
  lemma EntriesOutcome(scheduleId: string, at: int -> string)
    ensures scheduleId == "" ==> ListEntries(scheduleId, at).status == 400
    ensures scheduleId == "sched-nonexistent" ==> ListEntries(scheduleId, at) == ErrorResponse(404, "not_found", "Schedule not found")
    ensures scheduleId != "" && scheduleId != "sched-nonexistent" ==>
              var p := ListEntries(scheduleId, at).body.entryPage;
              && p.after == "" && p.totalRecordCount == |p.items|
              && UserIds(p.items) == (if scheduleId == "sched-001" then [Alice.id, Bob.id]
                                      else if scheduleId == "sched-002" then [Carol.id] else [])
              && forall j :: 0 <= j < |p.items| ==>
                   p.items[j].scheduleId == scheduleId && p.items[j].user.id in UserTable
                   && p.items[j].user.name == UserTable[p.items[j].user.id].name
                   && p.items[j].user.email == UserTable[p.items[j].user.id].email
  {
  }

  /** The user list is exactly the table's users that have an email. */
  lemma ListedUsersHaveEmail()
    ensures forall u :: u in ListedUsers <==> u in UserTable.Values && u.email != ""
    ensures forall i :: 0 <= i < |ListedUsers| ==> UserTable[ListedUsers[i].id] == ListedUsers[i]
    ensures NoEmail in UserTable.Values && GetUser(NoEmail.id) == Response(200, UserBody(NoEmail))
  {
    forall u | u in UserTable.Values
      ensures u == Alice || u == Bob || u == Carol || u == NoEmail
    {
      var k :| k in UserTable && UserTable[k] == u;
    }
    assert UserTable[Alice.id] == Alice && UserTable[Bob.id] == Bob;
    assert UserTable[Carol.id] == Carol && UserTable[NoEmail.id] == NoEmail;
  }
}
