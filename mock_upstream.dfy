/**
  The stateful fake of the incident-management API: a table of schedules,
  users and on-call lists with failure injection and a request log. Its
  handlers are pure functions of a snapshot of that state (MockState); the
  class MockIncidentIO holds the state and changes it in place.
*/
module MockUpstream {
  import opened Wrappers
  import opened Text
  import opened Wire

  /** All of the mock's state that the handlers read: everything but the request log. */
  datatype MockState = MockState(
    apiKey: string,
    schedules: map<string, Schedule>,
    users: map<string, User>,
    onCall: map<string, seq<string>>,
    failSchedules: map<string, bool>,
    failEndpoints: map<string, int>)

  /**
    What the Go runtime decides for a request: the order in which ranging over
    the schedule and user maps visits their keys, and the clock, as the RFC 3339
    text of now plus a number of hours.
  */
  datatype Env = Env(scheduleOrder: seq<string>, userOrder: seq<string>, at: int -> string)

  /** order visits every key of m exactly once. */
  predicate Enumerates<V>(order: seq<string>, m: map<string, V>) {
    && (forall i :: 0 <= i < |order| ==> order[i] in m)
    && (forall k :: k in m ==> k in order)
    && (forall i, j :: 0 <= i < j < |order| ==> order[i] != order[j])
  }

  predicate Fits(st: MockState, env: Env) {
    Enumerates(env.scheduleOrder, st.schedules) && Enumerates(env.userOrder, st.users)
  }

  /** A key order without repeats has as many entries as the map has keys. */
  lemma EnumerationSize<V>(order: seq<string>, m: map<string, V>)
    requires Enumerates(order, m)
    ensures |order| == |m|
  {
    DistinctSize(order);
    assert m.Keys == set k | k in order;
  }

  lemma {:induction false} DistinctSize(s: seq<string>)
    requires forall i, j :: 0 <= i < j < |s| ==> s[i] != s[j]
    ensures |set k | k in s| == |s|
  {
    if s != [] {
      var t := s[1..];
      DistinctSize(t);
      assert (set k | k in s) == (set k | k in t) + {s[0]};
      assert s[0] !in (set k | k in t);
    }
  }

  // ---------------------------------------------------------------------
  // GET /v2/schedules
  // ---------------------------------------------------------------------

  const DefaultPageSize := 25

  /** page_size: 25 unless the parameter parses to a positive int. */
  function PageSizeParam(ps: string): (n: int)
    ensures n >= 1
    ensures Atoi(ps) > 0 ==> n == Atoi(ps)
    ensures Atoi(ps) <= 0 ==> n == DefaultPageSize
  {
    if ps != "" && Atoi(ps) > 0 then Atoi(ps) else DefaultPageSize
  }

  /** The first index of the page: the after parameter when it parses to a positive int, else 0. */
  function StartParam(after: string): (n: nat)
    ensures Atoi(after) > 0 ==> n == Atoi(after)
    ensures Atoi(after) <= 0 ==> n == 0
  {
    if after != "" && Atoi(after) > 0 then Atoi(after) else 0
  }

  /** A page size the client writes with Itoa is the page size the handler uses. */
  lemma PageSizeParamItoa(k: nat)
    requires 1 <= k <= MaxInt64
    ensures PageSizeParam(Itoa(k)) == k
  {
    AtoiItoa(k);
  }

  /** An offset cursor the handler writes with Itoa is where the next page starts. */
  lemma StartParamItoa(k: nat)
    requires k <= MaxInt64
    ensures StartParam(Itoa(k)) == k
  {
    AtoiItoa(k);
  }

  function Min(a: int, b: int): int { if a < b then a else b }

  /**
    The slice [lo, hi) of a list of n schedules that one page returns: start at
    startIdx, at most pageSize items, both ends clamped to the list.
  */
  function PageBounds(startIdx: nat, pageSize: nat, n: nat): (b: (nat, nat))
    ensures b.0 <= b.1 <= n
    ensures b.1 - b.0 <= pageSize
    ensures startIdx <= n ==> b.0 == startIdx && b.1 == Min(startIdx + pageSize, n)
    ensures startIdx > n ==> b.0 == n && b.1 == n
  {
    var endIdx := if startIdx + pageSize > n then n else startIdx + pageSize;
    var start := if startIdx > n then n else startIdx;
    (start, endIdx)
  }

  /**
    The same bounds computed as Go computes them, with 64-bit ints: the sum
    startIdx + pageSize wraps around when it passes MaxInt64.
  */
  function PageBoundsInt64(startIdx: int, pageSize: int, n: nat): (b: (int, int))
    requires 0 <= startIdx <= MaxInt64 && 1 <= pageSize <= MaxInt64
    ensures startIdx + pageSize <= MaxInt64 ==> b == (PageBounds(startIdx, pageSize, n).0, PageBounds(startIdx, pageSize, n).1)
  {
    var endIdx := WrapInt64(startIdx + pageSize);
    var endIdx' := if endIdx > n then n else endIdx;
    var start := if startIdx > n then n else startIdx;
    (start, endIdx')
  }

  /**
    after=9223372036854775807 with the default page size: the 64-bit sum wraps
    to a negative end, so all[startIdx:endIdx] is out of range and the handler
    panics.
  */
  lemma PageBoundsInt64Overflow(n: nat)
    requires n <= MaxInt64
    ensures var b := PageBoundsInt64(MaxInt64, DefaultPageSize, n); b.1 < 0 && b.1 < b.0
  {
  }

  /** The schedules in the order ranging over the map visits them. */
  function AllSchedules(st: MockState, env: Env): (all: seq<Schedule>)
    requires Fits(st, env)
    ensures |all| == |st.schedules| == |env.scheduleOrder|
    ensures forall i :: 0 <= i < |all| ==> all[i] == st.schedules[env.scheduleOrder[i]]
  {
    EnumerationSize(env.scheduleOrder, st.schedules);
    seq(|env.scheduleOrder|, i requires 0 <= i < |env.scheduleOrder| => st.schedules[env.scheduleOrder[i]])
  }

  /**
    handleListSchedules: one page of the schedule list with an offset cursor.
    The page is cut with PageBounds, which does not wrap around; Go's
    64-bit sum does (PageBoundsInt64).
  */
  function ListSchedulesResponse(st: MockState, env: Env, query: map<string, string>): (r: Response)
    requires Fits(st, env)
    ensures r.Response? && r.status == 200 && r.body.SchedulesBody?
  {
    var all := AllSchedules(st, env);
    var pageSize := PageSizeParam(QueryGet(query, "page_size"));
    var b := PageBounds(StartParam(QueryGet(query, "after")), pageSize, |all|);
    var after := if b.1 < |all| then Itoa(b.1) else "";
    Response(200, SchedulesBody(Page(all[b.0..b.1], after, pageSize, |all|)))
  }

  /**
    What one page of the schedule list holds: the slice of the list that
    starts at the cursor, at most page_size long, total_record_count equal to
    the number of schedules, and a next cursor that is the decimal end index
    exactly when schedules remain after the page.
  */
  lemma ListSchedulesPage(st: MockState, env: Env, query: map<string, string>)
    requires Fits(st, env)
    ensures var all := AllSchedules(st, env);
            var p := ListSchedulesResponse(st, env, query).body.schedulePage;
            var b := PageBounds(StartParam(QueryGet(query, "after")), p.pageSize, |all|);
            && p.pageSize >= 1
            && p.items == all[b.0..b.1]
            && |p.items| <= p.pageSize
            && p.totalRecordCount == |st.schedules|
            && (p.after == "" <==> b.1 == |all|)
            && (p.after != "" ==> p.after == Itoa(b.1) && 0 < b.1 < |all|)
  {
    var all := AllSchedules(st, env);
    var p := ListSchedulesResponse(st, env, query).body.schedulePage;
    var b := PageBounds(StartParam(QueryGet(query, "after")), p.pageSize, |all|);
    if b.1 < |all| {
      assert b.1 > 0;
      assert |Itoa(b.1)| >= 1;
    }
  }

  // ---------------------------------------------------------------------
  // GET /v2/schedules/{id}, /v2/users, /v2/users/{id}, /v1/identity
  // ---------------------------------------------------------------------

  /** handleGetSchedule: the stored record, or 404 naming the id. */
  function GetScheduleResponse(st: MockState, id: string): (r: Response)
    ensures id in st.schedules ==> r == Response(200, ScheduleBody(st.schedules[id]))
    ensures id !in st.schedules ==> r == ErrorResponse(404, "not_found", "Schedule " + id + " not found")
  {
    if id in st.schedules then Response(200, ScheduleBody(st.schedules[id]))
    else ErrorResponse(404, "not_found", "Schedule " + id + " not found")
  }

  /** handleGetUser: the stored record, or 404 naming the id. */
  function GetUserResponse(st: MockState, id: string): (r: Response)
    ensures id in st.users ==> r == Response(200, UserBody(st.users[id]))
    ensures id !in st.users ==> r == ErrorResponse(404, "not_found", "User " + id + " not found")
  {
    if id in st.users then Response(200, UserBody(st.users[id]))
    else ErrorResponse(404, "not_found", "User " + id + " not found")
  }

  /** handleListUsers: every user once, in map order, on a single page. */
  function ListUsersResponse(st: MockState, env: Env): (r: Response)
    requires Fits(st, env)
    ensures r.Response? && r.status == 200 && r.body.UsersBody?
    ensures var p := r.body.userPage;
            && |p.items| == |st.users| == |env.userOrder| == p.totalRecordCount
            && p.after == ""
            && (forall i :: 0 <= i < |p.items| ==> p.items[i] == st.users[env.userOrder[i]])
  {
    EnumerationSize(env.userOrder, st.users);
    var users := seq(|env.userOrder|, i requires 0 <= i < |env.userOrder| => st.users[env.userOrder[i]]);
    Response(200, UsersBody(Page(users, "", 250, |users|)))
  }

  function IdentityResponse(): Response {
    Response(200, IdentityBody("Test Integration", "ak-test", Some("org-test")))
  }

  // ---------------------------------------------------------------------
  // GET /v2/schedule_entries
  // ---------------------------------------------------------------------

  /** The entry for the on-call user at position i of a schedule's list. */
  function MakeEntry(scheduleId: string, i: nat, user: User, at: int -> string): Entry {
    Entry("entry-" + scheduleId + "-" + Itoa(i), scheduleId, at(-1), at(7),
      EntryUser(user.id, user.name, user.email))
  }

  function OnCallIds(st: MockState, scheduleId: string): seq<string> {
    if scheduleId in st.onCall then st.onCall[scheduleId] else []
  }

  /**
    The entries built from the first k on-call ids: ids with no user are
    skipped, and the entry for the id at position i is numbered i.
  */
  function EntriesUpTo(st: MockState, scheduleId: string, uids: seq<string>, k: nat, at: int -> string): (es: seq<Entry>)
    requires k <= |uids|
    ensures var pos := KnownPositions(st.users, uids[..k]);
            && |es| == |pos|
            && forall j :: 0 <= j < |es| ==> es[j] == MakeEntry(scheduleId, pos[j], st.users[uids[pos[j]]], at)
  {
    if k == 0 then []
    else
      assert uids[..k][..k - 1] == uids[..k - 1];
      EntriesUpTo(st, scheduleId, uids, k - 1, at)
      + (if uids[k - 1] in st.users then [MakeEntry(scheduleId, k - 1, st.users[uids[k - 1]], at)] else [])
  }

  /** The entries of a schedule: one per on-call position whose id names a user, in on-call order. */
  function OnCallEntries(st: MockState, scheduleId: string, at: int -> string): (es: seq<Entry>)
    ensures var uids := OnCallIds(st, scheduleId);
            var pos := KnownPositions(st.users, uids);
            && |es| == |pos|
            && forall j :: 0 <= j < |es| ==> es[j] == MakeEntry(scheduleId, pos[j], st.users[uids[pos[j]]], at)
  {
    var uids := OnCallIds(st, scheduleId);
    assert uids[..|uids|] == uids;
    EntriesUpTo(st, scheduleId, uids, |uids|, at)
  }

  /** The positions of uids whose id names a known user, in increasing order. */
  function KnownPositions(users: map<string, User>, uids: seq<string>): (pos: seq<nat>)
    ensures |pos| <= |uids|
    ensures forall k :: 0 <= k < |pos| ==> pos[k] < |uids|
    ensures forall k, l :: 0 <= k < l < |pos| ==> pos[k] < pos[l]
    ensures forall i :: 0 <= i < |uids| ==> (i in pos <==> uids[i] in users)
  {
    if uids == [] then []
    else
      var n := |uids| - 1;
      var pos' := KnownPositions(users, uids[..n]);
      pos' + (if uids[n] in users then [n] else [])
  }

  /**
    The on-call ids that name a known user, in on-call order: the id at each
    known position, and no other.
  */
  function KnownIds(users: map<string, User>, uids: seq<string>): (r: seq<string>)
    ensures var pos := KnownPositions(users, uids);
            |r| == |pos| && forall k :: 0 <= k < |r| ==> r[k] == uids[pos[k]]
    ensures |r| <= |uids|
    ensures forall u :: u in r <==> u in uids && u in users
  {
    if uids == [] then []
    else KnownIds(users, uids[..|uids| - 1]) + (if uids[|uids| - 1] in users then [uids[|uids| - 1]] else [])
  }

  function EntryUserOf(u: User): EntryUser { EntryUser(u.id, u.name, u.email) }

  /**
    There is one entry per on-call id that names a known user, in on-call
    order, carrying that user; the entry belongs to the schedule asked for.
  */
  lemma EntriesUpToUsers(st: MockState, scheduleId: string, uids: seq<string>, k: nat, at: int -> string)
    requires k <= |uids|
    ensures var es := EntriesUpTo(st, scheduleId, uids, k, at);
            var known := KnownIds(st.users, uids[..k]);
            && |es| == |known|
            && forall j :: 0 <= j < |es| ==> es[j].user == EntryUserOf(st.users[known[j]]) && es[j].scheduleId == scheduleId
  {
    var es := EntriesUpTo(st, scheduleId, uids, k, at);
    var known := KnownIds(st.users, uids[..k]);
    var pos := KnownPositions(st.users, uids[..k]);
    forall j | 0 <= j < |es|
      ensures es[j].user == EntryUserOf(st.users[known[j]]) && es[j].scheduleId == scheduleId
    {
      assert known[j] == uids[..k][pos[j]] == uids[pos[j]];
    }
  }

  /** handleListEntries: 400 without schedule_id, 500 for a schedule set to fail, else its entries. */
  function ListEntriesResponse(st: MockState, query: map<string, string>, at: int -> string): (r: Response)
    ensures QueryGet(query, "schedule_id") == "" ==> r == ErrorResponse(400, "validation_error", "schedule_id is required")
  {
    var scheduleId := QueryGet(query, "schedule_id");
    if scheduleId == "" then ErrorResponse(400, "validation_error", "schedule_id is required")
    else if scheduleId in st.failSchedules && st.failSchedules[scheduleId] then
      ErrorResponse(500, "internal_error", "Schedule temporarily unavailable")
    else
      var entries := OnCallEntries(st, scheduleId, at);
      Response(200, EntriesBody(Page(entries, "", 250, |entries|)))
  }

  /**
    The entry list of a schedule that is not set to fail: one entry per known
    on-call user, in on-call order, and never a next cursor.
  */
  lemma ListEntriesContents(st: MockState, query: map<string, string>, at: int -> string)
    requires QueryGet(query, "schedule_id") != ""
    ensures var sid := QueryGet(query, "schedule_id");
            var r := ListEntriesResponse(st, query, at);
            && (sid in st.failSchedules && st.failSchedules[sid] ==> r == ErrorResponse(500, "internal_error", "Schedule temporarily unavailable"))
            && (!(sid in st.failSchedules && st.failSchedules[sid]) ==>
                  var known := KnownIds(st.users, OnCallIds(st, sid));
                  && r.Response? && r.status == 200 && r.body.EntriesBody?
                  && r.body.entryPage.after == ""
                  && |r.body.entryPage.items| == |known| == r.body.entryPage.totalRecordCount
                  && forall j :: 0 <= j < |known| ==> r.body.entryPage.items[j].user == EntryUserOf(st.users[known[j]]))
  {
    var sid := QueryGet(query, "schedule_id");
    var uids := OnCallIds(st, sid);
    EntriesUpToUsers(st, sid, uids, |uids|, at);
    assert uids[..|uids|] == uids;
  }

  // ---------------------------------------------------------------------
  // serve: authentication, injected failures, routing
  // ---------------------------------------------------------------------

  /** The switch of serve: exact paths first in source order, then the two prefixes, else 404. */
  function Route(st: MockState, env: Env, req: Request): (r: Response)
    requires Fits(st, env)
    ensures r.Response? && r.status in {200, 400, 404, 500}
  {
    var path := req.path;
    if path == "/v1/identity" then IdentityResponse()
    else if path == "/v2/schedules" then ListSchedulesResponse(st, env, req.query)
    else if HasPrefix(path, "/v2/schedules/") then GetScheduleResponse(st, TrimPrefix(path, "/v2/schedules/"))
    else if path == "/v2/schedule_entries" then ListEntriesResponse(st, req.query, env.at)
    else if path == "/v2/users" then ListUsersResponse(st, env)
    else if HasPrefix(path, "/v2/users/") then GetUserResponse(st, TrimPrefix(path, "/v2/users/"))
    else ErrorResponse(404, "not_found", "Unknown endpoint")
  }

  /** The statuses of the injected failures whose endpoint is a prefix of path. */
  function InjectedStatuses(st: MockState, path: string): set<int> {
    set ep | ep in st.failEndpoints && HasPrefix(path, ep) :: st.failEndpoints[ep]
  }

  /** Whether net/http sends a body with a response of this status. */
  predicate BodyAllowed(status: int) {
    !(100 <= status <= 199) && status != 204 && status != 304
  }

  /**
    What the client receives when serve writes an injected failure with
    WriteHeader(status) and then the error envelope. WriteHeader panics for a
    status outside 100..999, and the connection is dropped. An informational
    status (1xx but 101) is sent ahead of the response, whose body then goes
    out under 200. A status that allows no body arrives without the envelope.
  */
  function InjectedFailure(status: int): (r: Response)
    ensures r.Dropped? <==> status < 100 || 999 < status
    ensures 200 <= status <= 999 && BodyAllowed(status) ==> r == ErrorResponse(status, "error", "Simulated failure")
    ensures 100 <= status <= 199 && status != 101 ==> r == Response(200, ErrorEnvelope("error", status, "Simulated failure"))
    ensures status == 101 || status == 204 || status == 304 ==> r == Response(status, NoBody)
  {
    if status < 100 || 999 < status then Dropped
    else if 100 <= status <= 199 && status != 101 then Response(200, ErrorEnvelope("error", status, "Simulated failure"))
    else if !BodyAllowed(status) then Response(status, NoBody)
    else ErrorResponse(status, "error", "Simulated failure")
  }

  /** The failures serve may write for path: one per matching injected endpoint. */
  ghost function InjectedFailureSet(st: MockState, path: string): set<Response> {
    set s | s in InjectedStatuses(st, path) :: InjectedFailure(s)
  }

  lemma InjectedFailures(st: MockState, path: string, ep: string)
    requires ep in st.failEndpoints && HasPrefix(path, ep)
    ensures InjectedFailure(st.failEndpoints[ep]) in InjectedFailureSet(st, path)
    ensures InjectedFailureSet(st, path) != {}
  {
    assert st.failEndpoints[ep] in InjectedStatuses(st, path);
  }

  predicate Authorized(st: MockState, req: Request) {
    req.authorization == Bearer(st.apiKey)
  }

  /**
    Every response serve may send: 401 without the right key; otherwise the
    failure of any injected endpoint that is a prefix of the path (Go visits
    the map in no fixed order and takes the first match); otherwise the routed
    handler's response.
  */
  ghost function Responses(st: MockState, env: Env, req: Request): (rs: set<Response>)
    requires Fits(st, env)
    ensures rs != {}
    ensures rs == {Unauthorized()} <==> !Authorized(st, req)
    ensures Authorized(st, req) ==> Unauthorized() !in rs
  {
    if !Authorized(st, req) then {Unauthorized()}
    else if exists ep :: ep in st.failEndpoints && HasPrefix(req.path, ep) then
      var ep :| ep in st.failEndpoints && HasPrefix(req.path, ep);
      InjectedFailures(st, req.path, ep);
      InjectedFailureSet(st, req.path)
    else {Route(st, env, req)}
  }

  /** The key check comes before failure injection and routing: a wrong key always gets 401. */
  lemma UnauthorizedFirst(st: MockState, env: Env, req: Request)
    requires Fits(st, env)
    requires !Authorized(st, req)
    ensures forall r :: r in Responses(st, env, req) ==> r == Unauthorized()
  {
  }

  /**
    With the right key, a path under an injected endpoint gets only that
    endpoint's status (some matching one when several match), never a handler.
  */
  lemma InjectedFailureWins(st: MockState, env: Env, req: Request, ep: string)
    requires Fits(st, env)
    requires Authorized(st, req) && ep in st.failEndpoints && HasPrefix(req.path, ep)
    ensures Responses(st, env, req) != {}
    ensures forall r :: r in Responses(st, env, req) ==>
              exists e :: e in st.failEndpoints && HasPrefix(req.path, e) && r == InjectedFailure(st.failEndpoints[e])
  {
    assert st.failEndpoints[ep] in InjectedStatuses(st, req.path);
    assert InjectedFailure(st.failEndpoints[ep]) in Responses(st, env, req);
  }

  /** With the right key and no matching injected endpoint, serve answers exactly what the router does. */
  lemma RoutedWhenHealthy(st: MockState, env: Env, req: Request)
    requires Fits(st, env)
    requires Authorized(st, req)
    requires forall ep :: ep in st.failEndpoints ==> !HasPrefix(req.path, ep)
    ensures Responses(st, env, req) == {Route(st, env, req)}
  {
    assert InjectedStatuses(st, req.path) == {};
  }

  /**
    Routing: the exact list paths are never taken for a get by id, a path
    under /v2/schedules/ or /v2/users/ reaches the matching get handler with
    the rest of the path as id, and a path matching nothing gets 404.
  */
  lemma RouteByPath(st: MockState, env: Env, req: Request)
    requires Fits(st, env)
    ensures req.path == "/v2/schedules" ==> Route(st, env, req) == ListSchedulesResponse(st, env, req.query)
    ensures req.path == "/v2/schedule_entries" ==> Route(st, env, req) == ListEntriesResponse(st, req.query, env.at)
    ensures HasPrefix(req.path, "/v2/schedules/") ==>
              Route(st, env, req) == GetScheduleResponse(st, req.path[|"/v2/schedules/"|..])
    ensures HasPrefix(req.path, "/v2/users/") ==>
              Route(st, env, req) == GetUserResponse(st, req.path[|"/v2/users/"|..])
    ensures req.path !in {"/v1/identity", "/v2/schedules", "/v2/schedule_entries", "/v2/users"}
            && !HasPrefix(req.path, "/v2/schedules/") && !HasPrefix(req.path, "/v2/users/") ==>
              Route(st, env, req) == ErrorResponse(404, "not_found", "Unknown endpoint")
  {
    var p := req.path;
    if p == "/v2/schedules" {
      assert p[1] == 'v' && |p| == 13;
    }
    if p == "/v2/schedule_entries" {
      assert p[1] == 'v' && p[12] == '_' && p[..14][12] == '_';
    }
    if HasPrefix(p, "/v2/schedules/") {
      assert p[..14] == "/v2/schedules/";
      assert p != "/v1/identity" && p != "/v2/schedules";
    }
    if HasPrefix(p, "/v2/users/") {
      assert p[..10] == "/v2/users/";
      assert p[2] == '2' && p[4] == 'u' && |p| >= 10;
      assert "/v2/schedule_entries"[4] == 's' && "/v2/schedules/"[4] == 's';
    }
  }

  // ---------------------------------------------------------------------
  // The mock object
  // ---------------------------------------------------------------------

  class MockIncidentIO {
    var apiKey: string
    var schedules: map<string, Schedule>
    var users: map<string, User>
    var onCall: map<string, seq<string>>
    var failSchedules: map<string, bool>
    var failEndpoints: map<string, int>
    var requestLog: seq<string>
    /** An int32 updated atomically: it wraps around after 2^31 - 1. */
    var requestCount: int

    /** The request counter is the log length, as an int32. */
    ghost predicate Valid()
      reads this
    {
      requestCount == WrapInt32(|requestLog|)
    }

    function State(): MockState
      reads this
    {
      MockState(apiKey, schedules, users, onCall, failSchedules, failEndpoints)
    }

    constructor (apiKey: string)
      ensures Valid()
      ensures State() == MockState(apiKey, map[], map[], map[], map[], map[])
      ensures requestLog == []
    {
      this.apiKey := apiKey;
      schedules := map[];
      users := map[];
      onCall := map[];
      failSchedules := map[];
      failEndpoints := map[];
      requestLog := [];
      requestCount := 0;
    }

    method AddSchedule(id: string, name: string, tz: string)
      modifies this
      ensures State() == old(State()).(schedules := old(schedules)[id := Schedule(id, name, tz)])
      ensures requestLog == old(requestLog) && requestCount == old(requestCount)
    {
      schedules := schedules[id := Schedule(id, name, tz)];
    }

    /** Removes the schedule and its on-call list; nothing else changes. */
    method RemoveSchedule(id: string)
      modifies this
      ensures State() == old(State()).(schedules := old(schedules) - {id}, onCall := old(onCall) - {id})
      ensures id !in schedules && id !in onCall
      ensures requestLog == old(requestLog) && requestCount == old(requestCount)
    {
      schedules := schedules - {id};
      onCall := onCall - {id};
    }

    /** Changes only the name, and only of a schedule that exists. */
    method RenameSchedule(id: string, newName: string)
      modifies this
      ensures id in old(schedules) ==>
                State() == old(State()).(schedules := old(schedules)[id := old(schedules)[id].(name := newName)])
      ensures id !in old(schedules) ==> State() == old(State())
      ensures schedules.Keys == old(schedules.Keys)
      ensures requestLog == old(requestLog) && requestCount == old(requestCount)
    {
      if id in schedules {
        var s := schedules[id];
        schedules := schedules[id := s.(name := newName)];
      }
    }

    method AddUser(id: string, name: string, email: string, role: string)
      modifies this
      ensures State() == old(State()).(users := old(users)[id := User(id, name, email, role)])
      ensures requestLog == old(requestLog) && requestCount == old(requestCount)
    {
      users := users[id := User(id, name, email, role)];
    }

    method SetOnCall(scheduleId: string, userIds: seq<string>)
      modifies this
      ensures State() == old(State()).(onCall := old(onCall)[scheduleId := userIds])
      ensures requestLog == old(requestLog) && requestCount == old(requestCount)
    {
      onCall := onCall[scheduleId := userIds];
    }

    method ClearOnCall(scheduleId: string)
      modifies this
      ensures State() == old(State()).(onCall := old(onCall)[scheduleId := []])
      ensures requestLog == old(requestLog) && requestCount == old(requestCount)
    {
      onCall := onCall[scheduleId := []];
    }

    method FailSchedule(scheduleId: string, shouldFail: bool)
      modifies this
      ensures State() == old(State()).(failSchedules := old(failSchedules)[scheduleId := shouldFail])
      ensures requestLog == old(requestLog) && requestCount == old(requestCount)
    {
      failSchedules := failSchedules[scheduleId := shouldFail];
    }

    /** Status 0 clears the endpoint's injected failure, any other status sets it. */
    method FailEndpoint(endpoint: string, statusCode: int)
      modifies this
      ensures statusCode == 0 ==> failEndpoints == old(failEndpoints) - {endpoint}
      ensures statusCode != 0 ==> failEndpoints == old(failEndpoints)[endpoint := statusCode]
      ensures forall ep :: ep != endpoint ==>
                (ep in failEndpoints <==> ep in old(failEndpoints)) &&
                (ep in failEndpoints ==> failEndpoints[ep] == old(failEndpoints)[ep])
      ensures State() == old(State()).(failEndpoints := failEndpoints)
      ensures requestLog == old(requestLog) && requestCount == old(requestCount)
    {
      if statusCode == 0 {
        failEndpoints := failEndpoints - {endpoint};
      } else {
        failEndpoints := failEndpoints[endpoint := statusCode];
      }
    }

    /** Appends one "METHOD path" line and counts it. */
    method LogRequest(verb: string, path: string)
      requires Valid()
      modifies this
      ensures Valid()
      ensures requestLog == old(requestLog) + [verb + " " + path]
      ensures requestCount == WrapInt32(old(requestCount) + 1)
      ensures State() == old(State())
    {
      WrapInt32Succ(|requestLog|);
      requestLog := requestLog + [verb + " " + path];
      requestCount := WrapInt32(requestCount + 1);
    }

    /** The counter equals the number of logged requests until it passes the int32 range. */
    method GetRequestCount() returns (n: int)
      requires Valid()
      ensures n == requestCount
      ensures |requestLog| < 0x8000_0000 ==> n == |requestLog|
    {
      n := requestCount;
    }

    method GetRequestLog() returns (log: seq<string>)
      ensures log == requestLog
    {
      log := requestLog;
    }

    method ResetRequestLog()
      modifies this
      ensures Valid()
      ensures requestLog == [] && requestCount == 0
      ensures State() == old(State())
    {
      requestLog := [];
      requestCount := 0;
    }

    /**
      The handler's entry loop: one entry per on-call id that names a known
      user, numbered by the id's position in the on-call list.
    */
    method ListEntries(scheduleId: string, at: int -> string) returns (entries: seq<Entry>)
      ensures entries == OnCallEntries(State(), scheduleId, at)
    {
      var userIds := if scheduleId in onCall then onCall[scheduleId] else [];
      entries := [];
      var i := 0;
      while i < |userIds|
        invariant 0 <= i <= |userIds|
        invariant entries == EntriesUpTo(State(), scheduleId, userIds, i, at)
      {
        var uid := userIds[i];
        if uid in users {
          entries := entries + [MakeEntry(scheduleId, i, users[uid], at)];
        }
        i := i + 1;
      }
    }

    /**
      serve: logs the request, then answers with one of the responses the
      state allows; which injected failure wins when several match is left open.
    */
    method Serve(env: Env, req: Request) returns (resp: Response)
      requires Valid() && Fits(State(), env)
      modifies this
      ensures Valid()
      ensures requestLog == old(requestLog) + [req.verb + " " + req.path]
      ensures State() == old(State())
      ensures resp in Responses(State(), env, req)
    {
      LogRequest(req.verb, req.path);
      if req.authorization != Bearer(apiKey) {
        resp := Unauthorized();
        return;
      }
      if ep :| ep in failEndpoints && HasPrefix(req.path, ep) {
        resp := InjectedFailure(failEndpoints[ep]);
        assert failEndpoints[ep] in InjectedStatuses(State(), req.path);
        return;
      }
      assert InjectedStatuses(State(), req.path) == {};
      resp := Route(State(), env, req);
    }
  }
}
