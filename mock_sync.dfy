/**
  The sync flow run against the stateful mock: an Api that answers every call
  with (the client's reading of) one of the responses serve allows. What the
  functional tests check of a full sync follows from the mock's state.
*/
module MockSync {
  import opened Wrappers
  import opened Text
  import opened Wire
  import opened MockUpstream
  import opened Sync

  /**
    api is how a client holding apiKey sees the mock in state st: each answer
    is the decoding of some response serve may send for the matching request.
    Each listing request ranges over the schedule map afresh, so each may see
    the schedules in an order of its own. The entry window the sync sends is
    windowStart to windowEnd.
  */
  ghost predicate ServedBy(api: Api, st: MockState, env: Env, apiKey: string, windowStart: string, windowEnd: string)
    requires Fits(st, env)
  {
    && (forall c :: ListingServed(api, st, env, apiKey, c))
    && (forall id :: EntriesServed(api, st, env, apiKey, windowStart, windowEnd, id))
    && (forall u :: UserServed(api, st, env, apiKey, u))
  }

  /** The answer to the listing call for cursor c decodes a response serve may send, ranging the map in some order. */
  ghost predicate ListingServed(api: Api, st: MockState, env: Env, apiKey: string, c: string)
    requires Fits(st, env)
  {
    exists order ::
      (&& Enumerates(order, st.schedules)
       && exists r :: r in Responses(st, env.(scheduleOrder := order), ListSchedulesRequest(apiKey, SyncPageSize, c))
                      && api.listSchedules(c) == SchedulePageOf(r))
  }

  /** The answer to the entries call for schedule id decodes a response serve may send. */
  ghost predicate EntriesServed(api: Api, st: MockState, env: Env, apiKey: string, windowStart: string, windowEnd: string, id: string)
    requires Fits(st, env)
  {
    exists r :: r in Responses(st, env, ListEntriesRequest(apiKey, id, windowStart, windowEnd)) && api.listEntries(id) == EntriesOf(r)
  }

  /** The answer to the lookup of user u decodes a response serve may send. */
  ghost predicate UserServed(api: Api, st: MockState, env: Env, apiKey: string, u: string)
    requires Fits(st, env)
  {
    exists r :: r in Responses(st, env, GetUserRequest(apiKey, u)) && api.getUser(u) == UserOf(r)
  }

  /** No injected endpoint failure applies to path. */
  predicate NotInjected(st: MockState, path: string) {
    forall ep :: ep in st.failEndpoints ==> !HasPrefix(path, ep)
  }

  /** The cursor that asks for the page starting at index k: none for the first page, else the decimal offset. */
  function OffsetCursor(k: nat): string {
    if k == 0 then "" else Itoa(k)
  }

  /**
    Every listing request is answered from the one order of env, as it would
    be if the handler sorted the schedules before cutting the page.
  */
  ghost predicate StableListing(api: Api, st: MockState, env: Env, apiKey: string)
    requires Fits(st, env)
  {
    forall c :: exists r :: r in Responses(st, env, ListSchedulesRequest(apiKey, SyncPageSize, c)) && api.listSchedules(c) == SchedulePageOf(r)
  }

  /** With no failure injected on the list, the client reads the page the handler builds. */
  lemma HealthyListPage(st: MockState, env: Env, c: string, r: Response)
    requires Fits(st, env) && NotInjected(st, "/v2/schedules")
    requires r in Responses(st, env, ListSchedulesRequest(st.apiKey, SyncPageSize, c))
    ensures SchedulePageOf(r) == Ok(ListSchedulesResponse(st, env, ListSchedulesRequest(st.apiKey, SyncPageSize, c).query).body.schedulePage)
  {
    var req := ListSchedulesRequest(st.apiKey, SyncPageSize, c);
    RoutedWhenHealthy(st, env, req);
    RouteByPath(st, env, req);
    assert r == ListSchedulesResponse(st, env, req.query);
    assert IsSuccess(r.status);
  }

  /** A listing call against the mock with no injected failure on the list: the page the handler builds from some order. */
  lemma MockListCall(api: Api, st: MockState, env: Env, ws: string, we: string, c: string)
    requires Fits(st, env) && ServedBy(api, st, env, st.apiKey, ws, we)
    requires NotInjected(st, "/v2/schedules")
    ensures exists order :: Enumerates(order, st.schedules) &&
              api.listSchedules(c) == Ok(ListSchedulesResponse(st, env.(scheduleOrder := order), ListSchedulesRequest(st.apiKey, SyncPageSize, c).query).body.schedulePage)
  {
    var req := ListSchedulesRequest(st.apiKey, SyncPageSize, c);
    assert ListingServed(api, st, env, st.apiKey, c);
    var order :| Enumerates(order, st.schedules) &&
      exists r :: r in Responses(st, env.(scheduleOrder := order), req) && api.listSchedules(c) == SchedulePageOf(r);
    var r :| r in Responses(st, env.(scheduleOrder := order), req) && api.listSchedules(c) == SchedulePageOf(r);
    HealthyListPage(st, env.(scheduleOrder := order), c, r);
  }

  /** The same call when every listing request sees the order of env. */
  lemma StableListCall(api: Api, st: MockState, env: Env, c: string)
    requires Fits(st, env) && StableListing(api, st, env, st.apiKey)
    requires NotInjected(st, "/v2/schedules")
    ensures api.listSchedules(c) == Ok(ListSchedulesResponse(st, env, ListSchedulesRequest(st.apiKey, SyncPageSize, c).query).body.schedulePage)
  {
    var r :| r in Responses(st, env, ListSchedulesRequest(st.apiKey, SyncPageSize, c)) && api.listSchedules(c) == SchedulePageOf(r);
    HealthyListPage(st, env, c, r);
  }

  /** The page an offset-cursor server returns from index k: up to 250 schedules and the next offset, if any. */
  function OffsetPage(all: seq<Schedule>, k: nat): Page<Schedule>
    requires k <= |all|
  {
    var e := Min(k + SyncPageSize, |all|);
    Page(all[k..e], if e < |all| then Itoa(e) else "", SyncPageSize, |all|)
  }

  /** list answers every offset cursor into all as the mock's handler does for the sync's page size. */
  ghost predicate OffsetServer(list: Lister, all: seq<Schedule>) {
    forall k :: 0 <= k <= |all| ==> list(OffsetCursor(k)) == Ok(OffsetPage(all, k))
  }

  /** The handler reads the sync's page size and the offset back from the listing request. */
  lemma OffsetQuery(apiKey: string, k: nat)
    requires k <= MaxInt64
    ensures var q := ListSchedulesRequest(apiKey, SyncPageSize, OffsetCursor(k)).query;
            PageSizeParam(QueryGet(q, "page_size")) == SyncPageSize && StartParam(QueryGet(q, "after")) == k
  {
    ListSchedulesRequestQuery(apiKey, SyncPageSize, OffsetCursor(k));
    PageSizeParamItoa(SyncPageSize);
    if k > 0 {
      StartParamItoa(k);
    }
  }

  /** The handler's page for an offset cursor is the offset page of the listing in map order. */
  lemma OffsetResponse(st: MockState, env: Env, k: nat)
    requires Fits(st, env)
    requires |st.schedules| <= MaxInt64 && k <= |st.schedules|
    ensures ListSchedulesResponse(st, env, ListSchedulesRequest(st.apiKey, SyncPageSize, OffsetCursor(k)).query).body.schedulePage
              == OffsetPage(AllSchedules(st, env), k)
  {
    OffsetQuery(st.apiKey, k);
  }

  /** One listing call against a mock listing in one order: the slice at the offset, 250 long at most, and the next offset. */
  lemma MockSchedulePage(api: Api, st: MockState, env: Env, k: nat)
    requires Fits(st, env) && StableListing(api, st, env, st.apiKey)
    requires NotInjected(st, "/v2/schedules")
    requires |st.schedules| <= MaxInt64 && k <= |st.schedules|
    ensures api.listSchedules(OffsetCursor(k)) == Ok(OffsetPage(AllSchedules(st, env), k))
  {
    StableListCall(api, st, env, OffsetCursor(k));
    OffsetResponse(st, env, k);
  }

  /** From offset k with fuel pages left, an offset-cursor server yields the items from k on, 250 per page. */
  lemma {:induction false} CollectFromOffset(list: Lister, all: seq<Schedule>, k: nat, fuel: nat)
    requires OffsetServer(list, all) && k <= |all|
    ensures CollectPages(list, OffsetCursor(k), fuel) == Ok(all[k..Min(k + SyncPageSize * fuel, |all|)])
    decreases fuel
  {
    if fuel == 0 {
      assert all[k..Min(k, |all|)] == [];
    } else {
      var p := OffsetPage(all, k);
      assert list(OffsetCursor(k)) == Ok(p);
      var e := Min(k + SyncPageSize, |all|);
      var m := Min(k + SyncPageSize * fuel, |all|);
      if e < |all| {
        assert p.after == Itoa(e) == OffsetCursor(e) != "";
        CollectFromOffset(list, all, e, fuel - 1);
        assert CollectPages(list, OffsetCursor(k), fuel) == Prepend(all[k..e], Ok(all[e..m]));
        assert all[k..e] + all[e..m] == all[k..m];
      } else {
        assert p.after == "" && m == e;
      }
    }
  }

  /**
    Against a mock that lists in one order with no failure injected on the
    schedule list, the listing returns every schedule in that order when
    there are at most 25000 of them, and silently only the first 25000
    otherwise.
  */
  lemma MockListingComplete(api: Api, st: MockState, env: Env)
    requires Fits(st, env) && StableListing(api, st, env, st.apiKey)
    requires NotInjected(st, "/v2/schedules")
    requires |st.schedules| <= MaxInt64
    ensures var all := AllSchedules(st, env);
            CollectPages(api.listSchedules, "", MaxPages) == Ok(all[..Min(|all|, SyncPageSize * MaxPages)])
  {
    var all := AllSchedules(st, env);
    forall k | 0 <= k <= |all|
      ensures api.listSchedules(OffsetCursor(k)) == Ok(OffsetPage(all, k))
    {
      MockSchedulePage(api, st, env, k);
    }
    CollectFromOffset(api.listSchedules, all, 0, MaxPages);
  }

  /**
    With at most 250 schedules the first page holds them all, so the listing
    is complete in whatever order that one request saw.
  */
  lemma MockSinglePage(api: Api, st: MockState, env: Env, ws: string, we: string)
    requires Fits(st, env) && ServedBy(api, st, env, st.apiKey, ws, we)
    requires NotInjected(st, "/v2/schedules")
    requires |st.schedules| <= SyncPageSize
    ensures exists order :: Enumerates(order, st.schedules) &&
              CollectPages(api.listSchedules, "", MaxPages) == Ok(AllSchedules(st, env.(scheduleOrder := order)))
  {
    MockListCall(api, st, env, ws, we, "");
    var order :| Enumerates(order, st.schedules) &&
      api.listSchedules("") == Ok(ListSchedulesResponse(st, env.(scheduleOrder := order), ListSchedulesRequest(st.apiKey, SyncPageSize, "").query).body.schedulePage);
    var e := env.(scheduleOrder := order);
    OffsetResponse(st, e, 0);
    var all := AllSchedules(st, e);
    assert api.listSchedules("") == Ok(OffsetPage(all, 0));
    FirstOffsetPage(all);
  }

  /** With at most 250 schedules, the page from offset 0 holds them all and no cursor. */
  lemma FirstOffsetPage(all: seq<Schedule>)
    requires |all| <= SyncPageSize
    ensures OffsetPage(all, 0).items == all && OffsetPage(all, 0).after == ""
  {
    assert all[0..|all|] == all;
  }

  /** The client's reading of the entries handler's answer for the sync's request. */
  lemma EntriesDecoded(st: MockState, apiKey: string, id: string, ws: string, we: string, at: int -> string)
    ensures var r := EntriesOf(ListEntriesResponse(st, ListEntriesRequest(apiKey, id, ws, we).query, at));
            && (id == "" ==> r == Err(ApiError(400, "validation_error", "schedule_id is required")))
            && (id != "" && id in st.failSchedules && st.failSchedules[id] ==>
                  r == Err(ApiError(500, "internal_error", "Schedule temporarily unavailable")))
            && (id != "" && !(id in st.failSchedules && st.failSchedules[id]) ==> r == Ok(OnCallEntries(st, id, at)))
  {
    var q := ListEntriesRequest(apiKey, id, ws, we).query;
    assert QueryGet(q, "schedule_id") == id;
    var r := ListEntriesResponse(st, q, at);
    if id == "" {
      assert EntriesOf(r) == Err(ApiError(400, "validation_error", "schedule_id is required"));
    } else if id in st.failSchedules && st.failSchedules[id] {
      assert r == ErrorResponse(500, "internal_error", "Schedule temporarily unavailable");
      assert EntriesOf(r) == Err(ApiError(500, "internal_error", "Schedule temporarily unavailable"));
    } else {
      assert r.Response? && IsSuccess(r.status) && r.body.EntriesBody?;
      assert r.body.entryPage.items == OnCallEntries(st, id, at);
    }
  }

  /** One entries call: 400 for an empty id, 500 for a schedule set to fail, else the on-call entries. */
  lemma MockEntries(api: Api, st: MockState, env: Env, ws: string, we: string, id: string)
    requires Fits(st, env) && ServedBy(api, st, env, st.apiKey, ws, we)
    requires NotInjected(st, "/v2/schedule_entries")
    ensures id == "" ==> api.listEntries(id) == Err(ApiError(400, "validation_error", "schedule_id is required"))
    ensures id != "" && id in st.failSchedules && st.failSchedules[id] ==>
              api.listEntries(id) == Err(ApiError(500, "internal_error", "Schedule temporarily unavailable"))
    ensures id != "" && !(id in st.failSchedules && st.failSchedules[id]) ==>
              api.listEntries(id) == Ok(OnCallEntries(st, id, env.at))
  {
    var req := ListEntriesRequest(st.apiKey, id, ws, we);
    RoutedWhenHealthy(st, env, req);
    assert EntriesServed(api, st, env, st.apiKey, ws, we, id);
    var r :| r in Responses(st, env, req) && api.listEntries(id) == EntriesOf(r);
    RouteByPath(st, env, req);
    assert r == ListEntriesResponse(st, req.query, env.at);
    EntriesDecoded(st, st.apiKey, id, ws, we, env.at);
  }

  /** One user call: the stored user, or 404 naming the id. */
  lemma MockUser(api: Api, st: MockState, env: Env, ws: string, we: string, u: string)
    requires Fits(st, env) && ServedBy(api, st, env, st.apiKey, ws, we)
    requires NotInjected(st, "/v2/users/" + u)
    ensures u in st.users ==> api.getUser(u) == Ok(st.users[u])
    ensures u !in st.users ==> api.getUser(u) == Err(ApiError(404, "not_found", "User " + u + " not found"))
  {
    var req := GetUserRequest(st.apiKey, u);
    RoutedWhenHealthy(st, env, req);
    assert UserServed(api, st, env, st.apiKey, u);
    var r :| r in Responses(st, env, req) && api.getUser(u) == UserOf(r);
    assert req.path[..10] == "/v2/users/" && req.path[10..] == u;
    assert HasPrefix(req.path, "/v2/users/");
    RouteByPath(st, env, req);
    assert r == GetUserResponse(st, u);
    if u in st.users {
      assert IsSuccess(r.status) && UserOf(r) == Ok(st.users[u]);
    } else {
      assert UserOf(r) == Err(ApiError(404, "not_found", "User " + u + " not found"));
    }
  }

  /** Every map key is the id of the record stored under it, as the mock's Add methods keep it. */
  predicate Keyed(st: MockState) {
    && (forall k :: k in st.schedules ==> st.schedules[k].id == k)
    && (forall k :: k in st.users ==> st.users[k].id == k)
  }

  /** The users a schedule should sync to: its known on-call users, first occurrences, empty ids skipped. */
  function ExpectedUsers(st: MockState, id: string): (users: seq<ResolvedUser>)
    ensures |users| <= |OnCallIds(st, id)|
  {
    var ids := DistinctNonEmpty(KnownIds(st.users, OnCallIds(st, id)));
    seq(|ids|, j requires 0 <= j < |ids| => ResolvedOf(st.users[ids[j]]))
  }

  /** With every key naming its record, the entries' user ids are the known on-call ids. */
  lemma EntryIdsAreKnownIds(st: MockState, id: string, at: int -> string)
    requires Keyed(st)
    ensures UserIds(OnCallEntries(st, id, at)) == KnownIds(st.users, OnCallIds(st, id))
  {
    var uids := OnCallIds(st, id);
    EntriesUpToUsers(st, id, uids, |uids|, at);
    assert uids[..|uids|] == uids;
  }

  /** With every key naming its record, the listing's index holds exactly the mock's schedules. */
  lemma IndexMatchesMock(st: MockState, env: Env)
    requires Fits(st, env) && Keyed(st)
    ensures var index := IndexById(AllSchedules(st, env));
            forall id :: (id in index <==> id in st.schedules) && (id in index ==> index[id] == st.schedules[id])
  {
    var all := AllSchedules(st, env);
    var index := IndexById(all);
    forall id
      ensures (id in index <==> id in st.schedules) && (id in index ==> index[id] == st.schedules[id])
    {
      if id in st.schedules {
        var j :| 0 <= j < |env.scheduleOrder| && env.scheduleOrder[j] == id;
        assert all[j].id == id;
      }
      if id in index {
        var j :| 0 <= j < |all| && all[j] == index[id];
        assert all[j] == st.schedules[env.scheduleOrder[j]];
      }
    }
  }

  /** index holds exactly the mock's schedules, under their ids. */
  ghost predicate IndexOf(index: map<string, Schedule>, st: MockState) {
    forall id :: (id in index <==> id in st.schedules) && (id in index ==> index[id] == st.schedules[id])
  }

  /** Resolving a schedule's distinct known on-call ids against the mock gives the expected users. */
  lemma MockResolved(api: Api, st: MockState, env: Env, ws: string, we: string, id: string)
    requires Fits(st, env) && ServedBy(api, st, env, st.apiKey, ws, we)
    requires st.failEndpoints == map[]
    ensures Resolve(api.getUser, DistinctNonEmpty(KnownIds(st.users, OnCallIds(st, id)))) == ExpectedUsers(st, id)
  {
    var known := KnownIds(st.users, OnCallIds(st, id));
    var ids := DistinctNonEmpty(known);
    forall u | u in ids
      ensures u in st.users && api.getUser(u) == Ok(st.users[u])
    {
      assert u in known;
      MockUser(api, st, env, ws, we, u);
    }
    ResolveAllFound(api.getUser, ids);
    var res := Resolve(api.getUser, ids);
    var expected := ExpectedUsers(st, id);
    assert |res| == |ids| == |expected|;
    forall j | 0 <= j < |ids|
      ensures res[j] == expected[j]
    {
      assert ids[j] in ids;
    }
  }

  /** One tracked schedule synced against a healthy mock. */
  lemma MockSyncOne(api: Api, st: MockState, env: Env, ws: string, we: string, index: map<string, Schedule>, id: string)
    requires Fits(st, env) && ServedBy(api, st, env, st.apiKey, ws, we)
    requires st.failEndpoints == map[]
    requires Keyed(st) && IndexOf(index, st)
    ensures var r := SyncOne(api, index, id);
            && (r.error.Some? <==> id !in st.schedules || id == "" || (id in st.failSchedules && st.failSchedules[id]))
            && (id in st.schedules ==> r.scheduleName == st.schedules[id].name)
            && (r.error.None? ==> r.onCallUsers == ExpectedUsers(st, id))
  {
    MockEntries(api, st, env, ws, we, id);
    if SyncOne(api, index, id).error.None? {
      EntryIdsAreKnownIds(st, id, env.at);
      MockResolved(api, st, env, ws, we, id);
    }
  }

  /**
    The listing the sync gets is complete: at most 250 schedules, whatever
    order each request sees, or at most 25000 listed in one order.
  */
  ghost predicate ListingFits(api: Api, st: MockState, env: Env)
    requires Fits(st, env)
  {
    || |st.schedules| <= SyncPageSize
    || (StableListing(api, st, env, st.apiKey) && |st.schedules| <= SyncPageSize * MaxPages)
  }

  /** Against a healthy mock whose listing fits, the sync indexes exactly the mock's schedules. */
  lemma MockIndexed(api: Api, st: MockState, env: Env, ws: string, we: string, tracked: seq<string>)
    requires Fits(st, env) && ServedBy(api, st, env, st.apiKey, ws, we)
    requires st.failEndpoints == map[]
    requires Keyed(st) && ListingFits(api, st, env)
    ensures exists index :: IndexOf(index, st) && FullSync(api, tracked) == Ok(SyncAll(api, index, tracked))
  {
    if |st.schedules| <= SyncPageSize {
      MockSinglePage(api, st, env, ws, we);
      var order :| Enumerates(order, st.schedules) &&
        CollectPages(api.listSchedules, "", MaxPages) == Ok(AllSchedules(st, env.(scheduleOrder := order)));
      var e := env.(scheduleOrder := order);
      IndexMatchesMock(st, e);
      IndexedListing(api, st, tracked, AllSchedules(st, e));
    } else {
      var all := AllSchedules(st, env);
      MockListingComplete(api, st, env);
      assert all[..Min(|all|, SyncPageSize * MaxPages)] == all;
      IndexMatchesMock(st, env);
      IndexedListing(api, st, tracked, all);
    }
  }

  /** A listing that gathers exactly the mock's schedules makes the sync run on an index of the mock. */
  lemma IndexedListing(api: Api, st: MockState, tracked: seq<string>, all: seq<Schedule>)
    requires CollectPages(api.listSchedules, "", MaxPages) == Ok(all) && IndexOf(IndexById(all), st)
    ensures exists index :: IndexOf(index, st) && FullSync(api, tracked) == Ok(SyncAll(api, index, tracked))
  {
    assert FullSync(api, tracked) == Ok(SyncAll(api, IndexById(all), tracked));
  }

  /**
    A full sync against a healthy mock (right key, no injected endpoint
    failure, a listing that fits): the run succeeds, and each tracked
    schedule fails exactly when it is gone, has an empty id or is set to fail;
    otherwise its users are its known on-call users, each once.
  */
  lemma MockFullSync(api: Api, st: MockState, env: Env, ws: string, we: string, tracked: seq<string>)
    requires Fits(st, env) && ServedBy(api, st, env, st.apiKey, ws, we)
    requires st.failEndpoints == map[]
    requires Keyed(st) && ListingFits(api, st, env)
    ensures FullSync(api, tracked).Ok?
    ensures var rs := FullSync(api, tracked).value;
            forall i :: 0 <= i < |tracked| ==>
              && (rs[i].error.Some? <==>
                    tracked[i] !in st.schedules || tracked[i] == ""
                    || (tracked[i] in st.failSchedules && st.failSchedules[tracked[i]]))
              && (tracked[i] in st.schedules ==> rs[i].scheduleName == st.schedules[tracked[i]].name)
              && (rs[i].error.None? ==> rs[i].onCallUsers == ExpectedUsers(st, tracked[i]))
  {
    MockIndexed(api, st, env, ws, we, tracked);
    var index :| IndexOf(index, st) && FullSync(api, tracked) == Ok(SyncAll(api, index, tracked));
    forall i | 0 <= i < |tracked|
      ensures var r := SyncOne(api, index, tracked[i]);
              && (r.error.Some? <==>
                    tracked[i] !in st.schedules || tracked[i] == ""
                    || (tracked[i] in st.failSchedules && st.failSchedules[tracked[i]]))
              && (tracked[i] in st.schedules ==> r.scheduleName == st.schedules[tracked[i]].name)
              && (r.error.None? ==> r.onCallUsers == ExpectedUsers(st, tracked[i]))
    {
      MockSyncOne(api, st, env, ws, we, index, tracked[i]);
    }
  }

  // ---------------------------------------------------------------------
  // Offset pages cut from orders that change between requests
  // ---------------------------------------------------------------------

  /** order rotated by one: what a range over the same map gives when it starts at the second key. */
  function RotateOne(order: seq<string>): (r: seq<string>)
    requires |order| >= 1
    ensures |r| == |order|
    ensures forall i :: 0 <= i < |r| - 1 ==> r[i] == order[i + 1]
    ensures r[|r| - 1] == order[0]
  {
    order[1..] + [order[0]]
  }

  /** A rotated key order still visits every key once. */
  lemma RotateOneEnumerates<V>(order: seq<string>, m: map<string, V>)
    requires Enumerates(order, m) && |order| >= 1
    ensures Enumerates(RotateOne(order), m)
  {
    var r := RotateOne(order);
    forall k | k in m
      ensures k in r
    {
      var t :| 0 <= t < |order| && order[t] == k;
      if t == 0 {
        assert r[|r| - 1] == k;
      } else {
        assert r[t - 1] == k;
      }
    }
  }

  /** env with the schedule order rotated by one. */
  function Rotated(st: MockState, env: Env): (e: Env)
    requires Fits(st, env) && |env.scheduleOrder| >= 1
    ensures Fits(st, e) && e == env.(scheduleOrder := RotateOne(env.scheduleOrder))
  {
    RotateOneEnumerates(env.scheduleOrder, st.schedules);
    env.(scheduleOrder := RotateOne(env.scheduleOrder))
  }

  /**
    A client's view of the mock in which the first listing request ranges
    over the schedule map in env's order and every later one in that order
    rotated by one; entries and users as the handlers answer them.
  */
  function RotatingApi(st: MockState, env: Env, ws: string, we: string): Api
    requires Fits(st, env) && |env.scheduleOrder| >= 1
  {
    Api(c => RotatingList(st, env, c), id => HandlerEntries(st, ws, we, env.at, id), u => HandlerUser(st, u))
  }

  /** The rotating view's answer to a listing call. */
  function RotatingList(st: MockState, env: Env, c: string): Result<Page<Schedule>, ApiError>
    requires Fits(st, env) && |env.scheduleOrder| >= 1
  {
    SchedulePageOf(ListSchedulesResponse(st, RotatingEnv(st, env, c), ListSchedulesRequest(st.apiKey, SyncPageSize, c).query))
  }

  /** The client's reading of the entries handler's answer. */
  function HandlerEntries(st: MockState, ws: string, we: string, at: int -> string, id: string): Result<seq<Entry>, ApiError> {
    EntriesOf(ListEntriesResponse(st, ListEntriesRequest(st.apiKey, id, ws, we).query, at))
  }

  /** The client's reading of the user handler's answer. */
  function HandlerUser(st: MockState, u: string): Result<User, ApiError> {
    UserOf(GetUserResponse(st, u))
  }

  /** The order the rotating view lists from for cursor c. */
  function RotatingEnv(st: MockState, env: Env, c: string): (e: Env)
    requires Fits(st, env) && |env.scheduleOrder| >= 1
    ensures Fits(st, e)
  {
    if c == "" then env else Rotated(st, env)
  }

  /** What the rotating view answers to each call. */
  lemma RotatingApiAnswers(st: MockState, env: Env, ws: string, we: string, c: string)
    requires Fits(st, env) && |env.scheduleOrder| >= 1
    ensures var api := RotatingApi(st, env, ws, we);
            && api.listSchedules(c) == RotatingList(st, env, c)
            && api.listEntries(c) == HandlerEntries(st, ws, we, env.at, c)
            && api.getUser(c) == HandlerUser(st, c)
  {
  }

  lemma RotatingListServed(st: MockState, env: Env, ws: string, we: string, c: string)
    requires Fits(st, env) && |env.scheduleOrder| >= 1 && st.failEndpoints == map[]
    ensures var e := RotatingEnv(st, env, c);
            var req := ListSchedulesRequest(st.apiKey, SyncPageSize, c);
            && e == env.(scheduleOrder := e.scheduleOrder)
            && RotatingApi(st, env, ws, we).listSchedules(c) in (set r | r in Responses(st, e, req) :: SchedulePageOf(r))
  {
    var e := RotatingEnv(st, env, c);
    var req := ListSchedulesRequest(st.apiKey, SyncPageSize, c);
    RoutedWhenHealthy(st, e, req);
    RouteByPath(st, e, req);
    RotatingApiAnswers(st, env, ws, we, c);
    assert ListSchedulesResponse(st, e, req.query) in Responses(st, e, req);
  }

  lemma RotatingEntriesServed(st: MockState, env: Env, ws: string, we: string, id: string)
    requires Fits(st, env) && |env.scheduleOrder| >= 1 && st.failEndpoints == map[]
    ensures exists r :: r in Responses(st, env, ListEntriesRequest(st.apiKey, id, ws, we)) && RotatingApi(st, env, ws, we).listEntries(id) == EntriesOf(r)
  {
    var req := ListEntriesRequest(st.apiKey, id, ws, we);
    RoutedWhenHealthy(st, env, req);
    RouteByPath(st, env, req);
    RotatingApiAnswers(st, env, ws, we, id);
    assert ListEntriesResponse(st, req.query, env.at) in Responses(st, env, req);
  }

  lemma RotatingUserServed(st: MockState, env: Env, ws: string, we: string, u: string)
    requires Fits(st, env) && |env.scheduleOrder| >= 1 && st.failEndpoints == map[]
    ensures exists r :: r in Responses(st, env, GetUserRequest(st.apiKey, u)) && RotatingApi(st, env, ws, we).getUser(u) == UserOf(r)
  {
    var req := GetUserRequest(st.apiKey, u);
    RoutedWhenHealthy(st, env, req);
    assert req.path[..10] == "/v2/users/" && req.path[10..] == u;
    RouteByPath(st, env, req);
    RotatingApiAnswers(st, env, ws, we, u);
    assert GetUserResponse(st, u) in Responses(st, env, req);
  }

  /** That view is one the mock may give: every answer decodes a response serve may send. */
  lemma RotatingApiServed(st: MockState, env: Env, ws: string, we: string)
    requires Fits(st, env) && |env.scheduleOrder| >= 1 && st.failEndpoints == map[]
    ensures ServedBy(RotatingApi(st, env, ws, we), st, env, st.apiKey, ws, we)
  {
    var api := RotatingApi(st, env, ws, we);
    forall c
      ensures ListingServed(api, st, env, st.apiKey, c)
    {
      RotatingListServed(st, env, ws, we, c);
      var e := RotatingEnv(st, env, c);
      var req := ListSchedulesRequest(st.apiKey, SyncPageSize, c);
      var r :| r in Responses(st, e, req) && api.listSchedules(c) == SchedulePageOf(r);
      assert Enumerates(e.scheduleOrder, st.schedules);
    }
    forall id
      ensures EntriesServed(api, st, env, st.apiKey, ws, we, id)
    {
      RotatingEntriesServed(st, env, ws, we, id);
    }
    forall u
      ensures UserServed(api, st, env, st.apiKey, u)
    {
      RotatingUserServed(st, env, ws, we, u);
    }
  }

  /** The rotating view's page for offset k, cut from the order that request sees. */
  lemma RotatingPage(st: MockState, env: Env, ws: string, we: string, k: nat)
    requires Fits(st, env) && 1 <= |env.scheduleOrder| <= MaxInt64 && k <= |env.scheduleOrder|
    ensures RotatingApi(st, env, ws, we).listSchedules(OffsetCursor(k))
              == Ok(OffsetPage(AllSchedules(st, RotatingEnv(st, env, OffsetCursor(k))), k))
  {
    var e := RotatingEnv(st, env, OffsetCursor(k));
    EnumerationSize(env.scheduleOrder, st.schedules);
    OffsetResponse(st, e, k);
    RotatingApiAnswers(st, env, ws, we, OffsetCursor(k));
  }

  /** A listing that ends on its second page collects the items of both. */
  lemma TwoPages(list: Lister, p1: Page<Schedule>, p2: Page<Schedule>, fuel: nat)
    requires fuel >= 2 && list("") == Ok(p1) && p1.after != "" && list(p1.after) == Ok(p2) && p2.after == ""
    ensures CollectPages(list, "", fuel) == Ok(p1.items + p2.items)
  {
    assert CollectPages(list, p1.after, fuel - 1) == Ok(p2.items);
  }

  /** The rotating view's first page: the first 250 of env's order, with the offset 250 as cursor. */
  lemma RotatingFirstPage(st: MockState, env: Env, ws: string, we: string)
    requires Fits(st, env) && SyncPageSize < |env.scheduleOrder| <= 2 * SyncPageSize
    ensures var p := RotatingApi(st, env, ws, we).listSchedules("");
            p.Ok? && p.value.items == AllSchedules(st, env)[..SyncPageSize] && p.value.after == OffsetCursor(SyncPageSize)
  {
    RotatingPage(st, env, ws, we, 0);
    assert RotatingEnv(st, env, OffsetCursor(0)) == env;
  }

  /** The rotating view's second page: the rest of the rotated order, with no cursor. */
  lemma RotatingSecondPage(st: MockState, env: Env, ws: string, we: string)
    requires Fits(st, env) && SyncPageSize < |env.scheduleOrder| <= 2 * SyncPageSize
    ensures var p := RotatingApi(st, env, ws, we).listSchedules(OffsetCursor(SyncPageSize));
            p.Ok? && p.value.items == AllSchedules(st, Rotated(st, env))[SyncPageSize..] && p.value.after == ""
  {
    var c := OffsetCursor(SyncPageSize);
    assert c == Itoa(SyncPageSize) && c != "";
    assert RotatingEnv(st, env, c) == Rotated(st, env);
    RotatingPage(st, env, ws, we, SyncPageSize);
    LastOffsetPage(AllSchedules(st, Rotated(st, env)), SyncPageSize);
  }

  /** From an offset with at most 250 schedules left, the page holds the rest and no cursor. */
  lemma LastOffsetPage(all: seq<Schedule>, k: nat)
    requires k <= |all| <= k + SyncPageSize
    ensures OffsetPage(all, k).items == all[k..] && OffsetPage(all, k).after == ""
  {
  }

  /** With 251 to 500 schedules the listing is the first 250 of env's order followed by the rest of the rotated order. */
  lemma RotatingListing(st: MockState, env: Env, ws: string, we: string)
    requires Fits(st, env) && SyncPageSize < |env.scheduleOrder| <= 2 * SyncPageSize
    ensures CollectPages(RotatingApi(st, env, ws, we).listSchedules, "", MaxPages)
              == Ok(AllSchedules(st, env)[..SyncPageSize] + AllSchedules(st, Rotated(st, env))[SyncPageSize..])
  {
    var list := RotatingApi(st, env, ws, we).listSchedules;
    RotatingFirstPage(st, env, ws, we);
    RotatingSecondPage(st, env, ws, we);
    TwoPages(list, list("").value, list(OffsetCursor(SyncPageSize)).value, MaxPages);
  }

  /** The first 250 of env's order and the rest of the rotated order never reach the 251st schedule. */
  lemma RotatedListingSkips(st: MockState, env: Env)
    requires Fits(st, env) && Keyed(st) && SyncPageSize < |env.scheduleOrder| <= 2 * SyncPageSize
    ensures var listing := AllSchedules(st, env)[..SyncPageSize] + AllSchedules(st, Rotated(st, env))[SyncPageSize..];
            forall i :: 0 <= i < |listing| ==> listing[i].id != env.scheduleOrder[SyncPageSize]
  {
    var o := env.scheduleOrder;
    var listing := AllSchedules(st, env)[..SyncPageSize] + AllSchedules(st, Rotated(st, env))[SyncPageSize..];
    forall i | 0 <= i < |listing|
      ensures listing[i].id != o[SyncPageSize]
    {
      var j := SplicedSource(AllSchedules(st, env), AllSchedules(st, Rotated(st, env)), o, st.schedules, i);
      assert listing[i].id == o[j];
    }
  }

  /**
    Where the i-th schedule of the spliced listing comes from: a key of the
    order other than the 251st, when a lists m in order and b in order
    rotated by one.
  */
  lemma SplicedSource(a: seq<Schedule>, b: seq<Schedule>, o: seq<string>, m: map<string, Schedule>, i: nat) returns (j: nat)
    requires SyncPageSize < |o| && |a| == |b| == |o| && i < |o|
    requires forall k :: 0 <= k < |o| ==> o[k] in m && a[k] == m[o[k]]
    requires forall k :: 0 <= k < |o| ==> b[k] == m[RotateOne(o)[k]]
    ensures j < |o| && j != SyncPageSize && (a[..SyncPageSize] + b[SyncPageSize..])[i] == m[o[j]]
  {
    var listing := a[..SyncPageSize] + b[SyncPageSize..];
    if i < SyncPageSize {
      j := i;
      assert listing[i] == a[i];
    } else if i < |o| - 1 {
      j := i + 1;
      assert listing[i] == b[i];
    } else {
      j := 0;
      assert listing[i] == b[i];
    }
  }

  /**
    Go's map order may change from one listing request to the next while
    pages are cut by offset. With 251 to 500 schedules, a second page cut
    from the order rotated by one repeats the first schedule and skips the
    251st, and the sync reports that schedule as gone although the mock has
    it.
  */
  lemma ReorderedPagesLoseSchedule(st: MockState, env: Env, ws: string, we: string)
    requires Fits(st, env) && Keyed(st) && st.failEndpoints == map[]
    requires SyncPageSize < |env.scheduleOrder| <= 2 * SyncPageSize
    ensures var api := RotatingApi(st, env, ws, we);
            var lost := env.scheduleOrder[SyncPageSize];
            && ServedBy(api, st, env, st.apiKey, ws, we)
            && lost in st.schedules
            && FullSync(api, [lost]) == Ok([SyncResult(lost, "", [], Some(ScheduleGone(lost)))])
  {
    var api := RotatingApi(st, env, ws, we);
    var lost := env.scheduleOrder[SyncPageSize];
    RotatingApiServed(st, env, ws, we);
    RotatingListing(st, env, ws, we);
    RotatedListingSkips(st, env);
    var index := IndexById(AllSchedules(st, env)[..SyncPageSize] + AllSchedules(st, Rotated(st, env))[SyncPageSize..]);
    assert lost !in index;
    assert SyncAll(api, index, [lost]) == [SyncOne(api, index, lost)];
  }


  /**
    An injected failure on the schedule list fails the whole sync with the
    client's reading of what serve wrote for one matching endpoint: the
    status and "Simulated failure" for a final status with a body.
  */
  lemma MockListingDown(api: Api, st: MockState, env: Env, ws: string, we: string, tracked: seq<string>, ep: string)
    requires Fits(st, env) && ServedBy(api, st, env, st.apiKey, ws, we)
    requires ep in st.failEndpoints && HasPrefix("/v2/schedules", ep)
    ensures FullSync(api, tracked).Err?
    ensures exists e :: e in st.failEndpoints && HasPrefix("/v2/schedules", e)
              && FullSync(api, tracked).error == ErrorOf(InjectedFailure(st.failEndpoints[e]))
    ensures (forall e :: e in st.failEndpoints && HasPrefix("/v2/schedules", e) ==>
               200 <= st.failEndpoints[e] <= 999 && BodyAllowed(st.failEndpoints[e])) ==>
              exists s :: s in st.failEndpoints.Values && FullSync(api, tracked).error == ApiError(s, "error", "Simulated failure")
  {
    var req := ListSchedulesRequest(st.apiKey, SyncPageSize, "");
    assert ListingServed(api, st, env, st.apiKey, "");
    var order :| Enumerates(order, st.schedules) &&
      exists r :: r in Responses(st, env.(scheduleOrder := order), req) && api.listSchedules("") == SchedulePageOf(r);
    var e' := env.(scheduleOrder := order);
    InjectedFailureWins(st, e', req, ep);
    var r :| r in Responses(st, e', req) && api.listSchedules("") == SchedulePageOf(r);
    var e :| e in st.failEndpoints && HasPrefix(req.path, e) && r == InjectedFailure(st.failEndpoints[e]);
    assert st.failEndpoints[e] in st.failEndpoints.Values;
    assert !r.Response? || !r.body.SchedulesBody?;
  }

  /** A client with the wrong key gets 401 on the first listing call, so the sync fails with it. */
  lemma MockWrongKey(api: Api, st: MockState, env: Env, apiKey: string, ws: string, we: string, tracked: seq<string>)
    requires Fits(st, env) && ServedBy(api, st, env, apiKey, ws, we)
    requires apiKey != st.apiKey
    ensures FullSync(api, tracked) == Err(ApiError(401, "authentication_error", "Invalid API key"))
  {
    var req := ListSchedulesRequest(apiKey, SyncPageSize, "");
    assert Bearer(apiKey)[7..] == apiKey && Bearer(st.apiKey)[7..] == st.apiKey;
    assert ListingServed(api, st, env, apiKey, "");
    var order :| Enumerates(order, st.schedules) &&
      exists r :: r in Responses(st, env.(scheduleOrder := order), req) && api.listSchedules("") == SchedulePageOf(r);
    UnauthorizedFirst(st, env.(scheduleOrder := order), req);
    var r :| r in Responses(st, env.(scheduleOrder := order), req) && api.listSchedules("") == SchedulePageOf(r);
  }
}
