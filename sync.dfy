/**
  The sync flow the functional tests drive: list every schedule by following
  the page cursor (at most 100 pages), then for each tracked schedule fetch its
  on-call entries and resolve each distinct user, recording a per-schedule
  error instead of stopping. The upstream calls are an Api of functions, so
  the same flow can be read against any server (MockSync ties it to the mock).
*/
module Sync {
  import opened Wrappers
  import opened Wire

  /** The page size listAllSchedules asks for. */
  const SyncPageSize := 250
  /** listAllSchedules requests at most this many pages. */
  const MaxPages := 100

  /**
    The three calls the sync makes, as functions of their arguments: one page
    of schedules after a cursor, the on-call entries of a schedule in the
    current window, and one user by id.
  */
  datatype Api = Api(
    listSchedules: string -> Result<Page<Schedule>, ApiError>,
    listEntries: string -> Result<seq<Entry>, ApiError>,
    getUser: string -> Result<User, ApiError>)

  type Lister = string -> Result<Page<Schedule>, ApiError>

  // ---------------------------------------------------------------------
  // listAllSchedules
  // ---------------------------------------------------------------------

  function Prepend(items: seq<Schedule>, r: Result<seq<Schedule>, ApiError>): Result<seq<Schedule>, ApiError> {
    match r
    case Ok(rest) => Ok(items + rest)
    case Err(e) => Err(e)
  }

  /**
    What listing returns from cursor with fuel pages left: each page's
    schedules in order, stopping after the first page with an empty cursor, or
    after fuel pages with what was gathered and no error; the first failed page
    fails the whole listing.
  */
  function CollectPages(list: Lister, cursor: string, fuel: nat): Result<seq<Schedule>, ApiError>
    decreases fuel
  {
    if fuel == 0 then Ok([])
    else match list(cursor)
      case Err(e) => Err(e)
      case Ok(p) => if p.after == "" then Ok(p.items) else Prepend(p.items, CollectPages(list, p.after, fuel - 1))
  }

  /**
    What the first page decides: no fuel gives nothing, a failed first page
    gives its error, a last first page gives just its schedules, and a
    successful listing starts with the first page's schedules.
  */
  lemma CollectFirstPage(list: Lister, cursor: string, fuel: nat)
    ensures var r := CollectPages(list, cursor, fuel);
            && (fuel == 0 ==> r == Ok([]))
            && (fuel > 0 && list(cursor).Err? ==> r == Err(list(cursor).error))
            && (fuel > 0 && list(cursor).Ok? && list(cursor).value.after == "" ==> r == Ok(list(cursor).value.items))
            && (fuel > 0 && list(cursor).Ok? && r.Ok? ==> list(cursor).value.items <= r.value)
  {
  }

  /** The cursors listing sends, in order, from cursor with fuel pages left. */
  function CursorsRequested(list: Lister, cursor: string, fuel: nat): (cs: seq<string>)
    ensures |cs| <= fuel
    ensures fuel > 0 ==> |cs| >= 1 && cs[0] == cursor
    decreases fuel
  {
    if fuel == 0 then []
    else match list(cursor)
      case Err(_) => [cursor]
      case Ok(p) => if p.after == "" then [cursor] else [cursor] + CursorsRequested(list, p.after, fuel - 1)
  }

  lemma PrependNil(r: Result<seq<Schedule>, ApiError>)
    ensures Prepend([], r) == r
  {
    if r.Ok? {
      assert [] + r.value == r.value;
    }
  }

  lemma PrependPrepend(xs: seq<Schedule>, ys: seq<Schedule>, r: Result<seq<Schedule>, ApiError>)
    ensures Prepend(xs, Prepend(ys, r)) == Prepend(xs + ys, r)
  {
    if r.Ok? {
      assert xs + (ys + r.value) == (xs + ys) + r.value;
    }
  }

  /** The listing so far, the cursor still to send and fuel left account for the whole listing from cursor0. */
  ghost predicate ListedSoFar(list: Lister, all: seq<Schedule>, requested: seq<string>, after: string, fuel: nat, cursor0: string, fuel0: nat) {
    && Prepend(all, CollectPages(list, after, fuel)) == CollectPages(list, cursor0, fuel0)
    && requested + CursorsRequested(list, after, fuel) == CursorsRequested(list, cursor0, fuel0)
  }

  /** Before the first page nothing is listed and nothing requested. */
  lemma ListStart(list: Lister, cursor0: string, fuel0: nat)
    ensures ListedSoFar(list, [], [], cursor0, fuel0, cursor0, fuel0)
  {
    PrependNil(CollectPages(list, cursor0, fuel0));
    assert [] + CursorsRequested(list, cursor0, fuel0) == CursorsRequested(list, cursor0, fuel0);
  }

  /** A page with a next cursor: the listing goes on from that cursor with one page less. */
  lemma ListStepContinue(list: Lister, all: seq<Schedule>, requested: seq<string>, after: string, fuel: nat, cursor0: string, fuel0: nat)
    requires fuel > 0 && list(after).Ok? && list(after).value.after != ""
    requires ListedSoFar(list, all, requested, after, fuel, cursor0, fuel0)
    ensures ListedSoFar(list, all + list(after).value.items, requested + [after], list(after).value.after, fuel - 1, cursor0, fuel0)
  {
    var p := list(after).value;
    PrependPrepend(all, p.items, CollectPages(list, p.after, fuel - 1));
    assert requested + ([after] + CursorsRequested(list, p.after, fuel - 1))
        == (requested + [after]) + CursorsRequested(list, p.after, fuel - 1);
  }

  /** A page with an empty cursor ends the listing. */
  lemma ListStepStop(list: Lister, all: seq<Schedule>, requested: seq<string>, after: string, fuel: nat, cursor0: string, fuel0: nat)
    requires fuel > 0 && list(after).Ok? && list(after).value.after == ""
    requires ListedSoFar(list, all, requested, after, fuel, cursor0, fuel0)
    ensures Ok(all + list(after).value.items) == CollectPages(list, cursor0, fuel0)
    ensures requested + [after] == CursorsRequested(list, cursor0, fuel0)
  {
  }

  /** A failed page ends the listing with its error. */
  lemma ListStepFail(list: Lister, all: seq<Schedule>, requested: seq<string>, after: string, fuel: nat, cursor0: string, fuel0: nat)
    requires fuel > 0 && list(after).Err?
    requires ListedSoFar(list, all, requested, after, fuel, cursor0, fuel0)
    ensures Err(list(after).error) == CollectPages(list, cursor0, fuel0)
    ensures requested + [after] == CursorsRequested(list, cursor0, fuel0)
  {
  }

  /** With no fuel left the listing ends with what was gathered. */
  lemma ListStepOut(list: Lister, all: seq<Schedule>, requested: seq<string>, after: string, cursor0: string, fuel0: nat)
    requires ListedSoFar(list, all, requested, after, 0, cursor0, fuel0)
    ensures Ok(all) == CollectPages(list, cursor0, fuel0)
    ensures requested == CursorsRequested(list, cursor0, fuel0)
  {
    assert all + [] == all;
    assert requested + [] == requested;
  }

  /**
    listAllSchedules: follows the cursor from "" with page size 250 for at
    most 100 pages; any page error returns the error and no schedules.
  */
  method ListAllSchedules(api: Api) returns (r: Result<seq<Schedule>, ApiError>, ghost requested: seq<string>)
    ensures r == CollectPages(api.listSchedules, "", MaxPages)
    ensures requested == CursorsRequested(api.listSchedules, "", MaxPages)
  {
    var list := api.listSchedules;
    var all: seq<Schedule> := [];
    var after := "";
    requested := [];
    var page := 0;
    ghost var left: nat := MaxPages;
    ListStart(list, "", MaxPages);
    while page < MaxPages
      invariant 0 <= page <= MaxPages && left == MaxPages - page
      invariant ListedSoFar(list, all, requested, after, left, "", MaxPages)
    {
      var resp := list(after);
      if resp.Err? {
        ListStepFail(list, all, requested, after, left, "", MaxPages);
        requested := requested + [after];
        r := Err(resp.error);
        return;
      }
      if resp.value.after == "" {
        ListStepStop(list, all, requested, after, left, "", MaxPages);
        requested := requested + [after];
        r := Ok(all + resp.value.items);
        return;
      }
      ListStepContinue(list, all, requested, after, left, "", MaxPages);
      requested := requested + [after];
      all := all + resp.value.items;
      after := resp.value.after;
      page := page + 1;
      left := left - 1;
    }
    ListStepOut(list, all, requested, after, "", MaxPages);
    r := Ok(all);
  }

  /** Each cursor but the last came from a successful page whose non-empty next cursor is the one after it. */
  predicate Chained(list: Lister, cs: seq<string>) {
    forall i {:trigger cs[i]} :: 0 <= i < |cs| - 1 ==> list(cs[i]).Ok? && list(cs[i]).value.after == cs[i + 1] != ""
  }

  /**
    The listing follows the server's cursor: every page but the last one sent
    succeeded and named the next cursor, which is never empty.
  */
  lemma {:induction false} CursorChain(list: Lister, cursor: string, fuel: nat)
    ensures Chained(list, CursorsRequested(list, cursor, fuel))
    decreases fuel
  {
    if fuel > 0 && list(cursor).Ok? && list(cursor).value.after != "" {
      var next := list(cursor).value.after;
      CursorChain(list, next, fuel - 1);
      var cs := CursorsRequested(list, cursor, fuel);
      var rest := CursorsRequested(list, next, fuel - 1);
      assert cs == [cursor] + rest;
      forall i {:trigger cs[i]} | 0 <= i < |cs| - 1
        ensures list(cs[i]).Ok? && list(cs[i]).value.after == cs[i + 1] != ""
      {
        if i > 0 {
          assert cs[i] == rest[i - 1] && cs[i + 1] == rest[i];
        } else {
          assert cs[1] == rest[0] == next;
        }
      }
    }
  }

  /** The listing fails exactly when one of the pages it requested failed. */
  lemma {:induction false} ListingFailsIffAPageFails(list: Lister, cursor: string, fuel: nat)
    ensures var cs := CursorsRequested(list, cursor, fuel);
            CollectPages(list, cursor, fuel).Err? <==> exists i :: 0 <= i < |cs| && list(cs[i]).Err?
    decreases fuel
  {
    var cs := CursorsRequested(list, cursor, fuel);
    if fuel > 0 && list(cursor).Ok? && list(cursor).value.after != "" {
      var next := list(cursor).value.after;
      ListingFailsIffAPageFails(list, next, fuel - 1);
      var rest := CursorsRequested(list, next, fuel - 1);
      assert cs == [cursor] + rest;
      if exists i :: 0 <= i < |cs| && list(cs[i]).Err? {
        var i :| 0 <= i < |cs| && list(cs[i]).Err?;
        assert i > 0 && cs[i] == rest[i - 1];
      }
      if CollectPages(list, next, fuel - 1).Err? {
        var k :| 0 <= k < |rest| && list(rest[k]).Err?;
        assert cs[k + 1] == rest[k];
      }
    } else if fuel > 0 {
      assert cs == [cursor];
    }
  }

  /** When the listing fails, the failed page is the last one it requested, and its error is the listing's. */
  lemma {:induction false} FailedPageIsLast(list: Lister, cursor: string, fuel: nat)
    requires CollectPages(list, cursor, fuel).Err?
    ensures var cs := CursorsRequested(list, cursor, fuel);
            |cs| > 0 && list(cs[|cs| - 1]) == Err(CollectPages(list, cursor, fuel).error)
    decreases fuel
  {
    if list(cursor).Ok? {
      var next := list(cursor).value.after;
      FailedPageIsLast(list, next, fuel - 1);
      var rest := CursorsRequested(list, next, fuel - 1);
      assert CursorsRequested(list, cursor, fuel) == [cursor] + rest;
    }
  }

  function Repeat(items: seq<Schedule>, n: nat): (r: seq<Schedule>)
    ensures |r| == n * |items|
  {
    if n == 0 then [] else items + Repeat(items, n - 1)
  }

  /**
    A server that always answers the same page with the same non-empty
    cursor: the listing stops after fuel requests and returns fuel copies of
    the page with no error (the truncation is silent).
  */
  lemma {:induction false} SilentTruncation(list: Lister, p: Page<Schedule>, cursor: string, fuel: nat)
    requires p.after != ""
    requires forall c :: list(c) == Ok(p)
    ensures CollectPages(list, cursor, fuel) == Ok(Repeat(p.items, fuel))
    ensures |CursorsRequested(list, cursor, fuel)| == fuel
    decreases fuel
  {
    if fuel > 0 {
      SilentTruncation(list, p, p.after, fuel - 1);
    }
  }

  /** Two servers that answer every cursor alike give the same listing. */
  lemma {:induction false} CollectPagesAgree(list1: Lister, list2: Lister, cursor: string, fuel: nat)
    requires forall c :: list1(c) == list2(c)
    ensures CollectPages(list1, cursor, fuel) == CollectPages(list2, cursor, fuel)
    decreases fuel
  {
    if fuel > 0 && list1(cursor).Ok? && list1(cursor).value.after != "" {
      CollectPagesAgree(list1, list2, list1(cursor).value.after, fuel - 1);
    }
  }

  // ---------------------------------------------------------------------
  // simulateFullSync
  // ---------------------------------------------------------------------

  /** scheduleMap: the listed schedules by id; a later duplicate id replaces an earlier one. */
  function IndexById(s: seq<Schedule>): (m: map<string, Schedule>)
    ensures forall id :: id in m <==> exists i :: 0 <= i < |s| && s[i].id == id
    ensures forall id :: id in m ==> m[id].id == id && m[id] in s
  {
    if s == [] then map[]
    else IndexById(s[..|s| - 1])[s[|s| - 1].id := s[|s| - 1]]
  }

  /** x is listed in s, and no schedule with that id is listed after it. */
  ghost predicate LastListed(s: seq<Schedule>, id: string, x: Schedule) {
    exists j :: 0 <= j < |s| && s[j] == x && forall k :: j < k < |s| ==> s[k].id != id
  }

  /** For a repeated id the index keeps the last listed schedule with that id. */
  lemma {:induction false} IndexByIdKeepsLast(s: seq<Schedule>)
    ensures forall id :: id in IndexById(s) ==> LastListed(s, id, IndexById(s)[id])
  {
    if s != [] {
      var n := |s| - 1;
      var p := s[..n];
      var x := s[n];
      assert s == p + [x];
      IndexByIdKeepsLast(p);
      var m' := IndexById(p);
      var m := IndexById(s);
      assert m == m'[x.id := x];
      forall id | id in m
        ensures LastListed(s, id, m[id])
      {
        if id == x.id {
          LastListedEnd(p, x);
        } else {
          assert id in m' && m[id] == m'[id];
          assert LastListed(p, id, m'[id]);
          LastListedSnoc(p, x, id, m'[id]);
        }
      }
    }
  }

  /** The last schedule of a listing is the last one listed with its id. */
  lemma LastListedEnd(p: seq<Schedule>, x: Schedule)
    ensures LastListed(p + [x], x.id, x)
  {
    assert (p + [x])[|p|] == x;
  }

  /** Listing a schedule with another id after the last one with id keeps it the last. */
  lemma LastListedSnoc(p: seq<Schedule>, x: Schedule, id: string, y: Schedule)
    requires LastListed(p, id, y) && x.id != id
    ensures LastListed(p + [x], id, y)
  {
    var j :| 0 <= j < |p| && p[j] == y && forall k :: j < k < |p| ==> p[k].id != id;
    var s := p + [x];
    assert s[j] == y;
    forall k | j < k < |s|
      ensures s[k].id != id
    {
      if k < |p| {
        assert s[k] == p[k];
      }
    }
  }

  function UserIds(entries: seq<Entry>): (ids: seq<string>)
    ensures |ids| == |entries|
    ensures forall k :: 0 <= k < |entries| ==> ids[k] == entries[k].user.id
  {
    seq(|entries|, k requires 0 <= k < |entries| => entries[k].user.id)
  }

  /** The positions of ids that hold a non-empty id not seen earlier in ids, in increasing order. */
  function FirstPositions(ids: seq<string>): (pos: seq<nat>)
    ensures |pos| <= |ids|
    ensures forall k :: 0 <= k < |pos| ==> pos[k] < |ids|
    ensures forall k, l :: 0 <= k < l < |pos| ==> pos[k] < pos[l]
    ensures forall i :: 0 <= i < |ids| ==> (i in pos <==> ids[i] != "" && ids[i] !in ids[..i])
  {
    if ids == [] then []
    else
      var n := |ids| - 1;
      assert forall i :: 0 <= i < n ==> ids[..n][..i] == ids[..i];
      FirstPositions(ids[..n]) + (if ids[n] != "" && ids[n] !in ids[..n] then [n] else [])
  }

  /** The ids the sync looks up: first occurrences only, in order, with empty ids skipped. */
  function DistinctNonEmpty(ids: seq<string>): (r: seq<string>)
    ensures forall i, j :: 0 <= i < j < |r| ==> r[i] != r[j]
    ensures forall id :: id in r <==> id in ids && id != ""
    ensures |r| <= |ids|
  {
    if ids == [] then []
    else
      var r := DistinctNonEmpty(ids[..|ids| - 1]);
      var id := ids[|ids| - 1];
      if id == "" || id in r then r else r + [id]
  }

  /**
    The lookup list in full: the id at each first position of the input, in
    order, and nothing else.
  */
  lemma {:induction false} DistinctNonEmptyPositions(ids: seq<string>)
    ensures AtPositions(ids, FirstPositions(ids), DistinctNonEmpty(ids))
  {
    if ids != [] {
      var n := |ids| - 1;
      DistinctNonEmptyPositions(ids[..n]);
      var id := ids[n];
      var r := DistinctNonEmpty(ids[..n]);
      var isNew := id != "" && id !in ids[..n];
      assert isNew <==> !(id == "" || id in r);
      AppendAtPositions(ids, FirstPositions(ids[..n]), r, isNew);
    }
  }

  /** r holds, in order, the element of ids at each of the positions pos. */
  ghost predicate AtPositions<T>(ids: seq<T>, pos: seq<nat>, r: seq<T>) {
    |r| == |pos| && forall k :: 0 <= k < |r| ==> pos[k] < |ids| && r[k] == ids[pos[k]]
  }

  /** Picking the last position too picks the last element. */
  lemma AppendAtPositions<T>(ids: seq<T>, pos: seq<nat>, r: seq<T>, add: bool)
    requires ids != [] && AtPositions(ids[..|ids| - 1], pos, r)
    ensures AtPositions(ids, pos + (if add then [|ids| - 1] else []), r + (if add then [ids[|ids| - 1]] else []))
  {
    var n := |ids| - 1;
    var pos' := pos + (if add then [n] else []);
    var r' := r + (if add then [ids[n]] else []);
    forall k | 0 <= k < |r'|
      ensures pos'[k] < |ids| && r'[k] == ids[pos'[k]]
    {
      if k < |r| {
        assert r'[k] == r[k] == ids[..n][pos[k]];
      }
    }
  }

  /** The user the sync records for a looked-up user record. */
  datatype ResolvedUser = ResolvedUser(userId: string, name: string, email: string)

  function ResolvedOf(u: User): ResolvedUser { ResolvedUser(u.id, u.name, u.email) }

  /** The positions of ids whose lookup succeeds, in increasing order. */
  function OkPositions(getUser: string -> Result<User, ApiError>, ids: seq<string>): (pos: seq<nat>)
    ensures |pos| <= |ids|
    ensures forall k :: 0 <= k < |pos| ==> pos[k] < |ids|
    ensures forall k, l :: 0 <= k < l < |pos| ==> pos[k] < pos[l]
    ensures forall i :: 0 <= i < |ids| ==> (i in pos <==> getUser(ids[i]).Ok?)
  {
    if ids == [] then []
    else
      var n := |ids| - 1;
      OkPositions(getUser, ids[..n]) + (if getUser(ids[n]).Ok? then [n] else [])
  }

  /**
    The users whose lookup succeeds, in lookup order: one per successful
    position, and every id whose lookup succeeds is among them.
  */
  function Resolve(getUser: string -> Result<User, ApiError>, ids: seq<string>): (users: seq<ResolvedUser>)
    ensures OnePerOkPosition(getUser, ids, users)
    ensures forall id :: id in ids && getUser(id).Ok? ==> ResolvedOf(getUser(id).value) in users
    ensures |users| <= |ids|
    ensures forall u :: u in users ==> exists id :: id in ids && getUser(id).Ok? && u == ResolvedOf(getUser(id).value)
  {
    if ids == [] then []
    else
      var prefix := Resolve(getUser, ids[..|ids| - 1]);
      var id := ids[|ids| - 1];
      ResolveStep(getUser, ids, prefix);
      match getUser(id)
      case Ok(u) => prefix + [ResolvedOf(u)]
      case Err(_) => prefix
  }

  /** Users picked one per successful position. */
  ghost predicate OnePerOkPosition(getUser: string -> Result<User, ApiError>, ids: seq<string>, users: seq<ResolvedUser>) {
    var pos := OkPositions(getUser, ids);
    |users| == |pos| && forall k :: 0 <= k < |users| ==> users[k] == ResolvedOf(getUser(ids[pos[k]]).value)
  }

  /** One step of Resolve: the users of all ids but the last extend to all ids. */
  lemma ResolveStep(getUser: string -> Result<User, ApiError>, ids: seq<string>, prefix: seq<ResolvedUser>)
    requires ids != [] && OnePerOkPosition(getUser, ids[..|ids| - 1], prefix)
    ensures var id := ids[|ids| - 1];
            var users := if getUser(id).Ok? then prefix + [ResolvedOf(getUser(id).value)] else prefix;
            && OnePerOkPosition(getUser, ids, users)
            && (forall id :: id in ids && getUser(id).Ok? ==> ResolvedOf(getUser(id).value) in users)
            && |users| <= |ids|
            && (forall u :: u in users ==> exists id :: id in ids && getUser(id).Ok? && u == ResolvedOf(getUser(id).value))
  {
    var n := |ids| - 1;
    var users := if getUser(ids[n]).Ok? then prefix + [ResolvedOf(getUser(ids[n]).value)] else prefix;
    ResolveStepPositions(getUser, ids, prefix);
    OkPositionsMembership(getUser, ids, users);
  }

  lemma ResolveStepPositions(getUser: string -> Result<User, ApiError>, ids: seq<string>, prefix: seq<ResolvedUser>)
    requires ids != [] && OnePerOkPosition(getUser, ids[..|ids| - 1], prefix)
    ensures var id := ids[|ids| - 1];
            OnePerOkPosition(getUser, ids, if getUser(id).Ok? then prefix + [ResolvedOf(getUser(id).value)] else prefix)
  {
    var n := |ids| - 1;
    var users := if getUser(ids[n]).Ok? then prefix + [ResolvedOf(getUser(ids[n]).value)] else prefix;
    var pos0 := OkPositions(getUser, ids[..n]);
    var pos := OkPositions(getUser, ids);
    assert pos == pos0 + (if getUser(ids[n]).Ok? then [n] else []);
    forall k | 0 <= k < |users|
      ensures users[k] == ResolvedOf(getUser(ids[pos[k]]).value)
    {
      if k < |prefix| {
        assert users[k] == prefix[k] == ResolvedOf(getUser(ids[..n][pos0[k]]).value);
      }
    }
  }

  /** Users picked one per successful position hold every successful lookup and nothing else. */
  lemma OkPositionsMembership(getUser: string -> Result<User, ApiError>, ids: seq<string>, users: seq<ResolvedUser>)
    requires OnePerOkPosition(getUser, ids, users)
    ensures forall id :: id in ids && getUser(id).Ok? ==> ResolvedOf(getUser(id).value) in users
    ensures |users| <= |ids|
    ensures forall u :: u in users ==> exists id :: id in ids && getUser(id).Ok? && u == ResolvedOf(getUser(id).value)
  {
    var pos := OkPositions(getUser, ids);
    forall id | id in ids && getUser(id).Ok?
      ensures ResolvedOf(getUser(id).value) in users
    {
      var i :| 0 <= i < |ids| && ids[i] == id;
      assert i in pos;
      var k :| 0 <= k < |pos| && pos[k] == i;
      assert users[k] == ResolvedOf(getUser(id).value);
    }
    forall u | u in users
      ensures exists id :: id in ids && getUser(id).Ok? && u == ResolvedOf(getUser(id).value)
    {
      var k :| 0 <= k < |users| && users[k] == u;
      assert ids[pos[k]] in ids && getUser(ids[pos[k]]).Ok?;
    }
  }

  /** When every lookup succeeds nothing is dropped: one user per id, in order. */
  lemma ResolveAllFound(getUser: string -> Result<User, ApiError>, ids: seq<string>)
    requires forall id :: id in ids ==> getUser(id).Ok?
    ensures |Resolve(getUser, ids)| == |ids|
    ensures forall i :: 0 <= i < |ids| ==> Resolve(getUser, ids)[i] == ResolvedOf(getUser(ids[i]).value)
  {
    AllOkPositions(getUser, ids);
    assert OnePerOkPosition(getUser, ids, Resolve(getUser, ids));
  }

  /** When every lookup succeeds, every position is a successful one. */
  lemma {:induction false} AllOkPositions(getUser: string -> Result<User, ApiError>, ids: seq<string>)
    requires forall id :: id in ids ==> getUser(id).Ok?
    ensures |OkPositions(getUser, ids)| == |ids|
    ensures forall k :: 0 <= k < |ids| ==> OkPositions(getUser, ids)[k] == k
  {
    if ids != [] {
      var n := |ids| - 1;
      assert forall id :: id in ids[..n] ==> id in ids;
      AllOkPositions(getUser, ids[..n]);
      var prev := OkPositions(getUser, ids[..n]);
      assert getUser(ids[n]).Ok? && OkPositions(getUser, ids) == prev + [n];
      CountUpSnoc(prev);
    }
  }

  /** 0, 1, ..., n - 1 followed by n counts up to n. */
  lemma CountUpSnoc(prev: seq<nat>)
    requires forall k :: 0 <= k < |prev| ==> prev[k] == k
    ensures forall k :: 0 <= k <= |prev| ==> (prev + [|prev|])[k] == k
  {
  }

  datatype SyncError = ScheduleGone(scheduleId: string) | EntriesFailed(cause: ApiError)

  datatype SyncResult = SyncResult(scheduleId: string, scheduleName: string, onCallUsers: seq<ResolvedUser>, error: Option<SyncError>)

  /**
    The result for one tracked schedule: an error with no users when it is
    missing from the listing or its entries cannot be fetched, otherwise the
    resolved distinct on-call users.
  */
  function SyncOne(api: Api, index: map<string, Schedule>, id: string): (r: SyncResult)
    ensures r.scheduleId == id
    ensures r.error.Some? ==> r.onCallUsers == []
    ensures id !in index ==> r.error == Some(ScheduleGone(id)) && r.scheduleName == ""
    ensures id in index ==> r.scheduleName == index[id].name
    ensures id in index && api.listEntries(id).Err? ==> r.error == Some(EntriesFailed(api.listEntries(id).error))
    ensures r.error.None? <==> id in index && api.listEntries(id).Ok?
    ensures r.error.None? ==> r.onCallUsers == Resolve(api.getUser, DistinctNonEmpty(UserIds(api.listEntries(id).value)))
  {
    if id !in index then SyncResult(id, "", [], Some(ScheduleGone(id)))
    else match api.listEntries(id)
      case Err(e) => SyncResult(id, index[id].name, [], Some(EntriesFailed(e)))
      case Ok(entries) => SyncResult(id, index[id].name, Resolve(api.getUser, DistinctNonEmpty(UserIds(entries))), None)
  }

  /** One result per tracked id, in tracked order, each depending on that id alone. */
  function SyncAll(api: Api, index: map<string, Schedule>, tracked: seq<string>): (rs: seq<SyncResult>)
    ensures |rs| == |tracked|
    ensures forall i :: 0 <= i < |tracked| ==> rs[i] == SyncOne(api, index, tracked[i])
  {
    if tracked == [] then []
    else SyncAll(api, index, tracked[..|tracked| - 1]) + [SyncOne(api, index, tracked[|tracked| - 1])]
  }

  /**
    What simulateFullSync returns: the listing's error when listing fails,
    otherwise one result per tracked schedule, in order, with that id.
  */
  function FullSync(api: Api, tracked: seq<string>): (r: Result<seq<SyncResult>, ApiError>)
    ensures r.Err? <==> CollectPages(api.listSchedules, "", MaxPages).Err?
    ensures r.Err? ==> r.error == CollectPages(api.listSchedules, "", MaxPages).error
    ensures r.Ok? ==> |r.value| == |tracked| && forall i :: 0 <= i < |tracked| ==> r.value[i].scheduleId == tracked[i]
  {
    match CollectPages(api.listSchedules, "", MaxPages)
    case Err(e) => Err(e)
    case Ok(all) => Ok(SyncAll(api, IndexById(all), tracked))
  }

  /** Appending an id to the input appends it to the lookup list unless it is empty or already there. */
  lemma DistinctNonEmptySnoc(ids: seq<string>, id: string)
    ensures DistinctNonEmpty(ids + [id]) == if id == "" || id in DistinctNonEmpty(ids) then DistinctNonEmpty(ids) else DistinctNonEmpty(ids) + [id]
  {
    assert (ids + [id])[..|ids|] == ids;
  }

  lemma ResolveSnoc(getUser: string -> Result<User, ApiError>, ids: seq<string>, id: string)
    ensures Resolve(getUser, ids + [id]) == if getUser(id).Ok? then Resolve(getUser, ids) + [ResolvedOf(getUser(id).value)] else Resolve(getUser, ids)
  {
    assert (ids + [id])[..|ids|] == ids;
  }

  /** One pass of the loop below: how entry i extends the lookup list and the users. */
  lemma ResolveLoopStep(getUser: string -> Result<User, ApiError>, all: seq<string>, i: nat, done: seq<string>, users: seq<ResolvedUser>)
    requires i < |all| && done == DistinctNonEmpty(all[..i]) && users == Resolve(getUser, done)
    ensures var id := all[i];
            var isNew := id != "" && id !in done;
            && DistinctNonEmpty(all[..i + 1]) == (if isNew then done + [id] else done)
            && (isNew ==> Resolve(getUser, done + [id]) == if getUser(id).Ok? then users + [ResolvedOf(getUser(id).value)] else users)
  {
    assert all[..i + 1] == all[..i] + [all[i]];
    DistinctNonEmptySnoc(all[..i], all[i]);
    ResolveSnoc(getUser, done, all[i]);
  }

  /** The loop over one schedule's entries, with the seen set and the skip rules of the source. */
  method ResolveOnCallUsers(api: Api, entries: seq<Entry>) returns (users: seq<ResolvedUser>)
    ensures users == Resolve(api.getUser, DistinctNonEmpty(UserIds(entries)))
  {
    ghost var all := UserIds(entries);
    ghost var done: seq<string> := [];
    var seen: set<string> := {};
    users := [];
    var i := 0;
    while i < |entries|
      invariant 0 <= i <= |entries|
      invariant done == DistinctNonEmpty(all[..i])
      invariant forall id :: id in seen <==> id in done
      invariant users == Resolve(api.getUser, done)
    {
      var id := entries[i].user.id;
      ResolveLoopStep(api.getUser, all, i, done, users);
      if id == "" || id in seen {
        i := i + 1;
        continue;
      }
      seen := seen + {id};
      done := done + [id];
      var user := api.getUser(id);
      if user.Err? {
        i := i + 1;
        continue;
      }
      users := users + [ResolvedOf(user.value)];
      i := i + 1;
    }
    assert all[..i] == all;
  }

  /** The scheduleMap loop: index the listed schedules by id. */
  method IndexSchedules(all: seq<Schedule>) returns (scheduleMap: map<string, Schedule>)
    ensures scheduleMap == IndexById(all)
  {
    scheduleMap := map[];
    var k := 0;
    while k < |all|
      invariant 0 <= k <= |all|
      invariant scheduleMap == IndexById(all[..k])
    {
      assert all[..k + 1][..k] == all[..k];
      scheduleMap := scheduleMap[all[k].id := all[k]];
      k := k + 1;
    }
    assert all[..k] == all;
  }

  /** The body of the sync loop for one tracked id. */
  method SyncSchedule(api: Api, scheduleMap: map<string, Schedule>, id: string) returns (r: SyncResult)
    ensures r == SyncOne(api, scheduleMap, id)
  {
    if id !in scheduleMap {
      return SyncResult(id, "", [], Some(ScheduleGone(id)));
    }
    var name := scheduleMap[id].name;
    var entries := api.listEntries(id);
    if entries.Err? {
      return SyncResult(id, name, [], Some(EntriesFailed(entries.error)));
    }
    var users := ResolveOnCallUsers(api, entries.value);
    r := SyncResult(id, name, users, None);
  }

  /** simulateFullSync: list, index by id, then sync every tracked schedule independently. */
  method SimulateFullSync(api: Api, tracked: seq<string>) returns (r: Result<seq<SyncResult>, ApiError>)
    ensures r == FullSync(api, tracked)
  {
    var listed, _ := ListAllSchedules(api);
    if listed.Err? {
      return Err(listed.error);
    }
    var scheduleMap := IndexSchedules(listed.value);
    var results: seq<SyncResult> := [];
    var i := 0;
    while i < |tracked|
      invariant 0 <= i <= |tracked|
      invariant results == SyncAll(api, scheduleMap, tracked[..i])
    {
      assert tracked[..i + 1][..i] == tracked[..i];
      var result := SyncSchedule(api, scheduleMap, tracked[i]);
      results := results + [result];
      i := i + 1;
    }
    assert tracked[..i] == tracked;
    r := Ok(results);
  }

  /**
    Per-schedule isolation: two upstreams that agree on the listing, on every
    user lookup and on this one schedule's entries give it the same result,
    whatever the other schedules' entry calls return.
  */
  lemma ScheduleIsolation(api1: Api, api2: Api, tracked: seq<string>, i: nat)
    requires i < |tracked|
    requires forall c :: api1.listSchedules(c) == api2.listSchedules(c)
    requires forall u :: api1.getUser(u) == api2.getUser(u)
    requires api1.listEntries(tracked[i]) == api2.listEntries(tracked[i])
    ensures FullSync(api1, tracked).Ok? <==> FullSync(api2, tracked).Ok?
    ensures FullSync(api1, tracked).Ok? ==> FullSync(api1, tracked).value[i] == FullSync(api2, tracked).value[i]
  {
    CollectPagesAgree(api1.listSchedules, api2.listSchedules, "", MaxPages);
    ResolveAgree(api1.getUser, api2.getUser,
      if api1.listEntries(tracked[i]).Ok? then DistinctNonEmpty(UserIds(api1.listEntries(tracked[i]).value)) else []);
  }

  lemma {:induction false} ResolveAgree(get1: string -> Result<User, ApiError>, get2: string -> Result<User, ApiError>, ids: seq<string>)
    requires forall u :: get1(u) == get2(u)
    ensures Resolve(get1, ids) == Resolve(get2, ids)
  {
    if ids != [] {
      ResolveAgree(get1, get2, ids[..|ids| - 1]);
    }
  }

  /**
    Within a schedule each distinct non-empty user id is looked up once, so a
    schedule never has more resolved users than distinct non-empty ids among
    its entries, and has exactly that many when every lookup succeeds.
  */
  lemma ResolvedUsersBound(api: Api, tracked: seq<string>, i: nat)
    requires i < |tracked| && FullSync(api, tracked).Ok?
    ensures var r := FullSync(api, tracked).value[i];
            r.error.None? ==>
              var ids := DistinctNonEmpty(UserIds(api.listEntries(tracked[i]).value));
              && |r.onCallUsers| <= |ids|
              && ((forall id :: id in ids ==> api.getUser(id).Ok?) ==> |r.onCallUsers| == |ids|)
  {
    var r := FullSync(api, tracked).value[i];
    if r.error.None? {
      var ids := DistinctNonEmpty(UserIds(api.listEntries(tracked[i]).value));
      if forall id :: id in ids ==> api.getUser(id).Ok? {
        ResolveAllFound(api.getUser, ids);
      }
    }
  }

  /**
    No deduplication across schedules: the seen set is per schedule, so a
    user on call in two synced schedules, whose lookup succeeds, appears in
    the results of both.
  */
  lemma NoCrossScheduleDedup(api: Api, tracked: seq<string>, i: nat, j: nat, u: string)
    requires i < |tracked| && j < |tracked| && FullSync(api, tracked).Ok?
    requires u != "" && api.getUser(u).Ok?
    requires api.listEntries(tracked[i]).Ok? && u in UserIds(api.listEntries(tracked[i]).value)
    requires api.listEntries(tracked[j]).Ok? && u in UserIds(api.listEntries(tracked[j]).value)
    ensures var rs := FullSync(api, tracked).value;
            && (rs[i].error.None? ==> ResolvedOf(api.getUser(u).value) in rs[i].onCallUsers)
            && (rs[j].error.None? ==> ResolvedOf(api.getUser(u).value) in rs[j].onCallUsers)
  {
    assert u in DistinctNonEmpty(UserIds(api.listEntries(tracked[i]).value));
    assert u in DistinctNonEmpty(UserIds(api.listEntries(tracked[j]).value));
  }
}
