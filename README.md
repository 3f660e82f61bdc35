# incident.io sync scaffolding, modelled in Dafny

The QA suite of this repository carries its own small reference system, written
in Go as test scaffolding. It has three parts:

- A **stateful fake incident.io API** (`mockIncidentIO` in `qa/functional_test.go`):
  - State: schedules, users, on-call lists, schedules set to fail, endpoint prefixes set to fail, and a request log with its counter.
  - Request handling: checks the bearer key, then injected failures, then routes to the list, get and entries handlers.
- The **sync flow** run against that API (`simulateFullSync` and `listAllSchedules`):
  - It lists every schedule by following the page cursor, for at most 100 pages.
  - Then, for each tracked schedule, it fetches the on-call entries and resolves each distinct non-empty user id.
  - A failure in one schedule is recorded in that schedule's result and does not stop the others.
- **Two more pagination servers**, each with the loop that walks it:
  - The fixed server of `qa/sdk_test.go` has three schedules, two per page, and uses the last id of a page as the cursor.
  - The large-list server of `qa/edge_cases_test.go` has 500 generated schedules, 50 per page, and uses the decimal offset as the cursor.

The Dafny project has these modules:

| module | file | what it holds |
|---|---|---|
| `Wrappers` | `wrappers.dfy` | `Option`, `Result` |
| `Text` | `text.dfy` | the pieces of Go's `strconv`/`fmt` the servers use: `Itoa`, `"%d"`, `"%04d"`, `Atoi` with its error dropped, `Sscanf("%d")`, 32- and 64-bit wrap-around |
| `Wire` | `wire.dfy` | records, requests, responses, and how the client reads a response: a 2xx of the expected shape is a value, anything else an `ApiError` |
| `MockUpstream` | `mock_upstream.dfy` | the stateful mock: the class `MockIncidentIO` with map fields and the mutators, and its handlers as functions of the state |
| `Sync` | `sync.dfy` | `listAllSchedules` and `simulateFullSync` as methods with loops, each proved equal to a recursive specification, over an `Api` of three functions |
| `MockSync` | `mock_sync.dfy` | the sync run against the mock: what the functional tests assert, derived from the mock's state |
| `PageWalk` | `page_walk.dfy` | the page-walking loop of the pagination tests, with its page cap |
| `SdkServer` | `sdk_server.dfy` | the fixed server of the SDK tests |
| `LargeList` | `large_list.dfy` | the 500-schedule offset server and its walk |

Three things Go leaves to the runtime are parameters here:

- **Map iteration order.** An `Env` holds the order in which `range` visits the schedules and the users. It must list each key exactly once. Go may pick a new order on every `range`, so each listing request may see the schedules in an order of its own (`MockSync.ListingServed`).
- **Which injected failure wins.** When several failing prefixes match a path, Go's map order decides. `MockUpstream.Responses` is therefore the set of responses `serve` may give.
- **The clock.** The entry timestamps come from a function `at(hours)`, which returns the RFC 3339 text of now plus that many hours.

## Model

| member | source | states |
|---|---|---|
| `Text.Itoa` | qa/functional_test.go:240 | decimal text of a natural number: at least one digit, all digits, no leading zero |
| `Text.FormatInt` | qa/edge_cases_test.go:695 | `"%d"`: starts with `-` exactly for a negative value |
| `Text.DigitsValueItoa` | qa/functional_test.go:240 | reading back the digits `Itoa` writes gives the number |
| `Text.Atoi` | qa/functional_test.go:224 | `v, _ := strconv.Atoi(s)`: always in the int64 range, positive only when `s` does not start with `-`, and the value itself for all-digit text that fits |
| `Text.AtoiOverflow` | qa/functional_test.go:224 | a digit run worth more than 2^64 - 1 gives MaxInt64, or MinInt64 after `-`, whatever text follows it |
| `Text.AtoiTrailingText` | qa/functional_test.go:224 | a number in range followed by a non-digit gives 0 |
| `Text.AtoiItoa` | qa/functional_test.go:224-240 | `Atoi` reads back every cursor `Itoa` writes |
| `Text.ScanDecimal` | qa/edge_cases_test.go:676 | `Sscanf(s, "%d")` stores a value only after an optional sign and a digit; then it stores exactly when the leading digits with their sign fit in an int64, and stores that signed value |
| `Text.ScanDecimalStopsAfterDigits` | qa/edge_cases_test.go:676 | `Sscanf` reads a number in range and ignores the non-digit text after it |
| `Text.ScanDecimalItoa` | qa/edge_cases_test.go:674-677 | `Sscanf` reads back every decimal cursor |
| `Text.Format04` | qa/edge_cases_test.go:687 | `"%04d"`: at least four characters, with `-` first exactly for a negative value |
| `Text.Format04Injective` | qa/edge_cases_test.go:687 | two different indices never print the same `sched-%04d` digits |
| `Text.PaddedValue` | qa/edge_cases_test.go:687 | zero padding keeps the digits' value |
| `Text.WrapInt32` | qa/functional_test.go:122 | `atomic.AddInt32` wraps the value into the 32-bit range, and leaves values in range unchanged |
| `Text.WrapInt32Succ` | qa/functional_test.go:122 | incrementing the wrapped counter is the same as wrapping the incremented count |
| `Text.WrapInt64` | qa/edge_cases_test.go:679 | Go's `int` sum wraps into the 64-bit range, and leaves values in range unchanged |
| `Text.TrimPrefix` | qa/functional_test.go:315 | the prefix and the result rebuild the path when the prefix is there; otherwise the path is unchanged |
| `Wire.QueryGet` | qa/functional_test.go:223 | `Query().Get` gives the value for a present key and `""` for an absent one |
| `Wire.SchedulePageOf` | qa/functional_test.go:443-446 | the client gets a page exactly for a 2xx schedules response, and otherwise an error |
| `Wire.EntriesOf` | qa/functional_test.go:394-406 | the client gets entries exactly for a 2xx entries response, and otherwise an error |
| `Wire.UserOf` | qa/functional_test.go:417-420 | the client gets a user exactly for a 2xx user response, and otherwise an error |
| `Wire.ListSchedulesRequestQuery` | qa/functional_test.go:441-451 | the listing request carries the page size in decimal and the cursor as given |
| `MockUpstream.PageSizeParam` | qa/functional_test.go:209-214 | the page size is 25 unless `page_size` parses to a positive value, which is then used |
| `MockUpstream.StartParam` | qa/functional_test.go:222-227 | the start index is 0 unless `after` parses to a positive value, which is then used |
| `MockUpstream.PageSizeParamItoa` | qa/functional_test.go:209-214 | a positive page size written in decimal is read back unchanged |
| `MockUpstream.StartParamItoa` | qa/functional_test.go:222-227 | a cursor written with `Itoa` is read back as the offset |
| `MockUpstream.PageBounds` | qa/functional_test.go:229-237 | the slice is in range and at most `pageSize` long; it starts at `startIdx` and ends at `min(startIdx + pageSize, len)`; a start past the end gives an empty slice at the end |
| `MockUpstream.PageBoundsInt64` | qa/functional_test.go:229-235 | Go's 64-bit bounds agree with `PageBounds` whenever `startIdx + pageSize` does not overflow |
| `MockUpstream.PageBoundsInt64Overflow` | qa/functional_test.go:229-237 | with `after` = MaxInt64 the 64-bit end wraps below zero and below the start, so the slice expression is out of range |
| `MockUpstream.AllSchedules` | qa/functional_test.go:216-220 | the listing holds every schedule once, in map order |
| `MockUpstream.ListSchedulesResponse` | qa/functional_test.go:205-249 | with the corrected bounds of `PageBounds`, the list handler answers 200 with a schedules page |
| `MockUpstream.ListSchedulesPage` | qa/functional_test.go:205-249 | the page is the slice at the cursor, at most `page_size` long, and `total_record_count` is the number of schedules; the cursor is `Itoa(endIdx)` exactly when schedules remain, and `""` otherwise |
| `MockUpstream.GetScheduleResponse` | qa/functional_test.go:251-267 | a stored schedule is returned as stored; an unknown id gets 404 `Schedule <id> not found` |
| `MockUpstream.GetUserResponse` | qa/functional_test.go:314-330 | a stored user is returned as stored; an unknown id gets 404 `User <id> not found` |
| `MockUpstream.ListUsersResponse` | qa/functional_test.go:332-344 | every user once, in map order, on one page with an empty cursor |
| `MockUpstream.KnownIds` | qa/functional_test.go:294-298 | the on-call ids that name a stored user, in on-call order: the id at each position `KnownPositions` picks, and an id is kept exactly when it is on call and known |
| `MockUpstream.KnownPositions` | qa/functional_test.go:294-298 | the positions of the on-call list whose id names a stored user, in increasing order; a position is picked exactly when its id is known |
| `MockUpstream.EntriesUpTo` | qa/functional_test.go:291-306 | after the loop has seen k on-call ids: one entry per known position among them, in order, carrying the schedule, `entry-<schedule>-<position>` and that user |
| `MockUpstream.OnCallEntries` | qa/functional_test.go:291-306 | the same for the whole on-call list |
| `MockUpstream.EntriesUpToUsers` | qa/functional_test.go:291-306 | one entry per known on-call id, in on-call order, carrying that user and the schedule asked for |
| `MockUpstream.ListEntriesResponse` | qa/functional_test.go:269-277 | an empty `schedule_id` gets 400 `schedule_id is required` |
| `MockUpstream.ListEntriesContents` | qa/functional_test.go:279-312 | a schedule set to fail gets 500; otherwise one entry per known on-call user, in order, with an empty cursor and a count equal to the number of entries |
| `MockUpstream.UnauthorizedFirst` | qa/functional_test.go:148-156 | a header other than `Bearer <key>` gets 401 `Invalid API key`, whatever the path or the injected failures |
| `MockUpstream.Responses` | qa/functional_test.go:144-171 | `serve` always has a response; it is the single 401 exactly when the key is wrong, and with the right key the `Invalid API key` 401 (`Wire.Unauthorized`) is never among them |
| `MockUpstream.InjectedFailure` | qa/functional_test.go:164-167 | a status outside 100-999 makes `WriteHeader` panic and drops the connection; a 1xx other than 101 is sent as an informational header and the envelope goes out under 200; 101, 204 and 304 carry no body; any other status carries the `Simulated failure` envelope |
| `MockUpstream.InjectedFailures` | qa/functional_test.go:161-169 | every failing prefix that matches the path contributes its injected response |
| `MockUpstream.InjectedFailureWins` | qa/functional_test.go:158-171 | with the right key, a path under a failing prefix gets `InjectedFailure` of the status injected for some matching prefix, and is never routed |
| `MockUpstream.RoutedWhenHealthy` | qa/functional_test.go:158-193 | with the right key and no matching failing prefix, the only response is the route's |
| `MockUpstream.Route` | qa/functional_test.go:175-193 | a routed request is always answered, with status 200, 400, 404 or 500 |
| `MockUpstream.RouteByPath` | qa/functional_test.go:175-193 | `/v2/schedules` and `/v2/schedule_entries` reach their list handlers; a path under `/v2/schedules/` or `/v2/users/` reaches the get handler with the rest of the path as the id; any other path gets 404 `Unknown endpoint` |
| `MockUpstream.MockIncidentIO.constructor` | qa/functional_test.go:51-60 | a new mock has the key, empty tables and an empty log |
| `MockUpstream.MockIncidentIO.AddSchedule` | qa/functional_test.go:62-66 | stores the schedule under its id; nothing else changes |
| `MockUpstream.MockIncidentIO.RemoveSchedule` | qa/functional_test.go:68-73 | deletes the schedule and its on-call list; nothing else changes |
| `MockUpstream.MockIncidentIO.RenameSchedule` | qa/functional_test.go:75-82 | changes only the name, and only for an existing id; the ids are unchanged |
| `MockUpstream.MockIncidentIO.AddUser` | qa/functional_test.go:84-88 | stores the user under its id; nothing else changes |
| `MockUpstream.MockIncidentIO.SetOnCall` | qa/functional_test.go:90-94 | replaces the schedule's on-call list; nothing else changes |
| `MockUpstream.MockIncidentIO.ClearOnCall` | qa/functional_test.go:96-100 | sets the on-call list to empty; nothing else changes |
| `MockUpstream.MockIncidentIO.FailSchedule` | qa/functional_test.go:102-106 | sets the schedule's failure flag; nothing else changes |
| `MockUpstream.MockIncidentIO.FailEndpoint` | qa/functional_test.go:108-116 | status 0 removes the prefix and any other status sets it; no other prefix changes |
| `MockUpstream.MockIncidentIO.LogRequest` | qa/functional_test.go:118-123 | appends exactly one `METHOD path` entry and adds 1 to the 32-bit counter; the tables are unchanged |
| `MockUpstream.MockIncidentIO.GetRequestCount` | qa/functional_test.go:125-127 | the counter, which equals the log length while the log has fewer than 2^31 entries |
| `MockUpstream.MockIncidentIO.GetRequestLog` | qa/functional_test.go:129-135 | a copy of the log |
| `MockUpstream.MockIncidentIO.ResetRequestLog` | qa/functional_test.go:137-142 | empties the log and zeroes the counter; the tables are unchanged |
| `MockUpstream.MockIncidentIO.ListEntries` | qa/functional_test.go:291-306 | the handler's loop builds exactly `OnCallEntries` of the current state |
| `MockUpstream.MockIncidentIO.Serve` | qa/functional_test.go:144-195 | logs the request first, then answers with one of the responses `serve` allows; the tables are unchanged |
| `Sync.CursorsRequested` | qa/functional_test.go:441-452 | at most one request per page of fuel, and the first is for the starting cursor |
| `Sync.CollectFirstPage` | qa/functional_test.go:439-454 | no fuel gives no schedules; a failed first page gives its error; a first page with an empty cursor gives just its schedules; a successful listing starts with the first page's schedules |
| `Sync.ListAllSchedules` | qa/functional_test.go:439-454 | the loop returns `CollectPages` from `""` with 100 pages of fuel: the pages' schedules in order up to the first empty cursor, only the error of a failed page, or what 100 pages gathered; it sends exactly `CursorsRequested` |
| `Sync.CursorChain` | qa/functional_test.go:447-451 | each cursor sent after the first is the non-empty cursor of the page before it, which succeeded |
| `Sync.ListingFailsIffAPageFails` | qa/functional_test.go:443-446 | the listing fails exactly when one of the pages it requested failed |
| `Sync.FailedPageIsLast` | qa/functional_test.go:443-446 | a failed listing stops at the failing page and returns that page's error |
| `Sync.SilentTruncation` | qa/functional_test.go:442-453 | against a server that always sends a non-empty cursor, the listing makes exactly 100 requests and returns 100 pages' worth of schedules with no error |
| `Sync.IndexById` | qa/functional_test.go:375-378 | an id is in the index exactly when a listed schedule has it, and maps to a listed schedule with that id |
| `Sync.IndexByIdKeepsLast` | qa/functional_test.go:375-378 | for an id listed more than once, the index holds the last listed schedule with that id |
| `Sync.UserIds` | qa/functional_test.go:411-412 | the entries' user ids, in order |
| `Sync.DistinctNonEmpty` | qa/functional_test.go:409-415 | no duplicates, and an id is kept exactly when it is non-empty and present |
| `Sync.FirstPositions` | qa/functional_test.go:409-415 | the positions holding a non-empty id not seen earlier, in increasing order |
| `Sync.DistinctNonEmptyPositions` | qa/functional_test.go:409-415 | the kept ids are the ids at those first positions, in first-seen order, and nothing else |
| `Sync.Resolve` | qa/functional_test.go:417-425 | one user per successful lookup, in lookup order (the positions `OkPositions` picks); every id whose lookup succeeds has its user in the result, and every user comes from such a lookup |
| `Sync.OkPositions` | qa/functional_test.go:417-425 | the positions whose lookup succeeds, in increasing order; a position is picked exactly when its lookup succeeds |
| `Sync.ResolveAllFound` | qa/functional_test.go:417-425 | when every lookup succeeds, one user per id, in order |
| `Sync.SyncOne` | qa/functional_test.go:381-432 | a schedule missing from the listing gets `ScheduleGone` and no users; a failed entries call gets `EntriesFailed` with its error, the name and no users; otherwise the users resolved from the distinct non-empty entry ids |
| `Sync.SyncAll` | qa/functional_test.go:380-433 | one result per tracked id, in tracked order, each depending on that id alone |
| `Sync.FullSync` | qa/functional_test.go:368-436 | the sync fails exactly when the listing fails; otherwise it gives one result per tracked id with a matching id |
| `Sync.ResolveOnCallUsers` | qa/functional_test.go:408-426 | the loop with its `seen` set computes `Resolve` of the distinct non-empty ids |
| `Sync.IndexSchedules` | qa/functional_test.go:375-378 | the loop builds `IndexById` of the listing |
| `Sync.SyncSchedule` | qa/functional_test.go:381-432 | the loop body computes `SyncOne` |
| `Sync.SimulateFullSync` | qa/functional_test.go:368-436 | the whole loop computes `FullSync` |
| `Sync.ScheduleIsolation` | qa/functional_test.go:380-433 | a schedule's result does not depend on the other schedules' entry calls |
| `Sync.ResolvedUsersBound` | qa/functional_test.go:408-426 | a schedule never has more resolved users than distinct non-empty entry ids, and has exactly that many when every lookup succeeds |
| `Sync.NoCrossScheduleDedup` | qa/functional_test.go:382-432 | a user on call in two synced schedules, whose lookup succeeds, appears in the results of both: the `seen` set is per schedule |
| `PageWalk.WalkFrom` | qa/edge_cases_test.go:711-731 | a failed first page fails the walk as page `pages + 1`; a first page with an empty cursor ends it with that page's schedules; a finished walk starts with the first page's schedules; the walk gives up only at cap + 1 pages |
| `PageWalk.WalkPages` | qa/edge_cases_test.go:711-731 | the walker loop computes `WalkFrom` from the empty cursor |
| `PageWalk.WalkBounded` | qa/edge_cases_test.go:715-731 | a walk fetches at most cap + 1 pages, and gives up only at exactly cap + 1 |
| `PageWalk.WalkAgreesWithListing` | qa/edge_cases_test.go:715-731 | a walk that finishes returns what `listAllSchedules` returns with enough pages of fuel |
| `PageWalk.WalkFailsOnlyOnAFailedPage` | qa/edge_cases_test.go:716-719 | a walk fails on page k exactly with the error of the listing cut at k pages |
| `PageWalk.WalkDetectsCursorLoop` | qa/edge_cases_test.go:726-730 | against a repeated non-empty cursor the walker stops at cap + 1 pages, where the listing truncates silently |
| `MockSync.MockListCall` | qa/functional_test.go:205-249 | with no failure injected on the list, the client reads the handler's page for some order of the schedule map |
| `MockSync.StableListCall` | qa/functional_test.go:205-249 | when every listing request sees env's one order, the client reads the handler's page in that order |
| `MockSync.OffsetQuery` | qa/functional_test.go:209-227 | the handler reads back the sync's page size 250 and the offset it sent |
| `MockSync.OffsetResponse` | qa/functional_test.go:229-241 | the handler's page for offset k is the offset page of the listing in map order |
| `MockSync.MockSchedulePage` | qa/functional_test.go:205-249 | when every listing request sees one order, a listing call gives the 250 schedules from the offset on, and the next offset when schedules remain |
| `MockSync.CollectFromOffset` | qa/functional_test.go:439-454 | from offset k with n pages left, the listing returns the schedules from k up to k + 250n |
| `MockSync.MockListingComplete` | qa/functional_test.go:439-454 | when every listing request sees the same order, as the sorted list of line 215 would give, the listing returns every schedule in that order when there are at most 25000, and silently only the first 25000 otherwise |
| `MockSync.MockSinglePage` | qa/functional_test.go:216-249 | with at most 250 schedules the first page holds them all, so the listing returns every schedule once, in the order that request saw |
| `MockSync.EntriesDecoded` | qa/functional_test.go:269-312 | the client reads 400 for an empty id, 500 for a failing schedule, and otherwise the on-call entries |
| `MockSync.MockEntries` | qa/functional_test.go:269-312 | the same, through `serve` with the right key and no failure injected on the entries |
| `MockSync.MockUser` | qa/functional_test.go:314-330 | a user lookup gives the stored user, or 404 naming the id |
| `MockSync.ExpectedUsers` | qa/functional_test.go:408-426 | a schedule never syncs more users than its on-call list holds |
| `MockSync.EntryIdsAreKnownIds` | qa/functional_test.go:291-306 | when each key names its own record, the entries' user ids are the known on-call ids |
| `MockSync.IndexMatchesMock` | qa/functional_test.go:375-378 | the index built from the full listing holds exactly the mock's schedules |
| `MockSync.MockResolved` | qa/functional_test.go:408-426 | resolving a schedule's known on-call ids against the mock gives its expected users |
| `MockSync.MockSyncOne` | qa/functional_test.go:381-432 | a tracked schedule fails exactly when it is gone, has an empty id or is set to fail; otherwise it gets its known on-call users, each once |
| `MockSync.MockIndexed` | qa/functional_test.go:370-378 | against a healthy mock whose listing fits (at most 250 schedules, or at most 25000 listed in one order), the sync lists everything and its index is the mock's table |
| `MockSync.MockFullSync` | qa/functional_test.go:368-436 | a full sync against a healthy mock whose listing fits succeeds, and gives each tracked schedule the result `MockSyncOne` describes |
| `MockSync.MockListingDown` | qa/functional_test.go:158-171 | a failure injected on the schedule list fails the whole sync with the client's reading of `InjectedFailure` of the status of some matching prefix; when every such status is a final one with a body, the error is `Simulated failure` with one of them |
| `MockSync.MockWrongKey` | qa/functional_test.go:148-156 | a client with the wrong key fails the sync with 401 `Invalid API key` |
| `MockSync.ReorderedPagesLoseSchedule` | qa/functional_test.go:216-241 | with 251 to 500 schedules, an answer that cuts the second page from the order rotated by one is one the mock may give, and the sync then reports the 251st schedule of the first order as gone although the mock holds it |
| `SdkServer.FirstIndexOf` | qa/sdk_test.go:90-97 | the first index whose id is the cursor, or none when no schedule has it |
| `SdkServer.StartAfter` | qa/sdk_test.go:89-97 | the start never passes the end of the list |
| `SdkServer.FindStart` | qa/sdk_test.go:89-97 | the search loop computes `StartAfter`: one past the named schedule, and 0 for an empty or unknown cursor |
| `SdkServer.PageEnd` | qa/sdk_test.go:99-102 | the end never passes the end of the list |
| `SdkServer.SchedulesPage` | qa/sdk_test.go:79-118 | 200 with the schedules from one past the cursor's schedule to `PageEnd`, page size 2, total 3, and a next cursor exactly when schedules remain |
| `SdkServer.ServeSchedulesPage` | qa/sdk_test.go:79-118 | the handler with its loop computes `SchedulesPage` |
| `SdkServer.SchedulesPageContents` | qa/sdk_test.go:79-118 | at most 2 schedules from the cursor on, and `total_record_count` 3; the next cursor is the page's last id exactly when more remain, and resumes where the page ended |
| `SdkServer.CatalogueIdsDistinct` | qa/sdk_test.go:83-87 | the three listed ids are distinct |
| `SdkServer.SdkWalkCollectsAll` | qa/sdk_test.go:359-395 | walking from `""` with the cap of 10 yields the three schedules once each, in order, in two pages |
| `SdkServer.SdkListPage` | qa/sdk_test.go:79-118 | the walker's client reads the list handler's page |
| `SdkServer.ListedSchedulePage` | qa/sdk_test.go:79-82 | with the valid key, any requested page size reaches the same handler |
| `SdkServer.WithAuth` | qa/sdk_test.go:28-42 | the wrapped handler's response exactly for the header `Bearer test-api-key-valid`, and 401 `Invalid API key` otherwise |
| `SdkServer.Handle` | qa/sdk_test.go:23-240 | an unregistered path gets the mux's 404; a registered path with another header gets 401; with the valid key the list, entries and users paths reach their handlers |
| `SdkServer.AuthGuardsEveryRoute` | qa/sdk_test.go:28-42 | every registered route answers 401 unless the header is exactly `Bearer test-api-key-valid`; an unregistered path gets the mux's 404 |
| `SdkServer.ScheduleByIdRoutes` | qa/sdk_test.go:55-56 | `/v2/schedules/<id>` reaches the schedule lookup with that id |
| `SdkServer.UserByIdRoutes` | qa/sdk_test.go:195-196 | `/v2/users/<id>` reaches the user lookup with that id |
| `SdkServer.GetByIdRoutes` | qa/sdk_test.go:55-77 | both lookups by id are routed with the rest of the path as the id |
| `SdkServer.TablesAgree` | qa/sdk_test.go:61-65 | the lookup table and the list hold the same three schedules, each under its own id |
| `SdkServer.GetSchedule` | qa/sdk_test.go:55-77 | an empty id gets the mux's 404, a known id 200 and its record, and an unknown id 404 with an error envelope |
| `SdkServer.GetUser` | qa/sdk_test.go:195-221 | an empty id gets the mux's 404, a known id 200 and its record, and an unknown id 404 with an error envelope |
| `SdkServer.ListEntries` | qa/sdk_test.go:121-192 | 400 exactly for an empty id, 404 exactly for `sched-nonexistent`, and otherwise 200 with the fixed entries on one page |
| `SdkServer.ListUsers` | qa/sdk_test.go:223-237 | 200 with exactly the table's users that have an email, and no cursor |
| `SdkServer.GetScheduleOutcome` | qa/sdk_test.go:55-77 | an empty id gets not-found, an unknown id 404 `Schedule <id> not found`, and a known id its listed record |
| `SdkServer.EntriesOutcome` | qa/sdk_test.go:121-192 | an empty id gets 400 and `sched-nonexistent` 404; `sched-001` has Alice then Bob, `sched-002` has Carol, and any other id has none, each entry belonging to the schedule and naming a table user |
| `SdkServer.ListedUsersHaveEmail` | qa/sdk_test.go:195-237 | the user list is exactly the table's users with an email, and get still returns `user-noemail` |
| `LargeList.ScheduleAt` | qa/edge_cases_test.go:686-690 | timezone `UTC` and an id of `sched-` followed by at least four characters; `-` follows `sched-` exactly for a negative index |
| `LargeList.ScheduleIdDigits` | qa/edge_cases_test.go:687 | for a non-negative index the characters after `sched-` are all digits and read back the index |
| `LargeList.Generated` | qa/edge_cases_test.go:685-691 | 500 schedules, the i-th being `sched-%04d`, `Schedule %d`, `UTC` of i |
| `LargeList.StartIndex` | qa/edge_cases_test.go:674-677 | the start index is always in the int64 range |
| `LargeList.EndIndex` | qa/edge_cases_test.go:679-682 | never above 500; `min(start + 50, 500)` when the sum fits in an int64, and otherwise the wrapped, negative sum |
| `LargeList.IndexRange` | qa/edge_cases_test.go:684-691 | the schedules for indices start to end - 1, in order; empty when end ≤ start |
| `LargeList.LargePage` | qa/edge_cases_test.go:667-706 | 401 and no body without the valid header; with it, the connection drops exactly when 500 < start <= MaxInt64 - 50, where the capacity is negative; otherwise 200 with the schedules for start up to the end index, total 500, and a cursor exactly when the end is below 500 |
| `LargeList.LargeUnauthorized` | qa/edge_cases_test.go:668-672 | without the valid bearer header: 401 and no page |
| `LargeList.CursorStart` | qa/edge_cases_test.go:674-677 | the handler reads back the start index from every cursor the walker sends |
| `LargeList.HandlerPage` | qa/edge_cases_test.go:674-705 | from a start in [0, 500] the handler serves indices up to min(start + 50, 500), with the decimal end as the cursor while indices remain |
| `LargeList.LargePageContents` | qa/edge_cases_test.go:674-705 | the client reads that page as the matching slice of the 500 generated schedules |
| `LargeList.IndexRangeIsSlice` | qa/edge_cases_test.go:684-691 | the appended schedules are that slice of the generated list |
| `LargeList.LargeListServesOffsets` | qa/edge_cases_test.go:674-705 | every cursor the walker can send is answered with its expected page |
| `LargeList.LargeCursorPastEnd` | qa/edge_cases_test.go:679-684 | a cursor past 500 makes the capacity `endIdx - startIdx` negative, so `make` panics and the connection drops |
| `LargeList.WalkFromOffset` | qa/edge_cases_test.go:715-731 | from the page at 50j the walker collects the rest of the schedules and ends after page 10 |
| `LargeList.LargeWalkCollectsAll` | qa/edge_cases_test.go:711-736 | from `""` the walker collects all 500 schedules, in order, in 10 pages, without reaching the cap of 100 |
| `LargeList.GeneratedIdsDistinct` | qa/edge_cases_test.go:687 | the 500 ids are pairwise distinct, so the walk returns 500 different schedules |

## Left out

- The incident.io SDK client is not part of this model. Only its reading of a response is modelled: a 2xx of the expected shape is a value, and anything else an `ApiError` with the status. Not modelled:
  - retries on 429 and `Retry-After`;
  - parsing of error envelopes and message truncation;
  - path escaping and body size caps;
  - the `APIError` helpers.
- `Wire.UserOf`, `Wire.EntriesOf`, `Wire.SchedulePageOf`: a non-2xx error keeps only its status, type and message. The client's wrapping of the error is not modelled.
- The sync's errors are values (`ScheduleGone`, `EntriesFailed`, or the listing's `ApiError`). Go's wrapped text (`failed to list schedules: %w`, `schedule %s no longer exists`, `failed to get entries: %w`) is not modelled.
- Concurrency is not modelled: the mock's `sync.RWMutex` and atomics, and the concurrent-sync tests. The mock is single-threaded state.
- Map iteration order is the `Env` parameter, and each listing request may use an order of its own. The model does not choose an order and does not sort.
- The clock is a parameter: the entries' `start_at` and `end_at` come from `at(hours)`. The sync's entry window is passed through as two strings and never read by a server.
- HTTP, JSON and `httptest` are not modelled. The model does not capture:
  - ServeMux path cleaning and redirects;
  - header canonicalisation;
  - query escaping;
  - JSON field types.
- Two handler panics are modelled as a dropped connection (`Dropped`): `make` with a negative capacity in the large-list handler (`LargeList.LargePage`), and `WriteHeader` with an injected status outside 100-999 (`MockUpstream.InjectedFailure`).
- `MockUpstream.ListSchedulesResponse` uses the corrected bounds of `PageBounds`. Go panics and drops the connection whenever the clamped `startIdx + pageSize` exceeds MaxInt64, for example for `after=9223372036854775807`, or for `page_size=9223372036854775807` with any positive `after`. That case is modelled separately (`MockUpstream.PageBoundsInt64Overflow`, first Findings row).
- `MockSync.MockListingDown`: for an injected 2xx status, or a 1xx sent under 200, the error follows the client reading of `Wire.SchedulePageOf`, where a 2xx body of the wrong shape is an error. The SDK's lenient JSON decoding of such a body is not modelled.
- `Text.ScanDecimal` does not skip leading white space, as `Sscanf` does. The walker never sends any.
- `MockUpstream.MockIncidentIO.Serve` picks one of the allowed responses. The model does not say which matching failure prefix Go's map order picks first.
- The identity handlers are modelled as fixed responses (`MockUpstream.IdentityResponse`, `SdkServer.Identity`), with no property beyond their contents.
- The rate limiter, identity resolution and the reconciler that turns sync results into group memberships are not part of this model.
- `listAllSchedules` raises no error when a listing needs more than 100 pages; it returns what 100 pages gathered (`Sync.SilentTruncation`).

## Findings

| source | as written | input that shows it | evidently intended | confidence | as-written member | corrected member |
|---|---|---|---|---|---|---|
| qa/functional_test.go:224-237 | `endIdx := startIdx + pageSize` is computed in 64-bit `int` after `startIdx` takes any positive `Atoi` value, which is clamped to MaxInt64 on overflow. The sum wraps to a negative number, escapes the `endIdx > len(all)` clamp, and `all[startIdx:endIdx]` panics | `GET /v2/schedules?after=9223372036854775807` with the right key (default page size 25) | a start past the end gives an empty last page, as any other start past the end does | not executed | `MockUpstream.PageBoundsInt64Overflow` | `MockUpstream.PageBounds` |
| qa/functional_test.go:215-241 | the comment says "Build sorted list", but the list is rebuilt on every request by ranging over the schedule map, whose order Go may change on every range, and pages are cut from it by offset | 251 to 500 schedules, where the second listing request sees the map order rotated by one: it repeats the first schedule and skips the 251st, and the sync reports that schedule as gone | one sorted order for every request, so the offset pages tile the list | not executed | `MockSync.ReorderedPagesLoseSchedule` | `MockSync.MockListingComplete` |
