/**
  The offset-cursor server of the large-list edge test: 500 generated
  schedules served 50 at a time, the cursor being the decimal index where the
  next page starts, and the same walker loop collecting them.
*/
module LargeList {
  import opened Wrappers
  import opened Text
  import opened Wire
  import opened Sync
  import opened PageWalk
  import SdkServer

  const TotalSchedules := 500
  const LargePageSize := 50

  /** The schedule the handler writes for index i: "sched-%04d", "Schedule %d", UTC. */
  function ScheduleAt(i: int): (s: Schedule)
    ensures s.timezone == "UTC" && |s.id| >= 10 && s.id[..6] == "sched-"
    ensures i < 0 <==> s.id[6] == '-'
  {
    assert ("sched-" + Format04(i))[6..] == Format04(i);
    Schedule("sched-" + Format04(i), "Schedule " + FormatInt(i), "UTC")
  }

  /** The digits of a non-negative index's id read back the index. */
  lemma ScheduleIdDigits(i: int)
    requires 0 <= i
    ensures AllDigits(ScheduleAt(i).id[6..]) && DigitsValue(ScheduleAt(i).id[6..]) == i
  {
    PaddedValue(i, 4);
    assert ScheduleAt(i).id[6..] == Format04(i);
  }

  /** The 500 schedules in index order. */
  function Generated(): (all: seq<Schedule>)
    ensures |all| == TotalSchedules
    ensures forall i :: 0 <= i < TotalSchedules ==> all[i] == ScheduleAt(i)
  {
    seq(TotalSchedules, i requires 0 <= i < TotalSchedules => ScheduleAt(i))
  }

  /** startIdx: 0 unless the cursor is present and Sscanf "%d" reads a value from it. */
  function StartIndex(after: string): (start: int)
    ensures MinInt64 <= start <= MaxInt64
  {
    if after == "" then 0
    else match ScanDecimal(after)
      case Some(v) => v
      case None => 0
  }

  /** endIdx as Go computes it: startIdx + 50 in 64-bit arithmetic, then capped at 500. */
  function EndIndex(start: int): (e: int)
    requires MinInt64 <= start <= MaxInt64
    ensures e <= TotalSchedules
    ensures start <= MaxInt64 - LargePageSize ==> e == if start + LargePageSize > TotalSchedules then TotalSchedules else start + LargePageSize
    ensures MaxInt64 - LargePageSize < start ==> e == start + LargePageSize - 0x1_0000_0000_0000_0000 && e < 0
  {
    var e := WrapInt64(start + LargePageSize);
    if e > TotalSchedules then TotalSchedules else e
  }

  /** The schedules for the indices start, start + 1, ..., end - 1. */
  function IndexRange(start: int, end: int): (items: seq<Schedule>)
    ensures |items| == if end <= start then 0 else end - start
    ensures forall k :: 0 <= k < |items| ==> items[k] == ScheduleAt(start + k)
  {
    if end <= start then [] else seq(end - start, k requires 0 <= k < end - start => ScheduleAt(start + k))
  }

  /**
    The handler: 401 with no body without the valid bearer header; a dropped
    connection when the slice capacity endIdx - startIdx is negative (make
    panics); otherwise the page and, while indices remain, the decimal end
    index as the next cursor.
  */
  function LargePage(req: Request): (r: Response)
    ensures req.authorization != Bearer(SdkServer.ValidApiKey) ==> r == Response(401, NoBody)
    ensures req.authorization == Bearer(SdkServer.ValidApiKey) ==>
              var start := StartIndex(QueryGet(req.query, "after"));
              && (r.Dropped? <==> TotalSchedules < start <= MaxInt64 - LargePageSize)
              && (r.Response? ==>
                    && r.status == 200 && r.body.SchedulesBody?
                    && r.body.schedulePage.items == IndexRange(start, EndIndex(start))
                    && r.body.schedulePage.totalRecordCount == TotalSchedules
                    && (r.body.schedulePage.after == "" <==> EndIndex(start) == TotalSchedules))
  {
    if req.authorization != Bearer(SdkServer.ValidApiKey) then Response(401, NoBody)
    else
      var start := StartIndex(QueryGet(req.query, "after"));
      var end := EndIndex(start);
      if WrapInt64(end - start) < 0 then Dropped
      else
        var cursor := if end < TotalSchedules then FormatInt(end) else "";
        Response(200, SchedulesBody(Page(IndexRange(start, end), cursor, LargePageSize, TotalSchedules)))
  }

  /** A request without the valid bearer header gets 401 and no page. */
  lemma LargeUnauthorized(req: Request)
    requires req.authorization != Bearer(SdkServer.ValidApiKey)
    ensures LargePage(req) == Response(401, NoBody)
    ensures SchedulePageOf(LargePage(req)) == Err(ApiError(401, "", ""))
  {
  }

  /** The client's listing with the test's page size, for the walker. */
  function LargeList(c: string): Result<Page<Schedule>, ApiError> {
    SchedulePageOf(LargePage(ListSchedulesRequest(SdkServer.ValidApiKey, LargePageSize, c)))
  }

  /** The cursor that asks for the page starting at k. */
  function CursorAt(k: nat): string {
    if k == 0 then "" else Itoa(k)
  }

  /** The handler reads back the start index from every cursor the walker sends. */
  lemma CursorStart(k: nat)
    requires k <= TotalSchedules
    ensures StartIndex(QueryGet(ListSchedulesRequest(SdkServer.ValidApiKey, LargePageSize, CursorAt(k)).query, "after")) == k
  {
    ListSchedulesRequestQuery(SdkServer.ValidApiKey, LargePageSize, CursorAt(k));
    if k > 0 {
      ScanDecimalItoa(k);
    }
  }

  /** From a start index in [0, 500] the handler serves the indices up to min(start + 50, 500). */
  lemma HandlerPage(k: nat)
    requires k <= TotalSchedules
    ensures var e := if k + LargePageSize > TotalSchedules then TotalSchedules else k + LargePageSize;
            LargePage(ListSchedulesRequest(SdkServer.ValidApiKey, LargePageSize, CursorAt(k)))
              == Response(200, SchedulesBody(Page(IndexRange(k, e), if e < TotalSchedules then FormatInt(e) else "", LargePageSize, TotalSchedules)))
  {
    CursorStart(k);
  }

  /** The end index of the page that starts at k, for k in [0, 500]. */
  function PageEnd(k: nat): nat {
    if k + LargePageSize > TotalSchedules then TotalSchedules else k + LargePageSize
  }

  /** The page the walker expects from the cursor for k: the next 50 schedules, and the cursor for the end unless it is 500. */
  function ExpectedPage(all: seq<Schedule>, k: nat): Page<Schedule>
    requires |all| == TotalSchedules && k <= TotalSchedules
  {
    Page(all[k..PageEnd(k)], if PageEnd(k) < TotalSchedules then Itoa(PageEnd(k)) else "", LargePageSize, TotalSchedules)
  }

  /** A lister that answers every walker cursor with the expected page of all. */
  ghost predicate ServesOffsets(list: Lister, all: seq<Schedule>)
    requires |all| == TotalSchedules
  {
    forall k: nat :: k <= TotalSchedules ==> list(CursorAt(k)) == Ok(ExpectedPage(all, k))
  }

  /**
    For a start index in [0, 500], the page holds the schedules from start
    up to min(start + 50, 500), and the cursor is the decimal end index
    exactly when schedules remain.
  */
  lemma LargePageContents(k: nat)
    requires k <= TotalSchedules
    ensures LargeList(CursorAt(k)) == Ok(ExpectedPage(Generated(), k))
  {
    HandlerPage(k);
    IndexRangeIsSlice(k, PageEnd(k));
  }

  /** The schedules the handler loop appends for the indices [i, j) are that slice of the generated list. */
  lemma IndexRangeIsSlice(i: nat, j: nat)
    requires i <= j <= TotalSchedules
    ensures IndexRange(i, j) == Generated()[i..j]
  {
  }

  /** The handler answers every cursor the walker can send with the expected page. */
  lemma LargeListServesOffsets()
    ensures ServesOffsets(LargeList, Generated())
  {
    forall k: nat | k <= TotalSchedules
      ensures LargeList(CursorAt(k)) == Ok(ExpectedPage(Generated(), k))
    {
      LargePageContents(k);
    }
  }

  /** A readable cursor past the end that does not overflow the sum makes the handler panic. */
  lemma LargeCursorPastEnd(n: nat)
    requires TotalSchedules < n <= MaxInt64 - LargePageSize
    ensures LargePage(ListSchedulesRequest(SdkServer.ValidApiKey, LargePageSize, Itoa(n))) == Dropped
  {
    ListSchedulesRequestQuery(SdkServer.ValidApiKey, LargePageSize, Itoa(n));
    ScanDecimalItoa(n);
  }

  /** One page of a walk that continues: its schedules come before the rest of the walk. */
  lemma WalkStep(list: Lister, cursor: string, pages: nat, cap: nat, p: Page<Schedule>)
    requires pages < cap && list(cursor) == Ok(p) && p.after != ""
    ensures WalkFrom(list, cursor, pages, cap) == PrependItems(p.items, WalkFrom(list, p.after, pages + 1, cap))
  {
  }

  /** A page before the last: its schedules, then the walk from the next offset. */
  lemma OffsetStep(list: Lister, all: seq<Schedule>, j: nat)
    requires |all| == TotalSchedules && ServesOffsets(list, all)
    requires j + 1 < TotalSchedules / LargePageSize
    ensures WalkFrom(list, CursorAt(LargePageSize * j), j, 100)
              == PrependItems(all[LargePageSize * j..LargePageSize * (j + 1)], WalkFrom(list, CursorAt(LargePageSize * (j + 1)), j + 1, 100))
  {
    var k := LargePageSize * j;
    var p := ExpectedPage(all, k);
    assert list(CursorAt(k)) == Ok(p);
    assert p.after == Itoa(k + LargePageSize) == CursorAt(LargePageSize * (j + 1));
    WalkStep(list, CursorAt(k), j, 100, p);
  }

  /** The tenth page is the last: its cursor is empty. */
  lemma OffsetLast(list: Lister, all: seq<Schedule>)
    requires |all| == TotalSchedules && ServesOffsets(list, all)
    ensures WalkFrom(list, CursorAt(450), 9, 100) == Walked(all[450..], 10)
  {
    assert list(CursorAt(450)) == Ok(ExpectedPage(all, 450));
  }

  /** From the page starting at 50 * j the walker collects the rest of the schedules, ending after page 10. */
  lemma {:induction false} WalkFromOffset(list: Lister, all: seq<Schedule>, j: nat)
    requires |all| == TotalSchedules && ServesOffsets(list, all)
    requires j < TotalSchedules / LargePageSize
    ensures WalkFrom(list, CursorAt(LargePageSize * j), j, 100) == Walked(all[LargePageSize * j..], 10)
    decreases TotalSchedules / LargePageSize - j
  {
    if j + 1 < TotalSchedules / LargePageSize {
      OffsetStep(list, all, j);
      WalkFromOffset(list, all, j + 1);
      var k := LargePageSize * j;
      assert all[k..k + LargePageSize] + all[k + LargePageSize..] == all[k..];
    } else {
      OffsetLast(list, all);
    }
  }

  /** From the empty cursor the walker collects all 500 schedules, in index order, in 10 pages, within the cap of 100. */
  lemma LargeWalkCollectsAll()
    ensures WalkFrom(LargeList, "", 0, 100) == Walked(Generated(), 10)
  {
    LargeListServesOffsets();
    WalkFromOffset(LargeList, Generated(), 0);
    assert Generated()[0..] == Generated();
  }

  /** The 500 generated ids are pairwise distinct, since each id's digits read back its index, so the walk returns 500 different schedules. */
  lemma GeneratedIdsDistinct()
    ensures forall i, j :: 0 <= i < j < TotalSchedules ==> Generated()[i].id != Generated()[j].id
  {
    forall i, j | 0 <= i < j < TotalSchedules
      ensures Generated()[i].id != Generated()[j].id
    {
      ScheduleIdDigits(i);
      ScheduleIdDigits(j);
    }
  }
}
