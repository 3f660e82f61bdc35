/**
  The page-walking loop the pagination tests run against a server: request a
  page, append its schedules, stop on an empty cursor, otherwise send the
  cursor back, and give up once more than cap pages have been fetched.
*/
module PageWalk {
  import opened Wrappers
  import opened Wire
  import opened Sync

  /** How a walk ends: with everything collected, on a failed page (numbered from 1), or past the cap. */
  datatype WalkOutcome =
    | Walked(items: seq<Schedule>, pages: nat)
    | PageFailed(page: nat, error: ApiError)
    | TooManyPages(pages: nat)

  function PrependItems(items: seq<Schedule>, w: WalkOutcome): WalkOutcome {
    match w
    case Walked(rest, n) => Walked(items + rest, n)
    case _ => w
  }

  /**
    The walk from cursor after pages pages have been fetched. Only the items
    still to come are in the outcome; the page counts are absolute.
  */
  function WalkFrom(list: Lister, cursor: string, pages: nat, cap: nat): (w: WalkOutcome)
    requires pages <= cap
    ensures list(cursor).Err? ==> w == PageFailed(pages + 1, list(cursor).error)
    ensures list(cursor).Ok? && list(cursor).value.after == "" ==> w == Walked(list(cursor).value.items, pages + 1)
    ensures list(cursor).Ok? && w.Walked? ==> list(cursor).value.items <= w.items
    ensures w.TooManyPages? ==> w.pages == cap + 1
    decreases cap - pages
  {
    match list(cursor)
    case Err(e) => PageFailed(pages + 1, e)
    case Ok(p) =>
      if p.after == "" then Walked(p.items, pages + 1)
      else if pages + 1 > cap then TooManyPages(pages + 1)
      else PrependItems(p.items, WalkFrom(list, p.after, pages + 1, cap))
  }

  /** The walker loop of the pagination tests, from the empty cursor. */
  method WalkPages(list: Lister, cap: nat) returns (outcome: WalkOutcome)
    ensures outcome == WalkFrom(list, "", 0, cap)
  {
    var all: seq<Schedule> := [];
    var after := "";
    var pages := 0;
    while true
      invariant pages <= cap
      invariant PrependItems(all, WalkFrom(list, after, pages, cap)) == WalkFrom(list, "", 0, cap)
      decreases cap - pages
    {
      var resp := list(after);
      if resp.Err? {
        return PageFailed(pages + 1, resp.error);
      }
      ghost var rest := WalkFrom(list, after, pages, cap);
      all := all + resp.value.items;
      pages := pages + 1;
      if resp.value.after == "" {
        return Walked(all, pages);
      }
      after := resp.value.after;
      if pages > cap {
        return TooManyPages(pages);
      }
      assert PrependItems(all, WalkFrom(list, after, pages, cap)) == PrependItems(all[..|all| - |resp.value.items|], rest) by {
        assert all[..|all| - |resp.value.items|] + resp.value.items == all;
        PrependAssoc(all[..|all| - |resp.value.items|], resp.value.items, WalkFrom(list, after, pages, cap));
      }
    }
  }

  lemma PrependAssoc(xs: seq<Schedule>, ys: seq<Schedule>, w: WalkOutcome)
    ensures PrependItems(xs, PrependItems(ys, w)) == PrependItems(xs + ys, w)
  {
    if w.Walked? {
      assert xs + (ys + w.items) == (xs + ys) + w.items;
    }
  }

  /** A walk never fetches more than cap + 1 pages, and gives up only at exactly cap + 1. */
  lemma {:induction false} WalkBounded(list: Lister, cursor: string, pages: nat, cap: nat)
    requires pages <= cap
    ensures var w := WalkFrom(list, cursor, pages, cap);
            && (w.Walked? ==> pages < w.pages <= cap + 1)
            && (w.PageFailed? ==> pages < w.page <= cap + 1)
            && (w.TooManyPages? ==> w.pages == cap + 1)
    decreases cap - pages
  {
    match list(cursor)
    case Err(_) =>
    case Ok(p) =>
      if p.after != "" && pages + 1 <= cap {
        WalkBounded(list, p.after, pages + 1, cap);
      }
  }

  /**
    The walker and listAllSchedules agree on every walk that finishes: given
    at least as many pages of fuel as the walk fetched, the listing returns
    the same schedules in the same order.
  */
  lemma {:induction false} WalkAgreesWithListing(list: Lister, cursor: string, pages: nat, cap: nat, fuel: nat)
    requires pages <= cap
    requires WalkFrom(list, cursor, pages, cap).Walked?
    requires fuel >= WalkFrom(list, cursor, pages, cap).pages - pages
    ensures CollectPages(list, cursor, fuel) == Ok(WalkFrom(list, cursor, pages, cap).items)
    decreases cap - pages
  {
    WalkBounded(list, cursor, pages, cap);
    var p := list(cursor).value;
    if p.after != "" {
      WalkBounded(list, p.after, pages + 1, cap);
      WalkAgreesWithListing(list, p.after, pages + 1, cap, fuel - 1);
    }
  }

  /** A failed page stops the walk with that page's error. */
  lemma {:induction false} WalkFailsOnlyOnAFailedPage(list: Lister, cursor: string, pages: nat, cap: nat)
    requires pages <= cap
    requires WalkFrom(list, cursor, pages, cap).PageFailed?
    ensures var w := WalkFrom(list, cursor, pages, cap);
            w.page > pages && CollectPages(list, cursor, w.page - pages) == Err(w.error)
    decreases cap - pages
  {
    WalkBounded(list, cursor, pages, cap);
    if list(cursor).Ok? {
      var p := list(cursor).value;
      WalkBounded(list, p.after, pages + 1, cap);
      WalkFailsOnlyOnAFailedPage(list, p.after, pages + 1, cap);
    }
  }

  /**
    Against a server that always repeats a non-empty cursor the walker gives
    up after cap + 1 pages, where listAllSchedules stops without an error.
  */
  lemma {:induction false} WalkDetectsCursorLoop(list: Lister, p: Page<Schedule>, cursor: string, pages: nat, cap: nat)
    requires pages <= cap && p.after != ""
    requires forall c :: list(c) == Ok(p)
    ensures WalkFrom(list, cursor, pages, cap) == TooManyPages(cap + 1)
    decreases cap - pages
  {
    if pages + 1 <= cap {
      WalkDetectsCursorLoop(list, p, p.after, pages + 1, cap);
    }
  }
}
