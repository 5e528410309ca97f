/**
 * The numbered pagination bar and the card grid shared by the orders,
 * roulette-history and users list pages: a window of at most five page
 * buttons around the current page, first/last shortcuts, Prev/Next, and a
 * 3 x 4 grid padded with empty slots.
 */
module Pagination {
  import opened Wrappers
  import opened Entities

  const MaxPageButtons := 5
  /** `Math.floor(MAX_PAGE_BUTTONS / 2)` */
  const Half := MaxPageButtons / 2
  const Cols := 3
  const Rows := 4

  function Max(a: int, b: int): int { if a < b then b else a }
  function Min(a: int, b: int): int { if a < b then a else b }

  /** The consecutive integers lo, lo+1, ..., hi (empty when hi < lo). */
  function Range(lo: int, hi: int): (r: seq<int>)
    ensures |r| == Max(0, hi - lo + 1)
    ensures forall k :: 0 <= k < |r| ==> r[k] == lo + k
  {
    if hi < lo then [] else seq(hi - lo + 1, k => lo + k)
  }

  /** First and last page index of the window, exactly as the list pages compute them. */
  function WindowStart(currentPage: int, totalPages: int): (start: int) {
    var start := Max(0, currentPage - Half);
    var end := Min(totalPages - 1, start + (MaxPageButtons - 1));
    Max(0, end - (MaxPageButtons - 1))
  }

  function WindowEnd(currentPage: int, totalPages: int): (end: int) {
    var start := Max(0, currentPage - Half);
    Min(totalPages - 1, start + (MaxPageButtons - 1))
  }

  /**
   * The page indices shown as numbered buttons for a loaded page whose
   * server-reported `number` is `currentPage`: min(5, totalPages) consecutive
   * ascending indices, all valid, containing the current page when it is valid.
   */
  function Window(currentPage: int, totalPages: int): (w: seq<int>)
    ensures totalPages <= 0 ==> w == []
    ensures totalPages > 0 ==> |w| == Min(MaxPageButtons, totalPages)
    ensures forall k :: 0 <= k < |w| ==> 0 <= w[k] < totalPages
    ensures forall k :: 0 < k < |w| ==> w[k] == w[k - 1] + 1
    ensures 0 <= currentPage < totalPages ==> currentPage in w
  {
    if totalPages <= 0 then []
    else
      var w := Range(WindowStart(currentPage, totalPages), WindowEnd(currentPage, totalPages));
      assert 0 <= currentPage < totalPages ==> w[currentPage - WindowStart(currentPage, totalPages)] == currentPage;
      w
  }

  /**
   * The `pageNumbers` memo: no window without page information, otherwise the
   * window around the server-reported page, built by the source's loop.
   */
  method PageNumbers(pageInfo: Option<PageInfo>, page: int) returns (arr: seq<int>)
    ensures pageInfo.None? ==> arr == []
    ensures pageInfo.Some? ==> arr == Window(pageInfo.value.number, pageInfo.value.totalPages)
  {
    var totalPages := if pageInfo.Some? then pageInfo.value.totalPages else 0;
    var currentPage := if pageInfo.Some? then pageInfo.value.number else page;
    if pageInfo.None? || totalPages <= 0 {
      return [];
    }
    var half := MaxPageButtons / 2;
    var start := Max(0, currentPage - half);
    var end := Min(totalPages - 1, start + (MaxPageButtons - 1));
    start := Max(0, end - (MaxPageButtons - 1));
    arr := [];
    var i := start;
    while i <= end
      invariant start <= i <= end + 1
      invariant |arr| == i - start
      invariant forall k :: 0 <= k < |arr| ==> arr[k] == start + k
    {
      arr := arr + [i];
      i := i + 1;
    }
    assert arr == Window(currentPage, totalPages);
  }

  /** The window is the unique run of its length whose first index is `currentPage - 2` clamped into the valid starts. */
  lemma WindowIsClampedRun(currentPage: int, totalPages: int)
    requires totalPages > 0
    ensures var w := Window(currentPage, totalPages);
            var lastStart := Max(0, totalPages - MaxPageButtons);
            w[0] == Min(Max(currentPage - Half, 0), lastStart)
            && w == Range(w[0], w[0] + Min(MaxPageButtons, totalPages) - 1)
  {
    var w := Window(currentPage, totalPages);
    assert w == Range(WindowStart(currentPage, totalPages), WindowEnd(currentPage, totalPages));
    assert w[0] == WindowStart(currentPage, totalPages);
  }

  /** With two pages of room on each side, the current page sits in the middle of the window. */
  lemma WindowCenteredWhenRoom(currentPage: int, totalPages: int)
    requires Half <= currentPage && currentPage + Half < totalPages
    ensures var w := Window(currentPage, totalPages);
            |w| == MaxPageButtons && w[Half] == currentPage
  {
    var w := Window(currentPage, totalPages);
    assert w == Range(WindowStart(currentPage, totalPages), WindowEnd(currentPage, totalPages));
  }

  /** `pageNumbers.length > 0 && pageNumbers[0] > 0`: the "1 …" shortcut. */
  predicate ShowsFirstShortcut(w: seq<int>) {
    |w| > 0 && w[0] > 0
  }

  /** `pageNumbers.length > 0 && pageNumbers[last] < totalPages - 1`: the "… N" shortcut. */
  predicate ShowsLastShortcut(w: seq<int>, totalPages: int) {
    |w| > 0 && w[|w| - 1] < totalPages - 1
  }

  /**
   * The "1 …" shortcut appears exactly when the window leaves out page 0,
   * which happens exactly when there are more than five pages and the current
   * page is past the third.
   */
  lemma FirstShortcutIff(currentPage: int, totalPages: int)
    requires totalPages > 0
    ensures var w := Window(currentPage, totalPages);
            && (ShowsFirstShortcut(w) <==> 0 !in w)
            && (ShowsFirstShortcut(w) <==> totalPages > MaxPageButtons && currentPage > Half)
  {
    var w := Window(currentPage, totalPages);
    assert w == Range(WindowStart(currentPage, totalPages), WindowEnd(currentPage, totalPages));
    if 0 in w {
      var k :| 0 <= k < |w| && w[k] == 0;
      assert w[0] <= w[k];
    }
  }

  /**
   * The "… N" shortcut appears exactly when the window leaves out the last
   * page, which happens exactly when there are more than five pages and the
   * current page is more than two before the last.
   */
  lemma LastShortcutIff(currentPage: int, totalPages: int)
    requires totalPages > 0
    ensures var w := Window(currentPage, totalPages);
            && (ShowsLastShortcut(w, totalPages) <==> totalPages - 1 !in w)
            && (ShowsLastShortcut(w, totalPages) <==> totalPages > MaxPageButtons && currentPage + Half < totalPages - 1)
  {
    var w := Window(currentPage, totalPages);
    assert w == Range(WindowStart(currentPage, totalPages), WindowEnd(currentPage, totalPages));
    if totalPages - 1 in w {
      var k :| 0 <= k < |w| && w[k] == totalPages - 1;
      assert w[k] <= w[|w| - 1];
    }
  }

  /** With at most five pages every page has its own button and no shortcut is shown. */
  lemma FewPagesAllShown(currentPage: int, totalPages: int)
    requires 0 < totalPages <= MaxPageButtons
    ensures Window(currentPage, totalPages) == Range(0, totalPages - 1)
    ensures !ShowsFirstShortcut(Window(currentPage, totalPages))
    ensures !ShowsLastShortcut(Window(currentPage, totalPages), totalPages)
  {
    var w := Window(currentPage, totalPages);
    assert w == Range(WindowStart(currentPage, totalPages), WindowEnd(currentPage, totalPages));
  }

  /** `disabled={currentPage <= 0}` on Prev. */
  predicate PrevDisabled(currentPage: int) {
    currentPage <= 0
  }

  /** `disabled={currentPage + 1 >= totalPages}` on Next. */
  predicate NextDisabled(currentPage: int, totalPages: int) {
    currentPage + 1 >= totalPages
  }

  /** `setPage((prev) => Math.max(0, prev - 1))` */
  function PrevPage(page: nat): nat {
    Max(0, page - 1)
  }

  /** `setPage((prev) => prev + 1)` */
  function NextPage(page: nat): nat {
    page + 1
  }

  /**
   * When the requested page is the one the server reports and that page is
   * valid: Prev is disabled exactly on the first page and Next exactly on the
   * last, and an enabled Prev or Next requests the neighbouring valid page.
   */
  lemma PrevNextStayInRange(page: nat, totalPages: int)
    requires page < totalPages
    ensures PrevDisabled(page) <==> page == 0
    ensures NextDisabled(page, totalPages) <==> page == totalPages - 1
    ensures !PrevDisabled(page) ==> PrevPage(page) == page - 1 && PrevPage(page) < totalPages
    ensures !NextDisabled(page, totalPages) ==> NextPage(page) == page + 1 && NextPage(page) < totalPages
  {
  }

  /**
   * The `gridItems` memo: exactly Cols * Rows slots, holding the first items
   * in order and then empty slots.
   */
  method GridItems<T>(items: seq<T>) returns (padded: seq<Option<T>>)
    ensures |padded| == Cols * Rows
    ensures forall i :: 0 <= i < |padded| ==>
              padded[i] == if i < |items| then Some(items[i]) else None
  {
    var need := Cols * Rows;
    var kept := Min(need, |items|);
    padded := seq(kept, i requires 0 <= i < kept => Some(items[i]));
    while |padded| < need
      invariant kept <= |padded| <= need
      invariant forall i :: 0 <= i < |padded| ==>
                  padded[i] == if i < |items| then Some(items[i]) else None
    {
      padded := padded + [None];
    }
  }
}
