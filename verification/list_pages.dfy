/**
 * The three card-grid list pages (orders of a product, roulette history,
 * users). They hold the same state and run the same load cycle; they differ
 * only in the resource they fetch, the fallback error text and whether a
 * single page already shows the pagination bar.
 */
module ListPages {
  import opened Wrappers
  import opened ApiClient
  import opened Entities
  import opened PageCommon
  import Pagination

  /** `DEFAULT_SIZE` of all three pages. */
  const DefaultSize := 12

  datatype ListKind = ProductOrders(productId: int) | RouletteHistory | Users

  /** The request each page issues for a page index. */
  function PageRequest(kind: ListKind, page: nat): (request: Request) {
    match kind
    case ProductOrders(productId) => GetOrdersByProduct(productId, page, DefaultSize)
    case RouletteHistory => GetRouletteHistory(page, DefaultSize)
    case Users => GetUsers(page, DefaultSize)
  }

  /** The text shown when the load throws something that is not an Error. */
  function LoadFallback(kind: ListKind): (message: string) {
    match kind
    case ProductOrders(_) => "주문 내역을 불러오지 못했습니다."
    case RouletteHistory => "룰렛 이력을 불러오지 못했습니다."
    case Users => "사용자 데이터를 불러오지 못했습니다."
  }

  /** The orders page shows the bar from two pages on (`totalPages > 1`), the other two from one (`totalPages > 0`). */
  function BarMinPages(kind: ListKind): (minPages: int) {
    if kind.ProductOrders? then 2 else 1
  }

  /**
   * One list page. The item type `T` is fixed by the caller together with
   * the kind: order items for `ProductOrders`, history items for
   * `RouletteHistory`, user items for `Users`.
   */
  class PagedListView<T> {
    const kind: ListKind
    /** The locally requested page (`page` state). */
    var page: nat
    var data: Option<PageData<T>>
    var loading: bool
    var errorMessage: Option<string>

    /** Mounting: page 0, nothing loaded, `loading` already true before the first fetch. */
    constructor (kind: ListKind)
      ensures this.kind == kind && page == 0 && data == None && loading && errorMessage == None
      // before the first reply the displayed page is the requested one, and no button or bar is shown
      ensures CurrentPage() == 0 && Window() == [] && !BarVisible() && Items() == []
    {
      this.kind := kind;
      page := 0;
      data := None;
      loading := true;
      errorMessage := None;
    }

    /** `data?.page` */
    function PageInfoOf(): Option<PageInfo>
      reads this
    {
      if data.Some? then Some(data.value.page) else None
    }

    /** `pageInfo?.totalPages ?? 0` */
    function TotalPages(): int
      reads this
    {
      if data.Some? then data.value.page.totalPages else 0
    }

    /** The displayed current page: the server's `page.number` once data is loaded, otherwise the requested page. */
    function CurrentPage(): (current: int)
      reads this
      ensures data.None? ==> current == page
      ensures PageInfoOf().Some? ==> current == PageInfoOf().value.number
    {
      if data.Some? then data.value.page.number else page
    }

    /** `data?.content ?? []` */
    function Items(): seq<T>
      reads this
    {
      if data.Some? then data.value.content else []
    }

    /** The numbered buttons. */
    function Window(): seq<int>
      reads this
    {
      if data.Some? then Pagination.Window(CurrentPage(), TotalPages()) else []
    }

    /** `pageInfo && totalPages > 1` on the orders page, `pageInfo && totalPages > 0` on the others. */
    predicate BarVisible()
      reads this
      ensures kind.ProductOrders? ==> (BarVisible() <==> PageInfoOf().Some? && TotalPages() > 1)
      ensures !kind.ProductOrders? ==> (BarVisible() <==> PageInfoOf().Some? && TotalPages() > 0)
      // on the orders page a shown bar on a valid page always has Prev or Next enabled
      ensures kind.ProductOrders? && BarVisible() && 0 <= CurrentPage() < TotalPages() ==>
                !Pagination.PrevDisabled(CurrentPage()) || !Pagination.NextDisabled(CurrentPage(), TotalPages())
    {
      data.Some? && TotalPages() >= BarMinPages(kind)
    }

    /** The effect's first steps: loading on, error cleared, then the request for the requested page. */
    method StartLoad() returns (request: Request)
      modifies this
      ensures request == PageRequest(kind, page)
      ensures loading && errorMessage == None
      ensures page == old(page) && data == old(data)
    {
      loading := true;
      errorMessage := None;
      request := PageRequest(kind, page);
    }

    /**
     * The effect once the request settles: the page replaces the data
     * wholesale, or a failure sets the message and keeps the last data;
     * `loading` is off either way.
     */
    method SettleLoad(reply: Reply<PageData<T>>)
      modifies this
      ensures !loading && page == old(page)
      ensures reply.Resolved? ==> data == Some(reply.value) && errorMessage == old(errorMessage)
      ensures reply.Resolved? ==> CurrentPage() == reply.value.page.number && Items() == reply.value.content
      ensures reply.Rejected? ==> data == old(data)
      ensures reply.Rejected? ==> errorMessage == Some(CaughtMessage(reply.thrown, LoadFallback(kind)))
    {
      match reply {
        case Resolved(value) =>
          data := Some(value);
        case Rejected(thrown) =>
          errorMessage := Some(CaughtMessage(thrown, LoadFallback(kind)));
      }
      loading := false;
    }

    /** The `pageNumbers` memo of this page. */
    method PageNumbers() returns (numbers: seq<int>)
      ensures numbers == Window()
    {
      numbers := Pagination.PageNumbers(PageInfoOf(), page);
    }

    /** The `gridItems` memo of this page: 12 slots, the loaded items first. */
    method GridItems() returns (grid: seq<Option<T>>)
      ensures |grid| == Pagination.Cols * Pagination.Rows
      ensures forall i :: 0 <= i < |grid| ==> grid[i] == if i < |Items()| then Some(Items()[i]) else None
    {
      grid := Pagination.GridItems(Items());
    }

    /**
     * `setPage(p)`: the load effect runs again only when the page actually
     * changes (`reload`).
     */
    method SetPage(p: nat) returns (reload: bool)
      modifies this
      ensures page == p && reload == (p != old(page))
      ensures data == old(data) && loading == old(loading) && errorMessage == old(errorMessage)
    {
      reload := p != page;
      page := p;
    }

    /** Prev, enabled only when the displayed page is past the first: clamps at page 0. */
    method ClickPrev() returns (reload: bool)
      requires BarVisible() && !Pagination.PrevDisabled(CurrentPage())
      modifies this
      ensures page == Pagination.PrevPage(old(page)) && reload == (page != old(page))
      ensures data == old(data) && loading == old(loading) && errorMessage == old(errorMessage)
    {
      reload := SetPage(Pagination.PrevPage(page));
    }

    /** Next, enabled only before the last page. */
    method ClickNext() returns (reload: bool)
      requires BarVisible() && !Pagination.NextDisabled(CurrentPage(), TotalPages())
      modifies this
      ensures page == old(page) + 1 && reload
      ensures data == old(data) && loading == old(loading) && errorMessage == old(errorMessage)
    {
      reload := SetPage(Pagination.NextPage(page));
    }

    /** A numbered button; the active one (the current page) is disabled. */
    method ClickNumber(p: int) returns (reload: bool)
      requires BarVisible() && p in Window() && p != CurrentPage()
      modifies this
      ensures page == p && 0 <= p < old(TotalPages()) && reload == (p != old(page))
      ensures data == old(data) && loading == old(loading) && errorMessage == old(errorMessage)
    {
      reload := SetPage(p);
    }

    /** The "1" shortcut, shown when the window leaves out page 0. */
    method ClickFirst() returns (reload: bool)
      requires BarVisible() && Pagination.ShowsFirstShortcut(Window())
      modifies this
      ensures page == 0 && reload == (old(page) != 0)
      ensures data == old(data) && loading == old(loading) && errorMessage == old(errorMessage)
    {
      reload := SetPage(0);
    }

    /** The last-page shortcut, shown when the window leaves out the last page. */
    method ClickLast() returns (reload: bool)
      requires BarVisible() && Pagination.ShowsLastShortcut(Window(), TotalPages())
      modifies this
      ensures page == TotalPages() - 1 && reload == (page != old(page))
      ensures data == old(data) && loading == old(loading) && errorMessage == old(errorMessage)
    {
      reload := SetPage(TotalPages() - 1);
    }
  }

  /**
   * With exactly one page of results the bar (and with it Prev and Next) is
   * shown on the history and users pages but not on the orders page; when it
   * is shown for a single valid page, both Prev and Next are disabled.
   */
  lemma SinglePageBar<T>(view: PagedListView<T>)
    requires view.data.Some? && view.TotalPages() == 1
    ensures view.BarVisible() <==> !view.kind.ProductOrders?
    ensures view.CurrentPage() == 0 ==>
              Pagination.PrevDisabled(view.CurrentPage()) && Pagination.NextDisabled(view.CurrentPage(), view.TotalPages())
  {
  }
}
