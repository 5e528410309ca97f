/**
 * The participants page of one roulette day: a paged list of point records
 * with a confirm-gated reclaim action per record that refreshes the list.
 */
module ParticipantsPage {
  import opened Wrappers
  import opened ApiClient
  import opened Entities
  import opened PageCommon
  import Pagination

  /** `DEFAULT_SIZE` of this page. */
  const DefaultSize := 10
  const LoadFallback := "참여자 데이터를 불러오지 못했습니다."
  const ReclaimFallback := "포인트 회수에 실패했습니다."

  class ParticipantsView {
    const rouletteDate: string
    var page: nat
    var data: Option<PageData<PointRecord>>
    var loading: bool
    var errorMessage: Option<string>
    /** The record whose reclaim is in flight, if any. */
    var reclaimingId: Option<int>

    constructor (rouletteDate: string)
      ensures this.rouletteDate == rouletteDate && page == 0 && data == None
      ensures loading && errorMessage == None && reclaimingId == None
    {
      this.rouletteDate := rouletteDate;
      page := 0;
      data := None;
      loading := true;
      errorMessage := None;
      reclaimingId := None;
    }

    /** The request for the page in view, used by the load effect and by `refresh` alike. */
    function CurrentRequest(): Request
      reads this
    {
      GetPointRecordsByDate(rouletteDate, page, DefaultSize)
    }

    /** The load effect's first steps. */
    method StartLoad() returns (request: Request)
      modifies this
      ensures request == CurrentRequest()
      ensures loading && errorMessage == None
      ensures page == old(page) && data == old(data) && reclaimingId == old(reclaimingId)
    {
      loading := true;
      errorMessage := None;
      request := CurrentRequest();
    }

    /** The load effect once its request settles. */
    method SettleLoad(reply: Reply<PageData<PointRecord>>)
      modifies this
      ensures !loading && page == old(page) && reclaimingId == old(reclaimingId)
      ensures reply.Resolved? ==> data == Some(reply.value) && errorMessage == old(errorMessage)
      ensures reply.Rejected? ==> data == old(data)
      ensures reply.Rejected? ==> errorMessage == Some(CaughtMessage(reply.thrown, LoadFallback))
    {
      match reply {
        case Resolved(value) =>
          data := Some(value);
        case Rejected(thrown) =>
          errorMessage := Some(CaughtMessage(thrown, LoadFallback));
      }
      loading := false;
    }

    /**
     * `handleReclaim(pointId)` up to its first await: a declined confirmation
     * sends nothing and changes nothing; otherwise the record is marked in
     * flight and the reclaim is sent.
     */
    method BeginReclaim(pointId: int, confirmed: bool) returns (request: Option<Request>)
      modifies this
      ensures !confirmed ==> request == None && reclaimingId == old(reclaimingId)
      ensures confirmed ==> request == Some(ReclaimPoint(pointId)) && reclaimingId == Some(pointId)
      // only the button of the record in flight is disabled
      ensures confirmed ==> forall id :: ReclaimDisabled(id) <==> id == pointId
      ensures page == old(page) && data == old(data) && loading == old(loading) && errorMessage == old(errorMessage)
    {
      if !confirmed {
        return None;
      }
      reclaimingId := Some(pointId);
      request := Some(ReclaimPoint(pointId));
    }

    /**
     * The reclaim settled: on success `refresh` asks for the same day and page
     * again (the record stays in flight); on failure the message is set, the
     * data kept and the in-flight mark cleared.
     */
    method ReclaimReplied(reply: Reply<()>) returns (refresh: Option<Request>)
      modifies this
      ensures reply.Resolved? ==> refresh == Some(CurrentRequest()) && reclaimingId == old(reclaimingId)
      ensures reply.Resolved? ==> errorMessage == old(errorMessage)
      ensures reply.Rejected? ==> refresh == None && forall id :: !ReclaimDisabled(id)
      ensures reply.Rejected? ==> errorMessage == Some(CaughtMessage(reply.thrown, ReclaimFallback))
      ensures page == old(page) && data == old(data) && loading == old(loading)
    {
      match reply {
        case Resolved(_) =>
          refresh := Some(CurrentRequest());
        case Rejected(thrown) =>
          errorMessage := Some(CaughtMessage(thrown, ReclaimFallback));
          reclaimingId := None;
          refresh := None;
      }
    }

    /**
     * The refresh settled: the new page replaces the data wholesale, or the
     * reclaim's failure message is set and the data kept; the in-flight mark
     * is cleared either way. `loading` is never touched by a reclaim.
     */
    method RefreshReplied(reply: Reply<PageData<PointRecord>>)
      modifies this
      ensures (forall id :: !ReclaimDisabled(id)) && page == old(page) && loading == old(loading)
      ensures reply.Resolved? ==> data == Some(reply.value) && errorMessage == old(errorMessage)
      ensures reply.Rejected? ==> data == old(data)
      ensures reply.Rejected? ==> errorMessage == Some(CaughtMessage(reply.thrown, ReclaimFallback))
    {
      match reply {
        case Resolved(value) =>
          data := Some(value);
        case Rejected(thrown) =>
          errorMessage := Some(CaughtMessage(thrown, ReclaimFallback));
      }
      reclaimingId := None;
    }

    /** Only the button of the record being reclaimed is disabled. */
    predicate ReclaimDisabled(recordId: int)
      reads this
      ensures ReclaimDisabled(recordId) ==> reclaimingId == Some(recordId)
      ensures reclaimingId.None? ==> !ReclaimDisabled(recordId)
    {
      reclaimingId == Some(recordId)
    }

    /** `pageInfo && pageInfo.totalPages > 1` */
    predicate BarVisible()
      reads this
      ensures BarVisible() ==> data.Some? && data.value.page.totalPages >= 2
      // a shown bar on a valid page always has Prev or Next enabled
      ensures BarVisible() && 0 <= data.value.page.number < data.value.page.totalPages ==>
                !Pagination.PrevDisabled(data.value.page.number)
                || !Pagination.NextDisabled(data.value.page.number, data.value.page.totalPages)
    {
      data.Some? && data.value.page.totalPages > 1
    }

    /** Prev, enabled when the server-reported page is past the first: clamps at 0. */
    method ClickPrev() returns (reload: bool)
      requires BarVisible() && !Pagination.PrevDisabled(data.value.page.number)
      modifies this
      ensures page == Pagination.PrevPage(old(page)) && reload == (page != old(page))
      ensures data == old(data) && loading == old(loading) && errorMessage == old(errorMessage)
      ensures reclaimingId == old(reclaimingId)
    {
      var p := Pagination.PrevPage(page);
      reload := p != page;
      page := p;
    }

    /** Next, enabled before the last page. */
    method ClickNext() returns (reload: bool)
      requires BarVisible() && !Pagination.NextDisabled(data.value.page.number, data.value.page.totalPages)
      modifies this
      ensures page == old(page) + 1 && reload
      ensures data == old(data) && loading == old(loading) && errorMessage == old(errorMessage)
      ensures reclaimingId == old(reclaimingId)
    {
      page := Pagination.NextPage(page);
      reload := true;
    }
  }
}
