/** The order detail page: load one order, and cancel it after confirmation, then refetch it. */
module OrderDetailPage {
  import opened Wrappers
  import opened ApiClient
  import opened Entities
  import opened PageCommon
  import StatusLabels

  const LoadFallback := "주문 정보를 불러오지 못했습니다."
  const CancelFallback := "주문 취소에 실패했습니다."

  class OrderDetailView {
    const orderId: int
    var order: Option<OrderDetail>
    var loading: bool
    var errorMessage: Option<string>
    var canceling: bool

    constructor (orderId: int)
      ensures this.orderId == orderId && order == None && loading && errorMessage == None && !canceling
    {
      this.orderId := orderId;
      order := None;
      loading := true;
      errorMessage := None;
      canceling := false;
    }

    method StartLoad() returns (request: Request)
      modifies this
      ensures request == GetOrder(orderId)
      ensures loading && errorMessage == None && order == old(order) && canceling == old(canceling)
    {
      loading := true;
      errorMessage := None;
      request := GetOrder(orderId);
    }

    method SettleLoad(reply: Reply<OrderDetail>)
      modifies this
      ensures !loading && canceling == old(canceling)
      ensures reply.Resolved? ==> order == Some(reply.value) && errorMessage == old(errorMessage)
      ensures reply.Rejected? ==> order == old(order)
      ensures reply.Rejected? ==> errorMessage == Some(CaughtMessage(reply.thrown, LoadFallback))
    {
      match reply {
        case Resolved(value) =>
          order := Some(value);
        case Rejected(thrown) =>
          errorMessage := Some(CaughtMessage(thrown, LoadFallback));
      }
      loading := false;
    }

    /**
     * `handleCancel` up to its first await: a declined confirmation sends
     * nothing; otherwise `canceling` goes on and the cancel is sent. Unlike the
     * load, an earlier error message is not cleared.
     */
    method BeginCancel(confirmed: bool) returns (request: Option<Request>)
      modifies this
      ensures !confirmed ==> request == None && canceling == old(canceling)
      ensures confirmed ==> request == Some(CancelOrder(orderId)) && CancelDisabled()
      ensures order == old(order) && loading == old(loading) && errorMessage == old(errorMessage)
    {
      if !confirmed {
        return None;
      }
      canceling := true;
      request := Some(CancelOrder(orderId));
    }

    /** The cancel settled: success refetches the same order; failure sets the message and ends the cancel. */
    method CancelReplied(reply: Reply<()>) returns (refetch: Option<Request>)
      modifies this
      ensures reply.Resolved? ==> refetch == Some(GetOrder(orderId)) && canceling == old(canceling)
      ensures reply.Resolved? ==> errorMessage == old(errorMessage)
      ensures reply.Rejected? ==> refetch == None && !CancelDisabled()
      ensures reply.Rejected? ==> errorMessage == Some(CaughtMessage(reply.thrown, CancelFallback))
      ensures order == old(order) && loading == old(loading)
    {
      match reply {
        case Resolved(_) =>
          refetch := Some(GetOrder(orderId));
        case Rejected(thrown) =>
          errorMessage := Some(CaughtMessage(thrown, CancelFallback));
          canceling := false;
          refetch := None;
      }
    }

    /** The refetch settled: the server's copy replaces the order, or the message is set and the order kept. */
    method RefetchReplied(reply: Reply<OrderDetail>)
      modifies this
      ensures !CancelDisabled() && loading == old(loading)
      ensures reply.Resolved? ==> order == Some(reply.value) && errorMessage == old(errorMessage)
      ensures reply.Rejected? ==> order == old(order)
      ensures reply.Rejected? ==> errorMessage == Some(CaughtMessage(reply.thrown, CancelFallback))
    {
      match reply {
        case Resolved(value) =>
          order := Some(value);
        case Rejected(thrown) =>
          errorMessage := Some(CaughtMessage(thrown, CancelFallback));
      }
      canceling := false;
    }

    /** The cancel button is disabled while a cancel runs. */
    predicate CancelDisabled()
      reads this
      ensures CancelDisabled() <==> canceling
    {
      canceling
    }

    /** `createdAtText` */
    function CreatedAt(): (text: DateText)
      reads this
      ensures order.None? ==> text == Dash
    {
      CreatedAtText(if order.Some? then order.value.createdAt else None)
    }

    /** The status line of a loaded order. */
    function StatusText(): (text: string)
      reads this
      requires order.Some?
      ensures text == order.value.status <==> !StatusLabels.IsKnownOrderStatus(order.value.status)
      ensures !StatusLabels.IsKnownOrderStatus(text)
    {
      StatusLabels.OrderStatusTextPassesThroughOnlyUnknown(order.value.status);
      StatusLabels.OrderStatusText(order.value.status)
    }
  }
}
