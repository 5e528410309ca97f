/** The product detail page: load one product, delete it after confirmation, and leave for its orders. */
module ProductDetailPage {
  import opened Wrappers
  import opened ApiClient
  import opened Entities
  import opened PageCommon

  const LoadFallback := "상품 정보를 불러오지 못했습니다."
  const DeleteFallback := "상품 삭제에 실패했습니다."

  class ProductDetailView {
    const productId: int
    var product: Option<ProductDetail>
    var loading: bool
    var errorMessage: Option<string>

    constructor (productId: int)
      ensures this.productId == productId && product == None && loading && errorMessage == None
    {
      this.productId := productId;
      product := None;
      loading := true;
      errorMessage := None;
    }

    method StartLoad() returns (request: Request)
      modifies this
      ensures request == GetProduct(productId)
      ensures loading && errorMessage == None && product == old(product)
      ensures OrdersDisabled()
    {
      loading := true;
      errorMessage := None;
      request := GetProduct(productId);
    }

    method SettleLoad(reply: Reply<ProductDetail>)
      modifies this
      ensures !loading
      ensures reply.Resolved? ==> product == Some(reply.value) && errorMessage == old(errorMessage)
      ensures reply.Rejected? ==> product == old(product)
      ensures reply.Rejected? ==> errorMessage == Some(CaughtMessage(reply.thrown, LoadFallback))
      // the orders button is enabled once a product has arrived, and stays disabled after a failure before any did
      ensures !OrdersDisabled() <==> product.Some?
    {
      match reply {
        case Resolved(value) =>
          product := Some(value);
        case Rejected(thrown) =>
          errorMessage := Some(CaughtMessage(thrown, LoadFallback));
      }
      loading := false;
    }

    /**
     * `handleDelete` up to its await: a declined confirmation sends nothing and
     * changes nothing; otherwise the error is cleared and the delete is sent.
     */
    method BeginDelete(confirmed: bool) returns (request: Option<Request>)
      modifies this
      ensures !confirmed ==> request == None && errorMessage == old(errorMessage)
      ensures confirmed ==> request == Some(DeleteProduct(productId)) && errorMessage == None
      ensures product == old(product) && loading == old(loading)
    {
      if !confirmed {
        return None;
      }
      errorMessage := None;
      request := Some(DeleteProduct(productId));
    }

    /** The delete settled: success calls `onDeleted` once (`leave`); failure sets the message and stays. */
    method DeleteReplied(reply: Reply<()>) returns (leave: bool)
      modifies this
      ensures leave <==> reply.Resolved?
      ensures reply.Resolved? ==> errorMessage == old(errorMessage)
      ensures reply.Rejected? ==> errorMessage == Some(CaughtMessage(reply.thrown, DeleteFallback))
      ensures product == old(product) && loading == old(loading)
    {
      match reply {
        case Resolved(_) =>
          leave := true;
        case Rejected(thrown) =>
          errorMessage := Some(CaughtMessage(thrown, DeleteFallback));
          leave := false;
      }
    }

    /** `disabled={loading || !product}` on the orders button. */
    predicate OrdersDisabled()
      reads this
      ensures loading ==> OrdersDisabled()
      ensures product.None? ==> OrdersDisabled()
      ensures !loading && product.Some? ==> !OrdersDisabled()
    {
      loading || product.None?
    }

    /** `createdAtText` */
    function CreatedAt(): (text: DateText)
      reads this
      ensures product.None? ==> text == Dash
    {
      CreatedAtText(if product.Some? then Some(product.value.createdAt) else None)
    }
  }
}
