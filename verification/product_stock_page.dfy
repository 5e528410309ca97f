/** The stock adjustment form: load the current stock, check the delta, send it. */
module ProductStockPage {
  import opened Wrappers
  import opened ApiClient
  import opened Entities
  import opened PageCommon

  const LoadFallback := "상품 정보를 불러오지 못했습니다."
  const DeltaIsZero := "재고 증감 값은 0이 될 수 없습니다."
  const StockFallback := "재고 수정에 실패했습니다."

  /**
   * The delta check: `Number(delta)` must be finite and non-zero; negative
   * deltas pass and are sent unchanged as `increaseStock`.
   */
  function ValidateDelta(delta: Option<real>): (r: Result<real, string>)
    ensures r.Success? <==> delta.Some? && delta.value != 0.0
    ensures r.Success? ==> r.value == delta.value
    ensures r.Failure? ==> r.error == DeltaIsZero
  {
    if delta.None? || delta.value == 0.0 then Failure(DeltaIsZero) else Success(delta.value)
  }

  class ProductStockView {
    const productId: int
    var currentStock: Option<int>
    /** `Number(delta)` of the delta field. */
    var delta: Option<real>
    var loading: bool
    var saving: bool
    var errorMessage: Option<string>

    /** The empty delta field reads as `Number('') == 0`, which the check rejects. */
    constructor (productId: int)
      ensures this.productId == productId && currentStock == None && delta == Some(0.0)
      ensures loading && !saving && errorMessage == None
      ensures ValidateDelta(delta).Failure?
    {
      this.productId := productId;
      currentStock := None;
      delta := Some(0.0);
      loading := true;
      saving := false;
      errorMessage := None;
    }

    method StartLoad() returns (request: Request)
      modifies this
      ensures request == GetProduct(productId)
      ensures loading && errorMessage == None
      ensures currentStock == old(currentStock) && delta == old(delta) && saving == old(saving)
    {
      loading := true;
      errorMessage := None;
      request := GetProduct(productId);
    }

    /** The load settled: the product's stock becomes the current stock, or the message is set. */
    method SettleLoad(reply: Reply<ProductDetail>)
      modifies this
      ensures !loading && delta == old(delta) && saving == old(saving)
      ensures reply.Resolved? ==> currentStock == Some(reply.value.stockQuantity) && errorMessage == old(errorMessage)
      ensures reply.Rejected? ==> currentStock == old(currentStock)
      ensures reply.Rejected? ==> errorMessage == Some(CaughtMessage(reply.thrown, LoadFallback))
    {
      match reply {
        case Resolved(product) =>
          currentStock := Some(product.stockQuantity);
        case Rejected(thrown) =>
          errorMessage := Some(CaughtMessage(thrown, LoadFallback));
      }
      loading := false;
    }

    /** `handleSubmit` up to its await. */
    method Submit() returns (request: Option<Request>)
      modifies this
      ensures var check := ValidateDelta(old(delta));
              && (check.Failure? ==> request == None && errorMessage == Some(DeltaIsZero) && saving == old(saving))
              && (check.Success? ==> request == Some(UpdateProductStock(productId, old(delta).value)) && errorMessage == None && saving)
      ensures currentStock == old(currentStock) && delta == old(delta) && loading == old(loading)
    {
      var check := ValidateDelta(delta);
      if check.Failure? {
        errorMessage := Some(check.error);
        return None;
      }
      saving := true;
      errorMessage := None;
      request := Some(UpdateProductStock(productId, check.value));
    }

    /** The stock update settled: success calls `onBack` (`leave`); failure shows the message and stays. */
    method SubmitReplied(reply: Reply<()>) returns (leave: bool)
      modifies this
      ensures !saving && (leave <==> reply.Resolved?)
      ensures reply.Resolved? ==> errorMessage == old(errorMessage)
      ensures reply.Rejected? ==> errorMessage == Some(CaughtMessage(reply.thrown, StockFallback))
      ensures currentStock == old(currentStock) && delta == old(delta) && loading == old(loading)
    {
      match reply {
        case Resolved(_) =>
          leave := true;
        case Rejected(thrown) =>
          errorMessage := Some(CaughtMessage(thrown, StockFallback));
          leave := false;
      }
      saving := false;
    }
  }
}
