/** The product edit form: load the product into the form, check name then price, send the update. */
module ProductEditPage {
  import opened Wrappers
  import opened ApiClient
  import opened Entities
  import opened PageCommon
  import opened JsText
  import ProductCreatePage

  const LoadFallback := "상품 정보를 불러오지 못했습니다."
  const UpdateFallback := "상품 수정에 실패했습니다."

  /**
   * The guard chain of the edit form: a blank name is reported before the
   * price; a valid form yields the trimmed name and the parsed price.
   */
  function ValidateEdit(name: string, price: Option<real>): (r: Result<UpdateProductReq, string>)
    ensures r.Success? <==> Trim(name) != "" && ProductCreatePage.AtLeastOne(price)
    ensures Trim(name) == "" ==> r == Failure(ProductCreatePage.NameRequired)
    ensures Trim(name) != "" && !ProductCreatePage.AtLeastOne(price) ==> r == Failure(ProductCreatePage.PriceTooLow)
    ensures r.Success? ==> r.value == UpdateProductReq(Trim(name), price.value)
    ensures r.Success? ==> r.value.name != "" && IsTrimmed(r.value.name)
  {
    var trimmed := Trim(name);
    if trimmed == "" then Failure(ProductCreatePage.NameRequired)
    else if !ProductCreatePage.AtLeastOne(price) then Failure(ProductCreatePage.PriceTooLow)
    else Success(UpdateProductReq(trimmed, price.value))
  }

  /** The edit form accepts exactly what the create form accepts for the same name and price, whatever the stock. */
  lemma EditAgreesWithCreate(name: string, price: Option<real>, stock: Option<real>)
    requires ProductCreatePage.AtLeastOne(stock)
    ensures ValidateEdit(name, price).Success? <==> ProductCreatePage.ValidateCreate(name, price, stock).Success?
    ensures ValidateEdit(name, price).Failure? ==>
              ValidateEdit(name, price).error == ProductCreatePage.ValidateCreate(name, price, stock).error
  {
  }

  class ProductEditView {
    const productId: int
    var name: string
    /** `Number(price)` of the price field. */
    var price: Option<real>
    var loading: bool
    var saving: bool
    var errorMessage: Option<string>

    constructor (productId: int)
      ensures this.productId == productId && name == "" && price == Some(0.0)
      ensures loading && !saving && errorMessage == None
    {
      this.productId := productId;
      name := "";
      price := Some(0.0);
      loading := true;
      saving := false;
      errorMessage := None;
    }

    method StartLoad() returns (request: Request)
      modifies this
      ensures request == GetProduct(productId)
      ensures loading && errorMessage == None
      ensures name == old(name) && price == old(price) && saving == old(saving)
    {
      loading := true;
      errorMessage := None;
      request := GetProduct(productId);
    }

    /** The load settled: the product's name and price are copied into the form, or the message is set. */
    method SettleLoad(reply: Reply<ProductDetail>)
      modifies this
      ensures !loading && saving == old(saving)
      ensures reply.Resolved? ==> name == reply.value.name && price == Some(reply.value.price as real)
      ensures reply.Resolved? ==> errorMessage == old(errorMessage)
      ensures reply.Rejected? ==> name == old(name) && price == old(price)
      ensures reply.Rejected? ==> errorMessage == Some(CaughtMessage(reply.thrown, LoadFallback))
    {
      match reply {
        case Resolved(product) =>
          name := product.name;
          price := Some(product.price as real);
        case Rejected(thrown) =>
          errorMessage := Some(CaughtMessage(thrown, LoadFallback));
      }
      loading := false;
    }

    /**
     * `handleSubmit` up to its await: a failed check shows its message and
     * sends nothing; only a passing form clears the error, turns `saving` on
     * and sends the update.
     */
    method Submit() returns (request: Option<Request>)
      modifies this
      ensures var check := ValidateEdit(old(name), old(price));
              && (check.Failure? ==> request == None && errorMessage == Some(check.error) && saving == old(saving))
              && (check.Success? ==> request == Some(UpdateProductInfo(productId, check.value)) && errorMessage == None && saving)
      ensures name == old(name) && price == old(price) && loading == old(loading)
    {
      var check := ValidateEdit(name, price);
      if check.Failure? {
        errorMessage := Some(check.error);
        return None;
      }
      saving := true;
      errorMessage := None;
      request := Some(UpdateProductInfo(productId, check.value));
    }

    /** The update settled: success calls `onBack` (`leave`); failure shows the message and stays; `saving` ends. */
    method SubmitReplied(reply: Reply<()>) returns (leave: bool)
      modifies this
      ensures !saving && (leave <==> reply.Resolved?)
      ensures reply.Resolved? ==> errorMessage == old(errorMessage)
      ensures reply.Rejected? ==> errorMessage == Some(CaughtMessage(reply.thrown, UpdateFallback))
      ensures name == old(name) && price == old(price) && loading == old(loading)
    {
      match reply {
        case Resolved(_) =>
          leave := true;
        case Rejected(thrown) =>
          errorMessage := Some(CaughtMessage(thrown, UpdateFallback));
          leave := false;
      }
      saving := false;
    }
  }
}
