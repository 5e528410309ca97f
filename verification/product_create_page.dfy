/** The product creation form: an ordered check of name, price and stock, then the create request. */
module ProductCreatePage {
  import opened Wrappers
  import opened ApiClient
  import opened Entities
  import opened PageCommon
  import opened JsText

  const NameRequired := "상품명은 필수입니다."
  const PriceTooLow := "가격은 1 이상이어야 합니다."
  const StockTooLow := "재고는 1 이상이어야 합니다."
  const CreateFallback := "상품 등록에 실패했습니다."

  /**
   * `Number.isFinite(v) && v >= 1` for a numeric field: `None` stands for a
   * field whose `Number(text)` is not finite.
   */
  predicate AtLeastOne(v: Option<real>) {
    v.Some? && v.value >= 1.0
  }

  /**
   * The guard chain of `handleSubmit`: the first failing check, in the order
   * name, price, stock, gives the only message; otherwise the request carries
   * the trimmed name and the parsed price and stock.
   */
  function ValidateCreate(name: string, price: Option<real>, stock: Option<real>): (r: Result<CreateProductReq, string>)
    ensures r.Success? <==> Trim(name) != "" && AtLeastOne(price) && AtLeastOne(stock)
    ensures Trim(name) == "" ==> r == Failure(NameRequired)
    ensures Trim(name) != "" && !AtLeastOne(price) ==> r == Failure(PriceTooLow)
    ensures Trim(name) != "" && AtLeastOne(price) && !AtLeastOne(stock) ==> r == Failure(StockTooLow)
    ensures r.Success? ==> r.value == CreateProductReq(Trim(name), price.value, stock.value)
    // the name sent is never blank and never starts or ends with white space
    ensures r.Success? ==> r.value.name != "" && IsTrimmed(r.value.name) && !AllSpace(name)
  {
    var trimmed := Trim(name);
    TrimEmptyIffAllSpace(name);
    if trimmed == "" then Failure(NameRequired)
    else if !AtLeastOne(price) then Failure(PriceTooLow)
    else if !AtLeastOne(stock) then Failure(StockTooLow)
    else Success(CreateProductReq(trimmed, price.value, stock.value))
  }

  class ProductCreateView {
    var name: string
    /** `Number(price)` of the price field. */
    var price: Option<real>
    /** `Number(stockQuantity)` of the stock field. */
    var stockQuantity: Option<real>
    var saving: bool
    var errorMessage: Option<string>
    var successMessage: Option<string>

    /** Nothing ever sets a success message: the banner for it is never shown. */
    predicate Valid()
      reads this
    {
      successMessage == None
    }

    /** Empty fields; `Number('')` is 0. */
    constructor ()
      ensures Valid()
      ensures name == "" && price == Some(0.0) && stockQuantity == Some(0.0)
      ensures !saving && errorMessage == None
    {
      name := "";
      price := Some(0.0);
      stockQuantity := Some(0.0);
      saving := false;
      errorMessage := None;
      successMessage := None;
    }

    /**
     * `handleSubmit` up to its await: both messages are cleared, then either
     * the first failed check's message is shown and nothing is sent, or
     * `saving` goes on and the create request is sent.
     */
    method Submit() returns (request: Option<Request>)
      requires Valid()
      modifies this
      ensures Valid()
      ensures var check := ValidateCreate(old(name), old(price), old(stockQuantity));
              && (check.Failure? ==> request == None && errorMessage == Some(check.error) && saving == old(saving))
              && (check.Success? ==> request == Some(CreateProduct(check.value)) && errorMessage == None && saving)
      ensures name == old(name) && price == old(price) && stockQuantity == old(stockQuantity)
    {
      errorMessage := None;
      successMessage := None;
      var check := ValidateCreate(name, price, stockQuantity);
      if check.Failure? {
        errorMessage := Some(check.error);
        return None;
      }
      saving := true;
      request := Some(CreateProduct(check.value));
    }

    /** The create settled: success calls `onBack` (`leave`); failure shows the message and stays; `saving` ends. */
    method SubmitReplied(reply: Reply<()>) returns (leave: bool)
      requires Valid()
      modifies this
      ensures Valid() && !saving
      ensures leave <==> reply.Resolved?
      ensures reply.Resolved? ==> errorMessage == old(errorMessage)
      ensures reply.Rejected? ==> errorMessage == Some(CaughtMessage(reply.thrown, CreateFallback))
      ensures name == old(name) && price == old(price) && stockQuantity == old(stockQuantity)
    {
      match reply {
        case Resolved(_) =>
          leave := true;
        case Rejected(thrown) =>
          errorMessage := Some(CaughtMessage(thrown, CreateFallback));
          leave := false;
      }
      saving := false;
    }
  }
}
