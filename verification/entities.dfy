/**
 * The records the console receives from the server and the requests it issues.
 * They carry no behaviour; every page treats them as value snapshots that a
 * later fetch replaces wholesale.
 */
module Entities {
  import opened Wrappers

  /** Pagination metadata returned with every page of a collection (`number` is 0-based). */
  datatype PageInfo = PageInfo(size: int, number: int, totalElements: int, totalPages: int)

  /** One page of a collection. */
  datatype PageData<T> = PageData(content: seq<T>, page: PageInfo)

  datatype OrderItem = OrderItem(
    id: int, quantity: int, productPrice: int, productName: string, status: string,
    userId: int, productId: int, createdAt: string, nickname: Option<string>)

  datatype OrderDetail = OrderDetail(
    id: int, quantity: int, productPrice: int, productName: string, status: string,
    userId: int, productId: int, createdAt: Option<string>, nickname: Option<string>)

  datatype RouletteHistoryItem = RouletteHistoryItem(
    id: int, rouletteDate: string, totalBudget: int, usedBudget: int,
    participantCount: int, deletedAt: Option<string>)

  datatype UserItem = UserItem(id: int, nickname: string)

  /** Only the fields the user detail page reads; the record's own type file is not part of this model. */
  datatype UserDetail = UserDetail(id: int, nickname: string, role: string, pointDebt: int, createdAt: Option<string>)

  datatype PointRecord = PointRecord(
    id: int, grantedPoint: int, remainingPoint: int, status: string, expiresAt: string,
    userId: int, nickname: Option<string>, rouletteDate: string, deletedAt: Option<string>)

  datatype ProductDetail = ProductDetail(id: int, name: string, stockQuantity: int, price: int, createdAt: string)

  /** The signed-in administrator, as handed to the application after sign-in. */
  datatype Session = Session(id: int, nickname: string)

  /** The body of a successful sign-in reply. */
  datatype SignInResponse = SignInResponse(id: int)

  /** Request bodies; prices and quantities are whatever `Number(text)` gave for the form field. */
  datatype CreateProductReq = CreateProductReq(name: string, price: real, stockQuantity: real)
  datatype UpdateProductReq = UpdateProductReq(name: string, price: real)

  /** Every request a page of the core issues, with the arguments that identify it. */
  datatype Request =
    | GetOrdersByProduct(productId: int, page: int, size: int)
    | GetRouletteHistory(page: int, size: int)
    | GetUsers(page: int, size: int)
    | GetPointRecordsByDate(rouletteDate: string, page: int, size: int)
    | ReclaimPoint(pointId: int)
    | GetOrder(orderId: int)
    | CancelOrder(orderId: int)
    | GetProduct(productId: int)
    | DeleteProduct(productId: int)
    | CreateProduct(create: CreateProductReq)
    | UpdateProductInfo(productId: int, update: UpdateProductReq)
    | UpdateProductStock(productId: int, increaseStock: real)
    | GetUser(userId: int)
    | SignIn(nickname: string)
}
