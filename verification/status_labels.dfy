/** Status codes shown as Korean labels; any code the console does not know is shown as it is. */
module StatusLabels {

  const UserCancelledLabel := "사용자 주문 취소"
  const AdminCancelledLabel := "관리자 주문 취소"
  const CompletedLabel := "주문 완료"

  /** The order statuses the console knows how to label. */
  predicate IsKnownOrderStatus(status: string) {
    status == "USER_CANCELLED" || status == "ADMIN_CANCELLED" || status == "COMPLETED"
  }

  /** `formatOrderStatus` of the orders list, identical to `statusText` of the order detail page. */
  function OrderStatusText(status: string): (text: string)
    ensures status == "USER_CANCELLED" ==> text == UserCancelledLabel
    ensures status == "ADMIN_CANCELLED" ==> text == AdminCancelledLabel
    ensures status == "COMPLETED" ==> text == CompletedLabel
    ensures !IsKnownOrderStatus(status) ==> text == status
  {
    match status
    case "USER_CANCELLED" => UserCancelledLabel
    case "ADMIN_CANCELLED" => AdminCancelledLabel
    case "COMPLETED" => CompletedLabel
    case _ => status
  }

  /** A status is shown unchanged exactly when it is not a known one, and the three labels are distinct. */
  lemma OrderStatusTextPassesThroughOnlyUnknown(status: string)
    ensures OrderStatusText(status) == status <==> !IsKnownOrderStatus(status)
    ensures IsKnownOrderStatus(status) ==> !IsKnownOrderStatus(OrderStatusText(status))
    ensures OrderStatusText(OrderStatusText(status)) == OrderStatusText(status)
  {
  }

  const AvailableLabel := "사용 중"
  const UsedLabel := "소진"
  const ExpiredLabel := "만료됨"
  const CanceledLabel := "취소됨"

  predicate IsKnownPointStatus(status: string) {
    status == "AVAILABLE" || status == "USED" || status == "EXPIRED" || status == "CANCELED"
  }

  /** The status label of a point record on the participants page (a chain of conditionals there). */
  function PointStatusText(status: string): (text: string)
    ensures status == "AVAILABLE" ==> text == AvailableLabel
    ensures status == "USED" ==> text == UsedLabel
    ensures status == "EXPIRED" ==> text == ExpiredLabel
    ensures status == "CANCELED" ==> text == CanceledLabel
    ensures !IsKnownPointStatus(status) ==> text == status
  {
    if status == "AVAILABLE" then AvailableLabel
    else if status == "USED" then UsedLabel
    else if status == "EXPIRED" then ExpiredLabel
    else if status == "CANCELED" then CanceledLabel
    else status
  }

  /** A point status is shown unchanged exactly when it is not a known one. */
  lemma PointStatusTextPassesThroughOnlyUnknown(status: string)
    ensures PointStatusText(status) == status <==> !IsKnownPointStatus(status)
    ensures PointStatusText(PointStatusText(status)) == PointStatusText(status)
  {
  }
}
