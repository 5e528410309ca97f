/** Rules every page of the console applies in the same way. */
module PageCommon {
  import opened Wrappers
  import opened ApiClient

  /**
   * The message a page's `catch` block shows: an ApiError's or any other
   * Error's own message, and the page's fixed fallback text for a thrown
   * value that is not an Error.
   */
  function CaughtMessage(thrown: Thrown, fallback: string): (message: string)
    ensures thrown.ApiFailure? ==> message == thrown.error.message
    ensures thrown.PlainError? ==> message == thrown.message
    ensures thrown.NonErrorValue? ==> message == fallback
  {
    match thrown
    case ApiFailure(error) => error.message
    case PlainError(message) => message
    case NonErrorValue => fallback
  }

  /** Creation-time text: a dash, or the local date-time formatting of the raw value. */
  datatype DateText = Dash | Formatted(raw: string)

  /**
   * `createdAtText`: `createdAt` is `record?.createdAt`, None when the record
   * is not loaded or carries no creation time; an empty string counts as absent.
   */
  function CreatedAtText(createdAt: Option<string>): (text: DateText)
    ensures text == Dash <==> createdAt.None? || createdAt.value == ""
    ensures text.Formatted? ==> text.raw == createdAt.value
  {
    if createdAt.None? || createdAt.value == "" then Dash else Formatted(createdAt.value)
  }
}
