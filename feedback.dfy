/** What a form handler leaves behind besides its state: the toast it raises
    and the error a failed request reports. */
module Feedback {
  import opened Wrappers
  import opened Text

  datatype Toast = Success(text: string) | Failure(text: string)

  /** The parts of a failed request's error the forms read:
      `error.response?.data?.error?.message` and `error.response?.data?.message`,
      `None` when absent. */
  datatype ApiError = ApiError(nestedMessage: Option<string>, message: Option<string>)

  /** `error.response?.data?.message || fallback`. */
  function MessageOr(e: ApiError, fallback: string): (text: string)
    ensures text == fallback || Some(text) == e.message
    ensures e.message.Some? && e.message.value != [] ==> text == e.message.value
    ensures e.message.None? || e.message.value == [] ==> text == fallback
  {
    OrElse(e.message, fallback)
  }

  /** `error.response?.data?.error?.message || error.response?.data?.message || fallback`. */
  function NestedMessageOr(e: ApiError, fallback: string): (text: string)
    ensures text == fallback || Some(text) == e.nestedMessage || Some(text) == e.message
    ensures e.nestedMessage.Some? && e.nestedMessage.value != [] ==> text == e.nestedMessage.value
    ensures (e.nestedMessage.None? || e.nestedMessage.value == []) ==> text == MessageOr(e, fallback)
  {
    OrElse(e.nestedMessage, OrElse(e.message, fallback))
  }
}
