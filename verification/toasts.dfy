/** What the admin components report back: a toast, and how they read an HTTP reply. */
module Toasts {
  datatype Toast = SuccessToast(text: string) | ErrorToast(text: string)

  /** `response.ok`: a 2xx status. */
  predicate Ok(status: nat) {
    200 <= status <= 299
  }

  /** `errorData.message || fallback`: the reply's message, or the fallback when it is empty. */
  function ErrorText(message: string, fallback: string): (s: string)
    ensures message != [] ==> s == message
    ensures message == [] ==> s == fallback
  {
    if message != [] then message else fallback
  }
}
