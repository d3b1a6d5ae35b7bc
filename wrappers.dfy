/** Small result types shared by both request handlers. */
module Wrappers {

  /** A value that may be absent: a query parameter that was not sent, a search with no hit. */
  datatype Option<+T> = None | Some(value: T)

  /** The outcome of an awaited external call: the value it resolved to, or the
      message of the `Error` it threw. */
  datatype Attempt<+T> = Returned(value: T) | Threw(message: string)

  /** JavaScript truthiness of a `string | null | undefined`: present and non-empty. */
  predicate Present(s: Option<string>)
  {
    s.Some? && s.value != ""
  }
}
