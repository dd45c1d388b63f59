/** Small value types shared by the query and ingest models. */
module Wrappers {

  /** Python's `None` or a present value. */
  datatype Option<+T> = None | Some(value: T)

  /** The outcome of a call into code outside the model: it either returns
      a value or raises an exception carrying a message. */
  datatype Attempt<+T> = Returned(value: T) | Raised(message: string)

  /** Python truthiness of an optional command-line string: `None` and the
      empty string are both false. */
  predicate Truthy(s: Option<string>) {
    s.Some? && s.value != ""
  }
}
