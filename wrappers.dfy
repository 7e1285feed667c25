/** Optional request values and JavaScript truthiness of the string inputs the handlers test. */
module Wrappers {

  /** A request field that may be absent (`undefined` in the request body). */
  datatype Option<+T> = None | Some(value: T)

  /** `if (x)` on a request string: false for a missing field and for the empty string. */
  predicate Truthy(x: Option<string>) {
    x.Some? && x.value != ""
  }
}
