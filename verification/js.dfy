/** JavaScript values as the routes and pages see them: optional fields,
    truthiness, `??` and thrown errors. */
module Js {

  /** A value that may be `null` or `undefined` (both are `None`). */
  datatype Option<+T> = None | Some(value: T) {

    /** `this ?? default`: only `null` and `undefined` fall back. */
    function GetOr(default: T): T {
      match this
      case Some(v) => v
      case None => default
    }
  }

  /** An operation that either returns a value or throws. */
  datatype Result<+T, +E> = Returns(value: T) | Throws(error: E)

  /** Something a `catch` block receives; `error?.message` may be absent. */
  datatype Thrown = Thrown(message: Option<string>)

  /** JavaScript truthiness of an optional string: `null`, `undefined`
      and `""` are falsy, every other string is truthy. */
  predicate Truthy(s: Option<string>) {
    s.Some? && s.value != ""
  }

  /** `a || b` for optional strings. */
  function Or(a: Option<string>, b: string): string {
    if Truthy(a) then a.value else b
  }
}
