/** The interceptor that wraps every successful controller result in the
    common `{ isError, result }` envelope. */
module ApiResponseMiddleware {
  /** A controller's return value: JavaScript `null`, `undefined`, or a value. */
  datatype Content<T> = Null | Undefined | Value(value: T)

  /** What the interceptor sends on: a bare `null`/`undefined`, or the envelope. */
  datatype Reply<T> = Bare(content: Content<T>) | Envelope(isError: bool, result: T)

  /** The body a reply carries, read back out of the envelope. */
  function Carried<T>(r: Reply<T>): Content<T>
  {
    match r
    case Bare(c) => c
    case Envelope(_, v) => Value(v)
  }

  /** `ApiResponseMiddleware.intercept`: `null` and `undefined` pass unwrapped
      (so the not-found decorators still see them); any other value is wrapped
      as a success, and nothing is lost in the wrapping. */
  function Intercept<T>(content: Content<T>): (r: Reply<T>)
    ensures r.Envelope? <==> content.Value?
    ensures r.Envelope? ==> !r.isError
    ensures Carried(r) == content
  {
    if content.Null? || content.Undefined? then Bare(content) else Envelope(false, content.value)
  }
}
