/** `Response<A, CustomError>`: the outcome of one `load`, a value or a `WebError`. */
module Responses {

  import opened Basics
  import opened WebErrors

  datatype Response<A, E> = Success(payload: A) | Failure(reason: WebError<E>)

  /** `init(value:or:)`: a success when a value is present, the given error otherwise. */
  function FromOptional<A, E>(value: Option<A>, orElse: WebError<E>): (r: Response<A, E>)
    ensures r.Success? <==> value.Some?
    ensures value.Some? ==> r.payload == value.value
    ensures value.None? ==> r.reason == orElse
  {
    match value
    case Some(v) => Response.Success(v)
    case None => Response.Failure(orElse)
  }

  /** The `value` accessor. */
  function ValueOf<A, E>(r: Response<A, E>): (v: Option<A>)
    ensures v.Some? <==> r.Success?
    ensures v.Some? ==> v.value == r.payload
  {
    if r.Success? then Some(r.payload) else None
  }

  /** The `error` accessor. */
  function ErrorOf<A, E>(r: Response<A, E>): (e: Option<WebError<E>>)
    ensures e.Some? <==> r.Failure?
    ensures e.Some? ==> e.value == r.reason
  {
    if r.Failure? then Some(r.reason) else None
  }

  /** Every response carries exactly one of a value and an error. */
  lemma ExactlyOneOfValueAndError<A, E>(r: Response<A, E>)
    ensures ValueOf(r).Some? != ErrorOf(r).Some?
  {
  }

  /** The `value` accessor recovers what `init(value:or:)` was given, and `error` the fallback exactly when no value was. */
  lemma FromOptionalAccessors<A, E>(value: Option<A>, orElse: WebError<E>)
    ensures ValueOf(FromOptional(value, orElse)) == value
    ensures ErrorOf(FromOptional(value, orElse)) == if value.None? then Some(orElse) else None
  {
  }

  /** Rebuilding a response from its two accessors gives it back. */
  lemma FromAccessorsRoundTrip<A, E>(r: Response<A, E>, fallback: WebError<E>)
    ensures FromOptional(ValueOf(r), ErrorOf(r).GetOr(fallback)) == r
  {
  }
}
