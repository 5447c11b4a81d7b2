/** `Unwrappable`: getting the value out of an optional or a result, or throwing. */
module Unwrappable {

  import opened Basics

  /** The thrown error: `ResultError.nilValue`, or any other error, named by a tag. */
  datatype AnyError = NilValue | Raised(tag: string)

  /** `Optional.unwrap(errorIfNil:)`: the value, or throw the given error, `nilValue` when none is given. */
  function UnwrapOptional<T>(o: Option<T>, errorIfNil: Option<AnyError>): (r: Result<T, AnyError>)
    ensures r.Success? <==> o.Some?
    ensures o.Some? ==> r.value == o.value
    ensures o.None? && errorIfNil.Some? ==> r.error == errorIfNil.value
    ensures o.None? && errorIfNil.None? ==> r.error == NilValue
  {
    match o
    case Some(v) => Success(v)
    case None => Failure(errorIfNil.GetOr(NilValue))
  }

  /** `Result.unwrap(errorIfNil:)`: the value, or throw the given error in place of the result's own. */
  function UnwrapResult<T>(res: Result<T, AnyError>, errorIfNil: Option<AnyError>): (r: Result<T, AnyError>)
    ensures r.Success? <==> res.Success?
    ensures res.Success? ==> r.value == res.value
    ensures res.Failure? ==> r.error == if errorIfNil.Some? then errorIfNil.value else res.error
  {
    match res
    case Success(v) => Success(v)
    case Failure(e) => Failure(errorIfNil.GetOr(e))
  }

  /** Without an override, unwrapping a result rethrows exactly what it holds. */
  lemma UnwrapResultWithoutOverride<T>(res: Result<T, AnyError>)
    ensures UnwrapResult(res, None) == res
  {
  }

  /** The success value of a result, dropping its error. */
  function ToOption<T>(res: Result<T, AnyError>): (o: Option<T>)
    ensures o.Some? <==> res.Success?
  {
    if res.Success? then Some(res.value) else None
  }

  /**
   * With an override both unwraps agree: unwrapping a result behaves like
   * unwrapping its value as an optional.
   */
  lemma UnwrapsAgreeWithOverride<T>(res: Result<T, AnyError>, e: AnyError)
    ensures UnwrapResult(res, Some(e)) == UnwrapOptional(ToOption(res), Some(e))
  {
  }

  /** Unwrapping never changes a present value, whatever error is supplied. */
  lemma UnwrapPresentIgnoresError<T>(v: T, e1: Option<AnyError>, e2: Option<AnyError>)
    ensures UnwrapOptional(Some(v), e1) == UnwrapOptional(Some(v), e2) == Success(v)
    ensures UnwrapResult(Success(v), e1) == UnwrapResult(Success(v), e2) == Success(v)
  {
  }
}
