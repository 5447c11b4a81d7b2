/**
 * The `Result` combinators of the image provider. A throwing transform is a
 * function into `Result`; a handler closure is observed through the list of
 * arguments it is called with.
 */
module ResultExtension {

  import opened Basics

  /** `mapThrow`: transform the success value, turning a throw into a failure. */
  function MapThrow<S, N, E>(r: Result<S, E>, transform: S -> Result<N, E>): (out: Result<N, E>)
    ensures r.Failure? ==> out == Failure(r.error)
    ensures r.Success? && transform(r.value).Success? ==> out == Success(transform(r.value).value)
    ensures r.Success? && transform(r.value).Failure? ==> out == Failure(transform(r.value).error)
  {
    match r
    case Failure(e) => Failure(e)
    case Success(v) => transform(v)
  }

  /** On a failure the transform is never consulted: any two transforms give the same result. */
  lemma MapThrowSkipsTransformOnFailure<S, N, E>(e: E, t1: S -> Result<N, E>, t2: S -> Result<N, E>)
    ensures MapThrow(Failure(e), t1) == MapThrow(Failure(e), t2) == Failure(e)
  {
  }

  /** A transform that never throws makes `mapThrow` an ordinary `map`. */
  lemma MapThrowNonThrowing<S, N, E>(r: Result<S, E>, f: S -> N)
    ensures MapThrow(r, v => Success(f(v))) == match r case Success(v) => Success(f(v)) case Failure(e) => Failure(e)
  {
  }

  /** Two `mapThrow`s in a row are one `mapThrow` of the composed throwing transform. */
  lemma MapThrowComposes<S, M, N, E>(r: Result<S, E>, t1: S -> Result<M, E>, t2: M -> Result<N, E>)
    ensures MapThrow(MapThrow(r, t1), t2) == MapThrow(r, v => MapThrow(t1(v), t2))
  {
  }

  /** `success(_:)`: the receiver, and the arguments the handler was called with. */
  function OnSuccess<S, F>(r: Result<S, F>): (out: (Result<S, F>, seq<S>))
    ensures out.0 == r
    ensures |out.1| == 1 <==> r.Success?
    ensures |out.1| <= 1 && (r.Success? ==> out.1 == [r.value])
  {
    match r
    case Success(v) => (r, [v])
    case Failure(_) => (r, [])
  }

  /** `catch(_:)`: the receiver, and the arguments the handler was called with. */
  function Catch<S, F>(r: Result<S, F>): (out: (Result<S, F>, seq<F>))
    ensures out.0 == r
    ensures |out.1| == 1 <==> r.Failure?
    ensures |out.1| <= 1 && (r.Failure? ==> out.1 == [r.error])
  {
    match r
    case Failure(e) => (r, [e])
    case Success(_) => (r, [])
  }

  /** The chain `r.success(h1).catch(h2)` calls exactly one of its two handlers, once. */
  lemma SuccessThenCatchCallsOneHandler<S, F>(r: Result<S, F>)
    ensures |OnSuccess(r).1| + |Catch(OnSuccess(r).0).1| == 1
    ensures Catch(OnSuccess(r).0).0 == r
  {
  }
}
