/** `APIManager`: the alert text chosen for each failure, and the `Response`-to-`Result` adapter of `sampleApi`. */
module ApiManager {

  import opened Basics
  import opened WebErrors
  import opened Responses

  /** The sample endpoint's error body. */
  datatype CustomError = CustomError(message: Option<string>)

  /** The banner `addAlert(fromTop:)` would show, with its possibly absent text. */
  datatype Alert = NoAlert | Alert(text: Option<string>)

  const ConnectionLostText := "The internet connection is lost"
  const SomethingWrongText := "Something went wrong"

  /** `handleError(_:)`. */
  function HandleError(e: WebError<CustomError>): (a: Alert)
    ensures a.NoAlert? <==> e.Unauthorized?
    ensures e.NoInternetConnection? ==> a == Alert(Some(ConnectionLostText))
    ensures e.Other? ==> a == Alert(Some(SomethingWrongText))
    ensures e.Custom? ==> a == Alert(e.custom.message)
  {
    match e
    case NoInternetConnection => Alert(Some(ConnectionLostText))
    case Unauthorized => NoAlert
    case Other => Alert(Some(SomethingWrongText))
    case Custom(c) => Alert(c.message)
  }

  /** Apart from server-provided messages, the alert tells which failure occurred. */
  lemma HandleErrorDistinguishes(e1: WebError<CustomError>, e2: WebError<CustomError>)
    requires !e1.Custom? && !e2.Custom?
    requires HandleError(e1) == HandleError(e2)
    ensures e1 == e2
  {
  }

  /**
   * The completion of `sampleApi`'s `load`: the calls it makes to the
   * caller's completion, forwarding the value when there is one and the
   * error otherwise.
   */
  function SampleApiCompletion<A>(r: Response<A, CustomError>): (calls: seq<Result<A, WebError<CustomError>>>)
    ensures |calls| == 1
    ensures calls[0].Success? <==> r.Success?
  {
    match ValueOf(r)
    case Some(v) => [Result.Success(v)]
    case None =>
      match ErrorOf(r)
      case Some(e) => [Result.Failure(e)]
      case None => []
  }

  /** Swift's `Result` back to a `Response`. */
  function ToResponse<A>(res: Result<A, WebError<CustomError>>): Response<A, CustomError>
  {
    match res
    case Success(v) => Response.Success(v)
    case Failure(e) => Response.Failure(e)
  }

  /** The forwarded result loses nothing: converting it back gives the original response. */
  lemma SampleApiForwardsFaithfully<A>(r: Response<A, CustomError>)
    ensures ToResponse(SampleApiCompletion(r)[0]) == r
  {
  }
}
