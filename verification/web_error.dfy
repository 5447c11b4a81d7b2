/** The closed failure taxonomy of the JSON REST client. */
module WebErrors {

  /**
   * `noInternetConnection`: no request was attempted; `custom`: the server
   * answered with a decodable error body; `unauthorized`: HTTP 401; `other`:
   * everything else (no HTTP response, an undecodable body).
   */
  datatype WebError<E> = NoInternetConnection | Custom(custom: E) | Unauthorized | Other
}
