/** The outcome of an HTTP request as the scrapers see it. */
module Http {
  /** A status code with the decoded body, or the exception the request
      raised. */
  datatype Response<T> = Response(status: int, body: T) | Failed(error: string)

  /** The request succeeded with status 200. */
  predicate IsOk<T>(r: Response<T>) {
    r.Response? && r.status == 200
  }
}
