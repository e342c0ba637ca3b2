/** Abstract shapes of what the REST client hands back. Nothing here performs
    I/O: a call's outcome is an input value to the code that consumes it. */
module Network {
  import opened Kotlin

  /** The exception kinds the app's code tells apart. `NullDereference` is the
      `NullPointerException` raised by `!!` on a null value. */
  datatype Failure = IoFailure | HttpFailure | NullDereference | OtherFailure

  /** A Retrofit call: it either returns a `Response` whose `body()` may be
      null (a non-2xx status has a null body), or it throws. */
  datatype Call<B> = Returned(body: Option<B>) | Raised(failure: Failure)

  /** The `info` block of a paginated envelope. */
  datatype PageInfo = PageInfo(count: Option<Int32>, next: Option<string>)

  /** A paginated envelope: `info` and a `results` list whose entries may be null. */
  datatype PageBody<T> = PageBody(info: Option<PageInfo>, results: Option<seq<Option<T>>>)

  /** `body?.results ?: emptyList()` */
  function ResultsOf<T>(body: Option<PageBody<T>>): seq<Option<T>>
  {
    if body.Some? && body.value.results.Some? then body.value.results.value else []
  }

  /** `body?.info?.next` */
  function NextLinkOf<T>(body: Option<PageBody<T>>): Option<string>
  {
    if body.Some? && body.value.info.Some? then body.value.info.value.next else None
  }

  /** The app's `NetworkResponse`, as emitted by the repository's flows. */
  datatype NetworkResponse<T> = Loading | Success(data: Option<T>) | Error(errorMessage: string)
}
