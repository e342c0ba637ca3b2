/** What the two paging sources share: the result of a page load and the
    integer page-key arithmetic around it. */
module Paging {
  import opened Kotlin
  import opened Network

  /** `PagingSource.LoadResult`, plus `Thrown` for an exception that `load`
      does not catch and that therefore escapes it. */
  datatype LoadResult<T> =
    | Page(data: seq<T>, prevKey: Option<int>, nextKey: Option<int>)
    | LoadError(failure: Failure)
    | Thrown(failure: Failure)

  /** The keys of a loaded page, as `PagingState.closestPageToPosition` reports them. */
  datatype PageKeys = PageKeys(prevKey: Option<int>, nextKey: Option<int>)

  /** `params.key ?: 1` */
  function PageOf(key: Option<int>): (page: int)
    ensures key.None? ==> page == 1
    ensures key.Some? ==> page == key.value
  {
    key.GetOr(1)
  }

  /** `if (page == 1) null else page - 1` */
  function PrevKey(page: int): (r: Option<int>)
    ensures r.None? <==> page == 1
    ensures r.Some? ==> r.value == page - 1
  {
    if page == 1 then None else Some(page - 1)
  }

  /** `if (body?.info?.next == null) null else page + 1` */
  function NextKey(page: int, next: Option<string>): (r: Option<int>)
    ensures r.Some? <==> next.Some?
    ensures r.Some? ==> r.value == page + 1
  {
    if next.None? then None else Some(page + 1)
  }

  /** `prevKey?.plus(1) ?: nextKey?.minus(1)` */
  function KeyAround(keys: PageKeys): (r: Option<int>)
    ensures keys.prevKey.Some? ==> r == Some(keys.prevKey.value + 1)
    ensures keys.prevKey.None? && keys.nextKey.Some? ==> r == Some(keys.nextKey.value - 1)
    ensures r.None? <==> keys.prevKey.None? && keys.nextKey.None?
  {
    if keys.prevKey.Some? then Some(keys.prevKey.value + 1)
    else if keys.nextKey.Some? then Some(keys.nextKey.value - 1)
    else None
  }

  /** `getRefreshKey(state)`: nothing without an anchor position, otherwise the
      key recovered from the neighbours of the page closest to the anchor. */
  function RefreshKey(anchor: Option<int>, closestPage: int -> Option<PageKeys>): (r: Option<int>)
    ensures anchor.None? ==> r.None?
    ensures anchor.Some? && closestPage(anchor.value).None? ==> r.None?
    ensures anchor.Some? && closestPage(anchor.value).Some? ==> r == KeyAround(closestPage(anchor.value).value)
  {
    match anchor
    case None => None
    case Some(position) =>
      match closestPage(position)
      case None => None
      case Some(keys) => KeyAround(keys)
  }

  /** A page keyed by `PrevKey` and `NextKey` that has at least one neighbour
      gives its own number back as the refresh key. */
  lemma KeyAroundRecoversPage(page: int, next: Option<string>)
    requires PrevKey(page).Some? || NextKey(page, next).Some?
    ensures KeyAround(PageKeys(PrevKey(page), NextKey(page, next))) == Some(page)
  {
  }

  /** The `catch` clauses of both `load`s: I/O and HTTP exceptions become an
      error result, anything else escapes. */
  function Caught<T>(f: Failure): (r: LoadResult<T>)
    ensures r.LoadError? <==> f == IoFailure || f == HttpFailure
    ensures r.LoadError? || r.Thrown?
    ensures r.failure == f
  {
    if f == IoFailure || f == HttpFailure then LoadError(f) else Thrown(f)
  }
}
