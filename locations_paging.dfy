/** `LocationsPagingSource`: one listing endpoint, results mapped by `LocationMapper`. */
module LocationsPaging {
  import opened Kotlin
  import opened Network
  import opened Domain
  import opened LocationMapper
  import opened Paging

  /** `load(params)` against `getLocations(page)`. Every results entry, null or
      not, becomes one location, in order; I/O and HTTP exceptions become an
      error result with no data. */
  function Load(key: Option<int>, getLocations: int -> Call<PageBody<LocationResponse>>): (r: LoadResult<Location>)
    ensures getLocations(PageOf(key)).Raised? ==> r == Caught(getLocations(PageOf(key)).failure)
    ensures getLocations(PageOf(key)).Returned? ==>
      var body := getLocations(PageOf(key)).body;
      r.Page? &&
      r.prevKey == PrevKey(PageOf(key)) &&
      r.nextKey == NextKey(PageOf(key), NextLinkOf(body)) &&
      |r.data| == |ResultsOf(body)| &&
      forall i :: 0 <= i < |r.data| ==> r.data[i] == MapToDomainModel(ResultsOf(body)[i])
  {
    var page := PageOf(key);
    match getLocations(page)
    case Raised(f) => Caught(f)
    case Returned(body) =>
      var results := ResultsOf(body);
      Page(seq(|results|, i requires 0 <= i < |results| => MapToDomainModel(results[i])),
           PrevKey(page), NextKey(page, NextLinkOf(body)))
  }

  /** `getRefreshKey` recovers a loaded page from its neighbours' keys. */
  lemma RefreshKeyRecoversPage(key: Option<int>, getLocations: int -> Call<PageBody<LocationResponse>>,
                               anchor: int, closestPage: int -> Option<PageKeys>)
    requires Load(key, getLocations).Page?
    requires Load(key, getLocations).prevKey.Some? || Load(key, getLocations).nextKey.Some?
    requires closestPage(anchor) == Some(PageKeys(Load(key, getLocations).prevKey, Load(key, getLocations).nextKey))
    ensures RefreshKey(Some(anchor), closestPage) == Some(PageOf(key))
  {
    var call := getLocations(PageOf(key));
    KeyAroundRecoversPage(PageOf(key), NextLinkOf(call.body));
  }
}
