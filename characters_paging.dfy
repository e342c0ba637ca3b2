/** `CharactersPagingSource`: which request a page load issues, and how its
    response becomes a page. */
module CharactersPaging {
  import opened Kotlin
  import opened Network
  import opened Domain
  import opened CharacterDto
  import opened Paging

  /** The constructor parameters of a paging source. */
  datatype Source = Source(
    characterIds: Option<seq<string>>,
    nameQuery: Option<string>,
    status: Option<string>,
    species: Option<string>)

  /** The REST request a load issues. */
  datatype Request =
    | GetMultiple(ids: string)
    | SearchByName(name: string, page: int)
    | GetFiltered(page: int, status: Option<string>, species: Option<string>)
    | GetAll(page: int)

  /** The two endpoints a characters source calls: the bulk lookup by a
      comma-separated id list, and the paginated listing endpoints. */
  datatype Api = Api(
    getMultiple: string -> Call<seq<CharacterResponse>>,
    getPage: Request -> Call<PageBody<CharacterResponse>>)

  /** `nameQuery.isNullOrEmpty()` */
  predicate NoQuery(q: Option<string>)
  {
    q.None? || q.value == ""
  }

  /** The request `load(key)` issues, or `None` for the empty id set, which
      answers without calling the API. The branches are tried in priority
      order: an id set, a non-empty name, a status or species, nothing. */
  function RequestFor(src: Source, key: Option<int>): (r: Option<Request>)
    ensures r.None? <==> src.characterIds == Some([])
    ensures src.characterIds.Some? && src.characterIds.value != [] ==>
      r == Some(GetMultiple(Join(src.characterIds.value, ',')))
    ensures src.characterIds.None? ==> r.Some? && !r.value.GetMultiple? && r.value.page == PageOf(key)
    ensures r.Some? && r.value.SearchByName? <==>
      src.characterIds.None? && !NoQuery(src.nameQuery)
    ensures r.Some? && r.value.SearchByName? ==> r.value.name == src.nameQuery.value
    ensures r.Some? && r.value.GetFiltered? <==>
      src.characterIds.None? && NoQuery(src.nameQuery) && (src.status.Some? || src.species.Some?)
    ensures r.Some? && r.value.GetFiltered? ==> r.value.status == src.status && r.value.species == src.species
    ensures r.Some? && r.value.GetAll? <==>
      src.characterIds.None? && NoQuery(src.nameQuery) && src.status.None? && src.species.None?
  {
    match src.characterIds
    case Some(ids) =>
      if ids == [] then None else Some(GetMultiple(Join(ids, ',')))
    case None =>
      var page := PageOf(key);
      if !NoQuery(src.nameQuery) then Some(SearchByName(src.nameQuery.value, page))
      else if src.status.Some? || src.species.Some? then Some(GetFiltered(page, src.status, src.species))
      else Some(GetAll(page))
  }

  /** The bulk path lists the ids in their given order: splitting it at ','
      gives the id set back when no id holds a comma. */
  lemma BulkPathListsIds(src: Source, key: Option<int>)
    requires src.characterIds.Some? && src.characterIds.value != []
    requires FreeOf(src.characterIds.value, ',')
    ensures RequestFor(src, key).Some? && RequestFor(src, key).value.GetMultiple?
    ensures Split(RequestFor(src, key).value.ids, ',') == src.characterIds.value
  {
    SplitJoin(src.characterIds.value, ',');
  }

  /** `response.body()?.map { it.toCharacter() } ?: emptyList()` on the bulk
      endpoint, wrapped in a page without neighbours. */
  function BulkPage(call: Call<seq<CharacterResponse>>): (r: LoadResult<Character>)
    ensures call.Raised? ==> r == Caught(call.failure)
    ensures call.Returned? ==> r.Page? && r.prevKey.None? && r.nextKey.None?
    ensures call.Returned? && call.body.None? ==> r.data == []
    ensures call.Returned? && call.body.Some? ==>
      |r.data| == |call.body.value| &&
      forall i :: 0 <= i < |r.data| ==> r.data[i] == ToCharacter(call.body.value[i])
  {
    match call
    case Raised(f) => Caught(f)
    case Returned(body) =>
      var list := body.GetOr([]);
      Page(seq(|list|, i requires 0 <= i < |list| => ToCharacter(list[i])), None, None)
  }

  /** `true` when some entry of the results list is null. */
  predicate HasNullEntry(results: seq<Option<CharacterResponse>>)
  {
    exists i :: 0 <= i < |results| && results[i].None?
  }

  /** A listing response as a page: `results?.map { it!!.toCharacter() }`, with
      the keys around `page`. A null entry makes `!!` throw, and that exception
      is not one `load` catches. */
  function ListingPage(page: int, call: Call<PageBody<CharacterResponse>>): (r: LoadResult<Character>)
    ensures call.Raised? ==> r == Caught(call.failure)
    ensures call.Returned? && HasNullEntry(ResultsOf(call.body)) ==> r == Thrown(NullDereference)
    ensures call.Returned? && !HasNullEntry(ResultsOf(call.body)) ==>
      r.Page? &&
      r.prevKey == PrevKey(page) &&
      r.nextKey == NextKey(page, NextLinkOf(call.body)) &&
      |r.data| == |ResultsOf(call.body)| &&
      forall i :: 0 <= i < |r.data| ==> r.data[i] == ToCharacter(ResultsOf(call.body)[i].value)
  {
    match call
    case Raised(f) => Caught(f)
    case Returned(body) =>
      var results := ResultsOf(body);
      if HasNullEntry(results) then Thrown(NullDereference)
      else
        Page(seq(|results|, i requires 0 <= i < |results| => ToCharacter(results[i].value)),
             PrevKey(page), NextKey(page, NextLinkOf(body)))
  }

  /** `load(params)`: the request chosen by `RequestFor`, answered by `api`. */
  function Load(src: Source, key: Option<int>, api: Api): (r: LoadResult<Character>)
    ensures src.characterIds == Some([]) ==> r == Page([], None, None)
    ensures src.characterIds.Some? && src.characterIds.value != [] ==>
      r == BulkPage(api.getMultiple(Join(src.characterIds.value, ',')))
    ensures src.characterIds.Some? && r.Page? ==> r.prevKey.None? && r.nextKey.None?
    ensures src.characterIds.None? ==> r == ListingPage(PageOf(key), api.getPage(RequestFor(src, key).value))
  {
    match RequestFor(src, key)
    case None => Page([], None, None)
    case Some(request) =>
      if request.GetMultiple? then BulkPage(api.getMultiple(request.ids))
      else ListingPage(request.page, api.getPage(request))
  }

  /** A listing load that got a response without a body, or a body without
      `results`, yields an empty page rather than an error. */
  lemma MissingResultsGiveEmptyPage(src: Source, key: Option<int>, api: Api)
    requires src.characterIds.None?
    requires api.getPage(RequestFor(src, key).value).Returned?
    requires ResultsOf(api.getPage(RequestFor(src, key).value).body) == []
    ensures Load(src, key, api).Page? && Load(src, key, api).data == []
  {
    var call := api.getPage(RequestFor(src, key).value);
    assert !HasNullEntry(ResultsOf(call.body));
  }

  /** `getRefreshKey` recovers a loaded page: if `load(key)` produced a page
      with a neighbour and the anchor's closest page is that page, the refresh
      key is the page number the load used. */
  lemma RefreshKeyRecoversPage(src: Source, key: Option<int>, api: Api, anchor: int, closestPage: int -> Option<PageKeys>)
    requires Load(src, key, api).Page?
    requires Load(src, key, api).prevKey.Some? || Load(src, key, api).nextKey.Some?
    requires closestPage(anchor) == Some(PageKeys(Load(src, key, api).prevKey, Load(src, key, api).nextKey))
    ensures RefreshKey(Some(anchor), closestPage) == Some(PageOf(key))
  {
    var r := Load(src, key, api);
    assert src.characterIds.None?;
    var call := api.getPage(RequestFor(src, key).value);
    assert r == ListingPage(PageOf(key), call);
    KeyAroundRecoversPage(PageOf(key), NextLinkOf(call.body));
  }
}
