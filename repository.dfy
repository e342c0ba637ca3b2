/** `RickAndMortyRepositoryImpl`: the pager configurations behind each listing
    mode, the walk over every character page, and the bulk episode lookup. */
module Repository {
  import opened Kotlin
  import opened Network
  import opened Domain
  import opened CharactersPaging
  import opened Paging

  const DEFAULT_PAGE_SIZE := 20

  // ---------------------------------------------------------------------------
  // Pagers

  /** A `Pager` over a characters paging source, reduced to the two things it
      is built from: the configured page size and the source's parameters. */
  datatype Pager = Pager(pageSize: nat, source: Source)

  /** `getCharactersPaging()`: the plain listing, twenty characters a page. */
  function CharactersPagingPager(): (r: Pager)
    ensures r.pageSize == DEFAULT_PAGE_SIZE
    ensures r.source == Source(None, None, None, None)
    ensures forall key :: RequestFor(r.source, key) == Some(GetAll(PageOf(key)))
  {
    Pager(DEFAULT_PAGE_SIZE, Source(None, None, None, None))
  }

  /** `getCharactersByLocation(ids)`: the page size is the id count, clamped to
      at least 1, so the whole id set fits into the single page the source produces. */
  function CharactersByLocationPager(characterIds: seq<string>): (r: Pager)
    ensures r.pageSize >= 1 && r.pageSize >= |characterIds|
    ensures characterIds != [] ==> r.pageSize == |characterIds|
    ensures characterIds == [] ==> r.pageSize == 1
    ensures r.source == Source(Some(characterIds), None, None, None)
  {
    Pager(if |characterIds| < 1 then 1 else |characterIds|, Source(Some(characterIds), None, None, None))
  }

  /** `searchCharacters(name)`: a name search, twenty a page. An empty name
      reaches the source as an empty query, which lists every character. */
  function SearchCharactersPager(name: string): (r: Pager)
    ensures r.pageSize == DEFAULT_PAGE_SIZE
    ensures r.source == Source(None, Some(name), None, None)
    ensures name != "" ==> forall key :: RequestFor(r.source, key) == Some(SearchByName(name, PageOf(key)))
    ensures name == "" ==> forall key :: RequestFor(r.source, key) == Some(GetAll(PageOf(key)))
  {
    Pager(DEFAULT_PAGE_SIZE, Source(None, Some(name), None, None))
  }

  /** `getCharactersWithFilters(status, species)`: a filtered listing, twenty a
      page. With neither filter set the source falls back to the plain listing. */
  function CharactersWithFiltersPager(status: Option<string>, species: Option<string>): (r: Pager)
    ensures r.pageSize == 20
    ensures r.source == Source(None, None, status, species)
    ensures status.Some? || species.Some? ==>
      forall key :: RequestFor(r.source, key) == Some(GetFiltered(PageOf(key), status, species))
    ensures status.None? && species.None? ==> forall key :: RequestFor(r.source, key) == Some(GetAll(PageOf(key)))
  {
    Pager(20, Source(None, None, status, species))
  }

  // ---------------------------------------------------------------------------
  // getAllCharacters

  /** `info?.count ?: 0` */
  function CountOf<R>(body: PageBody<R>): int
  {
    if body.info.Some? && body.info.value.count.Some? then body.info.value.count.value else 0
  }

  /** The value of `hasMorePages` after `page` answered `resp`: there is a
      results list, it is not empty, and `page * 20` is below the reported count. */
  predicate Continues<R>(page: int, resp: NetworkResponse<PageBody<R>>)
  {
    resp.Success? && resp.data.Some? && resp.data.value.results.Some? &&
    |resp.data.value.results.value| > 0 &&
    page * DEFAULT_PAGE_SIZE < CountOf(resp.data.value)
  }

  function MapAll<R, C>(xs: seq<Option<R>>, mapper: Option<R> -> C): (r: seq<C>)
    ensures |r| == |xs|
    ensures forall i :: 0 <= i < |xs| ==> r[i] == mapper(xs[i])
  {
    seq(|xs|, i requires 0 <= i < |xs| => mapper(xs[i]))
  }

  /** The characters one page contributes: its mapped results, or nothing. */
  function PageItems<R, C>(resp: NetworkResponse<PageBody<R>>, mapper: Option<R> -> C): seq<C>
  {
    if resp.Success? && resp.data.Some? && resp.data.value.results.Some?
    then MapAll(resp.data.value.results.value, mapper)
    else []
  }

  /** The characters of pages 1..`pages`, concatenated in page order. */
  function Collected<R, C>(fetch: int -> NetworkResponse<PageBody<R>>, mapper: Option<R> -> C, pages: nat): seq<C>
  {
    if pages == 0 then [] else Collected(fetch, mapper, pages - 1) + PageItems(fetch(pages), mapper)
  }

  /** What the flow emits after `Loading` once page `last` ended the walk. */
  function Outcome<R, C>(fetch: int -> NetworkResponse<PageBody<R>>, mapper: Option<R> -> C, last: nat): NetworkResponse<seq<C>>
  {
    if fetch(last).Error? then Error(fetch(last).errorMessage)
    else Success(Some(Collected(fetch, mapper, last)))
  }

  /** `getAllCharacters()`. `fetch(p)` is what `safeApiCall` returns for page
      `p`, `mapper` is `characterMapper.mapToDomainModel`. The walk requests
      pages 1, 2, 3, ... in turn, stops at the first page after which
      `hasMorePages` is false, and emits `Loading` followed by exactly one of:
      the error of that last page, or every page's characters in order. */
  method GetAllCharacters<R, C>(fetch: int -> NetworkResponse<PageBody<R>>, mapper: Option<R> -> C)
    returns (emitted: seq<NetworkResponse<seq<C>>>, requested: seq<int>)
    requires forall p :: !fetch(p).Loading?
    requires exists n :: 1 <= n && !Continues(n, fetch(n))
    ensures |requested| >= 1
    ensures forall i :: 0 <= i < |requested| ==> requested[i] == i + 1
    ensures forall q :: 1 <= q < |requested| ==> Continues(q, fetch(q))
    ensures !Continues(|requested|, fetch(|requested|))
    ensures emitted == [Loading, Outcome(fetch, mapper, |requested|)]
  {
    emitted := [Loading];
    requested := [];
    var allCharacters: seq<C> := [];
    var currentPage := 1;
    var hasMorePages := true;
    ghost var stop :| 1 <= stop && !Continues(stop, fetch(stop));
    while hasMorePages
      invariant |requested| <= stop
      invariant forall i :: 0 <= i < |requested| ==> requested[i] == i + 1
      invariant hasMorePages ==> currentPage == |requested| + 1 && |requested| < stop
      invariant hasMorePages ==> forall q :: 1 <= q <= |requested| ==> Continues(q, fetch(q))
      invariant hasMorePages ==> allCharacters == Collected(fetch, mapper, |requested|)
      invariant !hasMorePages ==>
        |requested| >= 1 &&
        (forall q :: 1 <= q < |requested| ==> Continues(q, fetch(q))) &&
        !Continues(|requested|, fetch(|requested|)) &&
        !fetch(|requested|).Error? &&
        allCharacters == Collected(fetch, mapper, |requested|)
      decreases stop - |requested|
    {
      var result := fetch(currentPage);
      requested := requested + [currentPage];
      match result
      case Success(data) =>
        if data.Some? && data.value.results.Some? {
          var characters := data.value.results.value;
          allCharacters := allCharacters + MapAll(characters, mapper);
          hasMorePages := |characters| > 0 && currentPage * DEFAULT_PAGE_SIZE < CountOf(data.value);
          currentPage := currentPage + 1;
        } else {
          hasMorePages := false;
        }
      case Error(message) =>
        emitted := emitted + [Error(message)];
        return;
      case Loading =>
        assert false;
    }
    emitted := emitted + [Success(Some(allCharacters))];
  }

  /** The count a page reports, 0 when it reports none. */
  function ReportedCount<R>(resp: NetworkResponse<PageBody<R>>): int
  {
    if resp.Success? && resp.data.Some? then CountOf(resp.data.value) else 0
  }

  /** ⌈count / 20⌉, and 1 when the count is not positive. */
  function MaxRequests(count: int): (r: int)
  {
    if count <= 0 then 1 else (count + DEFAULT_PAGE_SIZE - 1) / DEFAULT_PAGE_SIZE
  }

  /** When every page reports the same count, a walk of `n` requests (the
      first `n - 1` of which let it go on) makes at most ⌈count / 20⌉ requests,
      or one when the count is not positive. */
  lemma RequestsBounded<R>(fetch: int -> NetworkResponse<PageBody<R>>, count: int, n: int)
    requires 1 <= n
    requires forall q :: 1 <= q < n ==> Continues(q, fetch(q))
    requires forall q :: 1 <= q < n ==> ReportedCount(fetch(q)) == count
    ensures n <= MaxRequests(count)
  {
    if n >= 2 {
      assert Continues(n - 1, fetch(n - 1));
      assert (n - 1) * DEFAULT_PAGE_SIZE < count;
      assert n * DEFAULT_PAGE_SIZE <= count + DEFAULT_PAGE_SIZE - 1;
    }
  }

  /** The walk's result grows only at the end: the characters of the first
      `k` pages are a prefix of those of any longer walk. */
  lemma {:induction false} CollectedPrefix<R, C>(fetch: int -> NetworkResponse<PageBody<R>>, mapper: Option<R> -> C, k: nat, m: nat)
    requires k <= m
    ensures Collected(fetch, mapper, k) <= Collected(fetch, mapper, m)
    decreases m
  {
    if k < m {
      CollectedPrefix(fetch, mapper, k, m - 1);
    }
  }

  // ---------------------------------------------------------------------------
  // getEpisodes

  const EPISODE_REQUEST_LIMIT := 20

  /** The ids `getEpisodes` actually asks for: all of them, or the first 20. */
  function IdsToLoad(episodeIds: seq<string>): (r: seq<string>)
    ensures r <= episodeIds
    ensures |r| == if |episodeIds| > EPISODE_REQUEST_LIMIT then EPISODE_REQUEST_LIMIT else |episodeIds|
  {
    if |episodeIds| > EPISODE_REQUEST_LIMIT then episodeIds[..EPISODE_REQUEST_LIMIT] else episodeIds
  }

  /** The `{ids}` path segment of the episodes request. */
  function EpisodesPath(episodeIds: seq<string>): string
  {
    Join(IdsToLoad(episodeIds), ',')
  }

  /** The path names exactly the ids loaded, in order. */
  lemma EpisodesPathListsIds(episodeIds: seq<string>)
    requires episodeIds != [] && FreeOf(episodeIds, ',')
    ensures Split(EpisodesPath(episodeIds), ',') == IdsToLoad(episodeIds)
  {
    SplitJoin(IdsToLoad(episodeIds), ',');
  }

  datatype EpisodeResponse = EpisodeResponse(
    id: string, name: string, airDate: string, episode: string,
    characters: seq<string>, url: string, created: string)

  /** What the episodes call does: it answers with a status code, a body when
      successful and an error body otherwise, or it throws. `message` is the
      exception's `localizedMessage`. */
  datatype EpisodesCall =
    | Responded(successful: bool, code: Int32, body: Option<seq<EpisodeResponse>>, errorBody: Option<string>)
    | Threw(message: Option<string>)

  /** `mapToEpisode(response)`: fields copied, character URLs cut down to ids. */
  function MapToEpisode(response: EpisodeResponse): (e: Episode)
    ensures e.id == response.id && e.name == response.name
    ensures e.airDate == response.airDate && e.episodeCode == response.episode
    ensures |e.characterIds| == |response.characters|
    ensures forall i :: 0 <= i < |e.characterIds| ==>
      e.characterIds[i] == SubstringAfterLast(response.characters[i], '/')
    ensures forall i :: 0 <= i < |e.characterIds| ==>
      '/' !in e.characterIds[i] && IsSuffix(e.characterIds[i], response.characters[i]) &&
      ('/' !in response.characters[i] ==> e.characterIds[i] == response.characters[i]) &&
      ('/' in response.characters[i] ==>
         response.characters[i][|response.characters[i]| - |e.characterIds[i]| - 1] == '/')
  {
    Episode(response.id, response.name, response.airDate, response.episode, AfterLastSlashAll(response.characters))
  }

  /** `body.map { mapToEpisode(it) }` */
  function MapEpisodes(body: seq<EpisodeResponse>): (r: seq<Episode>)
    ensures |r| == |body|
    ensures forall i :: 0 <= i < |body| ==> r[i] == MapToEpisode(body[i])
  {
    seq(|body|, i requires 0 <= i < |body| => MapToEpisode(body[i]))
  }

  const ERROR_PREFIX := "Error "
  const EXCEPTION_PREFIX := "Excepción: "

  /** `"$x"` for a nullable string: the text, or "null". */
  function NullableText(s: Option<string>): string
  {
    s.GetOr("null")
  }

  /** `getEpisodes(ids)`: the emissions of the flow, `Loading` and then one
      result, for an API that answers the path with `api(path)`. */
  function GetEpisodes(episodeIds: seq<string>, api: string -> EpisodesCall): (r: seq<NetworkResponse<seq<Episode>>>)
    ensures |r| == 2 && r[0] == Loading && !r[1].Loading?
    ensures r[1].Success? <==> api(EpisodesPath(episodeIds)).Responded? && api(EpisodesPath(episodeIds)).successful
    ensures r[1].Success? ==> r[1].data == Some(MapEpisodes(api(EpisodesPath(episodeIds)).body.GetOr([])))
    ensures api(EpisodesPath(episodeIds)).Responded? && !api(EpisodesPath(episodeIds)).successful ==>
      r[1].Error? && ERROR_PREFIX + IntToString(api(EpisodesPath(episodeIds)).code) + ": " <= r[1].errorMessage
    ensures api(EpisodesPath(episodeIds)).Threw? ==> r[1].Error? && EXCEPTION_PREFIX <= r[1].errorMessage
  {
    var final := match api(EpisodesPath(episodeIds))
      case Threw(message) => Error(EXCEPTION_PREFIX + NullableText(message))
      case Responded(successful, code, body, errorBody) =>
        if successful then
          Success(Some(MapEpisodes(body.GetOr([]))))
        else
          Error(ERROR_PREFIX + IntToString(code) + ": " + NullableText(errorBody));
    [Loading, final]
  }
}
