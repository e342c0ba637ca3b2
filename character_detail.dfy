/** `CharacterDetailViewModel`: the character shown, its episodes loaded ten at
    a time, and the set of episodes the user marked as viewed. */
module CharacterDetail {
  import opened Kotlin
  import opened Network
  import opened Domain
  import opened Repository

  const EPISODE_PAGE_SIZE := 10

  // ---------------------------------------------------------------------------
  // Episode windows

  /** `startIndex` for a page. */
  function WindowStart(page: int): int
  {
    (page - 1) * EPISODE_PAGE_SIZE
  }

  /** What `subList(startIndex, endIndex)` needs not to throw: a page of at
      least 1 whose window does not start past the end of the list. */
  predicate WindowInRange(episodeIds: seq<string>, page: int)
  {
    1 <= page && WindowStart(page) <= |episodeIds|
  }

  /** The ids of page `page`: the slice starting at `(page - 1) * 10` that is
      ten long, or shorter where the list ends. */
  function EpisodeWindow(episodeIds: seq<string>, page: int): (r: seq<string>)
    requires WindowInRange(episodeIds, page)
    ensures |r| <= EPISODE_PAGE_SIZE
    ensures |r| == if WindowStart(page) + EPISODE_PAGE_SIZE <= |episodeIds| then EPISODE_PAGE_SIZE
                   else |episodeIds| - WindowStart(page)
    ensures forall i :: 0 <= i < |r| ==> r[i] == episodeIds[WindowStart(page) + i]
  {
    var startIndex := WindowStart(page);
    var endIndex := if startIndex + EPISODE_PAGE_SIZE < |episodeIds| then startIndex + EPISODE_PAGE_SIZE else |episodeIds|;
    episodeIds[startIndex..endIndex]
  }

  /** The ids of pages 1..`n` in page order. */
  function Windows(episodeIds: seq<string>, n: nat): seq<string>
    requires n == 0 || WindowInRange(episodeIds, n)
  {
    if n == 0 then [] else Windows(episodeIds, n - 1) + EpisodeWindow(episodeIds, n)
  }

  /** The windows tile the list: pages 1..`n` together are its first `10 n` ids,
      with no id skipped or repeated. */
  lemma {:induction false} WindowsTile(episodeIds: seq<string>, n: nat)
    requires n == 0 || WindowInRange(episodeIds, n)
    ensures Windows(episodeIds, n) ==
      episodeIds[..if n * EPISODE_PAGE_SIZE <= |episodeIds| then n * EPISODE_PAGE_SIZE else |episodeIds|]
  {
    if n > 0 {
      WindowsTile(episodeIds, n - 1);
      var before := Windows(episodeIds, n - 1);
      var window := EpisodeWindow(episodeIds, n);
      var end := if n * EPISODE_PAGE_SIZE <= |episodeIds| then n * EPISODE_PAGE_SIZE else |episodeIds|;
      assert before == episodeIds[..WindowStart(n)];
      assert before + window == episodeIds[..end];
    }
  }

  /** A window is never cut by the repository's 20-id limit: the episodes
      request names exactly the window's ids. */
  lemma WindowNotTruncated(episodeIds: seq<string>, page: int)
    requires WindowInRange(episodeIds, page)
    ensures IdsToLoad(EpisodeWindow(episodeIds, page)) == EpisodeWindow(episodeIds, page)
    ensures EpisodesPath(EpisodeWindow(episodeIds, page)) == Join(EpisodeWindow(episodeIds, page), ',')
  {
  }

  // ---------------------------------------------------------------------------
  // Episode list state

  /** The two cells `loadEpisodes` writes. */
  datatype EpisodeState = EpisodeState(episodes: seq<Episode>, page: int)

  /** The new list after a successful response for `page`: page 1 replaces
      the list, any later page is appended behind what is there. */
  function MergeEpisodes(current: seq<Episode>, page: int, data: Option<seq<Episode>>): (r: seq<Episode>)
    ensures page == 1 ==> r == data.GetOr([])
    ensures page != 1 ==> |r| == |current| + |data.GetOr([])|
    ensures page != 1 ==> r[..|current|] == current && r[|current|..] == data.GetOr([])
  {
    if page == 1 then data.GetOr([]) else current + data.GetOr([])
  }

  /** One emission of `getEpisodes` as `collect` handles it: a success merges
      and records the page, anything else changes nothing. */
  function OnEpisodesResponse(st: EpisodeState, page: int, response: NetworkResponse<seq<Episode>>): EpisodeState
  {
    match response
    case Success(data) => EpisodeState(MergeEpisodes(st.episodes, page, data), page)
    case _ => st
  }

  /** The emissions handled in order. */
  function AfterResponses(st: EpisodeState, page: int, responses: seq<NetworkResponse<seq<Episode>>>): EpisodeState
  {
    if responses == [] then st
    else OnEpisodesResponse(AfterResponses(st, page, responses[..|responses| - 1]), page, responses[|responses| - 1])
  }

  /** `loadEpisodes(ids, page)` as a function of the state before it: an empty
      window returns at once, otherwise the window's episodes are fetched. */
  function AfterLoadEpisodes(st: EpisodeState, episodeIds: seq<string>, page: int, api: string -> EpisodesCall): EpisodeState
    requires WindowInRange(episodeIds, page)
  {
    var window := EpisodeWindow(episodeIds, page);
    if window == [] then st else AfterResponses(st, page, GetEpisodes(window, api))
  }

  /** The outcome of one `loadEpisodes`. An empty window changes nothing. A
      successful fetch makes `page` the page counter and either replaces the
      list (page 1) or appends the fetched episodes behind it. A failed fetch
      leaves both the list and the counter as they were. */
  lemma LoadEpisodesEffect(st: EpisodeState, episodeIds: seq<string>, page: int, api: string -> EpisodesCall)
    requires WindowInRange(episodeIds, page)
    ensures EpisodeWindow(episodeIds, page) == [] ==> AfterLoadEpisodes(st, episodeIds, page, api) == st
    ensures
      var window := EpisodeWindow(episodeIds, page);
      var call := api(Join(window, ','));
      window != [] && call.Responded? && call.successful ==>
        AfterLoadEpisodes(st, episodeIds, page, api) ==
        EpisodeState(MergeEpisodes(st.episodes, page, Some(MapEpisodes(call.body.GetOr([])))), page)
    ensures
      var window := EpisodeWindow(episodeIds, page);
      var call := api(Join(window, ','));
      window != [] && !(call.Responded? && call.successful) ==> AfterLoadEpisodes(st, episodeIds, page, api) == st
  {
    var window := EpisodeWindow(episodeIds, page);
    if window != [] {
      WindowNotTruncated(episodeIds, page);
      var rs := GetEpisodes(window, api);
      assert rs == [Loading, rs[1]];
      OnlyFinalEmissionCounts(st, page, rs[1]);
    }
  }

  /** `Loading` changes nothing, so the two emissions of `getEpisodes` act as the final one alone. */
  lemma OnlyFinalEmissionCounts(st: EpisodeState, page: int, final: NetworkResponse<seq<Episode>>)
    ensures AfterResponses(st, page, [Loading, final]) == OnEpisodesResponse(st, page, final)
  {
    var rs: seq<NetworkResponse<seq<Episode>>> := [Loading, final];
    var first: seq<NetworkResponse<seq<Episode>>> := [Loading];
    assert first[..0] == [];
    assert AfterResponses(st, page, first) == st;
    assert rs[..1] == first;
  }

  // ---------------------------------------------------------------------------
  // Loading the next window

  /** The detail screen offers "load more" while fewer episodes are listed than
      the character has episode ids. */
  predicate OffersMore(st: EpisodeState, episodeIds: seq<string>)
  {
    |st.episodes| < |episodeIds|
  }

  /** `loadNextEpisodes(ids)` as written: the window of the page after the
      counter, or `None` where `subList` throws because that window would start
      past the end of the list. */
  function NextWindowAsWritten(episodeIds: seq<string>, st: EpisodeState): (r: Option<seq<string>>)
    ensures r.None? <==> !WindowInRange(episodeIds, st.page + 1)
    ensures r.Some? ==> r.value == EpisodeWindow(episodeIds, st.page + 1)
  {
    if WindowInRange(episodeIds, st.page + 1) then Some(EpisodeWindow(episodeIds, st.page + 1)) else None
  }

  /** The screen reaches the throwing case. Before the first window has answered,
      or after it failed, the list is empty and the counter is still 1. With one
      to nine episode ids the screen still offers "load more", and the tap asks
      for a second window that starts past the end. */
  lemma LoadMoreAfterFailedFirstWindowThrows(episodeIds: seq<string>, api: string -> EpisodesCall)
    requires 1 <= |episodeIds| < EPISODE_PAGE_SIZE
    requires !(api(Join(episodeIds, ',')).Responded? && api(Join(episodeIds, ',')).successful)
    ensures OffersMore(EpisodeState([], 1), episodeIds)
    ensures NextWindowAsWritten(episodeIds, EpisodeState([], 1)).None?
    ensures AfterLoadEpisodes(EpisodeState([], 1), episodeIds, 1, api) == EpisodeState([], 1)
  {
    assert EpisodeWindow(episodeIds, 1) == episodeIds;
    LoadEpisodesEffect(EpisodeState([], 1), episodeIds, 1, api);
  }

  /** `loadNextEpisodes(ids)` as evidently intended: once the next window would
      start past the end there is nothing more to load, and the state is kept. */
  function AfterLoadNext(st: EpisodeState, episodeIds: seq<string>, api: string -> EpisodesCall): (r: EpisodeState)
    ensures !WindowInRange(episodeIds, st.page + 1) ==> r == st
    ensures WindowInRange(episodeIds, st.page + 1) ==> r == AfterLoadEpisodes(st, episodeIds, st.page + 1, api)
  {
    if WindowInRange(episodeIds, st.page + 1) then AfterLoadEpisodes(st, episodeIds, st.page + 1, api) else st
  }

  /** With the intended load-next, "load more" never throws and never drops
      what is listed. The listed episodes stay a prefix of the new list. The
      counter moves on by one exactly when the next window was fetched
      successfully, and otherwise stays. */
  lemma LoadNextKeepsListed(st: EpisodeState, episodeIds: seq<string>, api: string -> EpisodesCall)
    requires st.page >= 1
    ensures |AfterLoadNext(st, episodeIds, api).episodes| >= |st.episodes|
    ensures AfterLoadNext(st, episodeIds, api).episodes[..|st.episodes|] == st.episodes
    ensures AfterLoadNext(st, episodeIds, api).page == st.page ||
            AfterLoadNext(st, episodeIds, api).page == st.page + 1
  {
    if WindowInRange(episodeIds, st.page + 1) {
      LoadEpisodesEffect(st, episodeIds, st.page + 1, api);
    }
  }

  // ---------------------------------------------------------------------------
  // Viewed episodes

  /** The set after `toggleEpisodeViewed(id)`: `id`'s membership flips and no
      other id's membership changes. */
  function Toggle(viewed: set<string>, id: string): (r: set<string>)
    ensures id in r <==> id !in viewed
    ensures forall x :: x != id ==> (x in r <==> x in viewed)
  {
    if id in viewed then viewed - {id} else viewed + {id}
  }

  /** Toggling the same id twice restores the set. */
  lemma ToggleTwice(viewed: set<string>, id: string)
    ensures Toggle(Toggle(viewed, id), id) == viewed
  {
    var once := Toggle(viewed, id);
    var twice := Toggle(once, id);
    assert forall x :: x in twice <==> x in viewed;
  }

  // ---------------------------------------------------------------------------
  // Character state

  /** The character cell for one emission of `getCharacter`: a fresh
      `UiState()` with exactly one field set. */
  function UiStateFor(response: NetworkResponse<Character>): (u: UiState<Character>)
    ensures response.Loading? ==> u.isLoading && u.data.None? && u.errorMessage.None?
    ensures response.Error? ==> !u.isLoading && u.data.None? && u.errorMessage == Some(response.errorMessage)
    ensures response.Success? ==> !u.isLoading && u.errorMessage.None? && u.data == response.data
  {
    match response
    case Loading => UiState(None, None, true)
    case Error(message) => UiState(None, Some(message), false)
    case Success(data) => UiState(data, None, false)
  }

  /** Everything the detail screen shows but the viewed set. */
  datatype DetailView = DetailView(character: UiState<Character>, episodes: EpisodeState)

  /** One emission of `getCharacter` as `collect` handles it: the character
      cell is replaced, and a character that arrived loads its first episode page. */
  function OnCharacterResponse(v: DetailView, response: NetworkResponse<Character>, api: string -> EpisodesCall): DetailView
  {
    var ui := UiStateFor(response);
    if response.Success? && response.data.Some?
    then DetailView(ui, AfterLoadEpisodes(v.episodes, response.data.value.EpisodeIds(), 1, api))
    else DetailView(ui, v.episodes)
  }

  function AfterCharacterResponses(v: DetailView, responses: seq<NetworkResponse<Character>>, api: string -> EpisodesCall): DetailView
  {
    if responses == [] then v
    else OnCharacterResponse(AfterCharacterResponses(v, responses[..|responses| - 1], api), responses[|responses| - 1], api)
  }

  /** The usual run: `Loading`, then a character with episodes, whose first
      episode page is fetched successfully. The screen ends with only the
      character set, episodes replaced by that first page, and counter 1. */
  lemma CharacterThenFirstEpisodes(v: DetailView, c: Character, api: string -> EpisodesCall)
    requires |c.episodeUrls| >= 1
    requires api(Join(EpisodeWindow(c.EpisodeIds(), 1), ',')).Responded?
    requires api(Join(EpisodeWindow(c.EpisodeIds(), 1), ',')).successful
    ensures
      var after := AfterCharacterResponses(v, [Loading, Success(Some(c))], api);
      var fetched := api(Join(EpisodeWindow(c.EpisodeIds(), 1), ',')).body.GetOr([]);
      && after.character == UiState(Some(c), None, false)
      && after.episodes.page == 1
      && |after.episodes.episodes| == |fetched|
      && forall i :: 0 <= i < |fetched| ==> after.episodes.episodes[i] == MapToEpisode(fetched[i])
  {
    var rs: seq<NetworkResponse<Character>> := [Loading, Success(Some(c))];
    assert rs[..1] == [Loading];
    assert rs[..1][..0] == [];
    var mid := AfterCharacterResponses(v, rs[..1], api);
    LoadEpisodesEffect(mid.episodes, c.EpisodeIds(), 1, api);
  }

  class CharacterDetailViewModel {
    var character: UiState<Character>
    var episodes: seq<Episode>
    var viewedEpisodes: set<string>
    var episodePage: int

    constructor ()
      ensures character == InitialUiState() && episodes == [] && viewedEpisodes == {} && episodePage == 1
    {
      character := InitialUiState();
      episodes := [];
      viewedEpisodes := {};
      episodePage := 1;
    }

    function EpisodeView(): EpisodeState
      reads this
    {
      EpisodeState(episodes, episodePage)
    }

    function View(): DetailView
      reads this
    {
      DetailView(character, EpisodeView())
    }

    /** `loadEpisodes(ids, page)` with the repository's `getEpisodes` answering
      through `api`. */
    method LoadEpisodes(episodeIds: seq<string>, page: int, api: string -> EpisodesCall)
      requires WindowInRange(episodeIds, page)
      modifies this
      ensures EpisodeView() == AfterLoadEpisodes(old(EpisodeView()), episodeIds, page, api)
      ensures character == old(character) && viewedEpisodes == old(viewedEpisodes)
    {
      var paginatedIds := EpisodeWindow(episodeIds, page);
      if paginatedIds == [] {
        return;
      }
      var responses := GetEpisodes(paginatedIds, api);
      var i := 0;
      while i < |responses|
        invariant 0 <= i <= |responses|
        invariant EpisodeView() == AfterResponses(old(EpisodeView()), page, responses[..i])
        invariant character == old(character) && viewedEpisodes == old(viewedEpisodes)
      {
        assert responses[..i + 1][..i] == responses[..i];
        match responses[i] {
          case Success(data) =>
            episodes := if page == 1 then data.GetOr([]) else episodes + data.GetOr([]);
            episodePage := page;
          case Error(_) =>
          case Loading =>
        }
        i := i + 1;
      }
      assert responses[..i] == responses;
    }

    /** `loadNextEpisodes(ids)`: the page after the counter, skipped when its
      window would start past the end of the list (where the code as written
      throws from `subList`). */
    method LoadNextEpisodes(episodeIds: seq<string>, api: string -> EpisodesCall)
      modifies this
      ensures EpisodeView() == AfterLoadNext(old(EpisodeView()), episodeIds, api)
      ensures character == old(character) && viewedEpisodes == old(viewedEpisodes)
    {
      if WindowInRange(episodeIds, episodePage + 1) {
        LoadEpisodes(episodeIds, episodePage + 1, api);
      }
    }

    /** `getCharacter(id)`, with `getCharacter(id)` giving the repository
      flow's emissions. */
    method GetCharacter(id: string, getCharacter: string -> seq<NetworkResponse<Character>>, api: string -> EpisodesCall)
      modifies this
      ensures View() == AfterCharacterResponses(old(View()), getCharacter(id), api)
      ensures viewedEpisodes == old(viewedEpisodes)
    {
      var responses := getCharacter(id);
      var i := 0;
      while i < |responses|
        invariant 0 <= i <= |responses|
        invariant View() == AfterCharacterResponses(old(View()), responses[..i], api)
        invariant viewedEpisodes == old(viewedEpisodes)
      {
        assert responses[..i + 1][..i] == responses[..i];
        var response := responses[i];
        match response {
          case Loading =>
            character := UiState(None, None, true);
          case Error(message) =>
            character := UiState(None, Some(message), false);
          case Success(data) =>
            character := UiState(data, None, false);
            if data.Some? {
              LoadEpisodes(data.value.EpisodeIds(), 1, api);
            }
        }
        i := i + 1;
      }
      assert responses[..i] == responses;
    }

    /** `toggleEpisodeViewed(id)` */
    method ToggleEpisodeViewed(episodeId: string)
      modifies this
      ensures viewedEpisodes == Toggle(old(viewedEpisodes), episodeId)
      ensures View() == old(View())
    {
      viewedEpisodes := if episodeId in viewedEpisodes then viewedEpisodes - {episodeId} else viewedEpisodes + {episodeId};
    }
  }
}
