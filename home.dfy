/** `HomeViewModel`: five state cells edited by user intents, and the rule that
    resolves them into one listing mode. */
module Home {
  import opened Kotlin
  import opened CharactersPaging
  import opened Paging
  import opened Repository

  /** The tuple the characters flow is keyed by. The refresh counter is not
      part of it. */
  datatype FilterParams = FilterParams(ids: Option<seq<string>>, query: string, status: Option<string>, species: Option<string>)

  /** The four listing modes, one per repository call. */
  datatype QueryMode =
    | SearchMode(name: string)
    | LocationMode(ids: seq<string>)
    | FilterMode(status: Option<string>, species: Option<string>)
    | UnfilteredMode

  /** The `when` inside `characters`: a non-empty query wins, then an id set,
      then a status or species filter, then the unfiltered listing. */
  function SelectMode(p: FilterParams): (m: QueryMode)
    ensures m.SearchMode? <==> p.query != ""
    ensures m.SearchMode? ==> m.name == p.query
    ensures m.LocationMode? <==> p.query == "" && p.ids.Some?
    ensures m.LocationMode? ==> m.ids == p.ids.value
    ensures m.FilterMode? <==> p.query == "" && p.ids.None? && (p.status.Some? || p.species.Some?)
    ensures m.FilterMode? ==> m.status == p.status && m.species == p.species
    ensures m.UnfilteredMode? <==> p.query == "" && p.ids.None? && p.status.None? && p.species.None?
  {
    if p.query != "" then SearchMode(p.query)
    else if p.ids.Some? then LocationMode(p.ids.value)
    else if p.status.Some? || p.species.Some? then FilterMode(p.status, p.species)
    else UnfilteredMode
  }

  /** The repository call `flatMapLatest` switches to for a mode. */
  function PagerFor(m: QueryMode): (r: Pager)
    ensures m.LocationMode? ==> r.pageSize == if |m.ids| == 0 then 1 else |m.ids|
    ensures !m.LocationMode? ==> r.pageSize == 20
    ensures m.SearchMode? ==> r.source == Source(None, Some(m.name), None, None)
    ensures m.LocationMode? ==> r.source == Source(Some(m.ids), None, None, None)
    ensures m.FilterMode? ==> r.source == Source(None, None, m.status, m.species)
    ensures m.UnfilteredMode? ==> r.source == Source(None, None, None, None)
  {
    match m
    case SearchMode(name) => SearchCharactersPager(name)
    case LocationMode(ids) => CharactersByLocationPager(ids)
    case FilterMode(status, species) => CharactersWithFiltersPager(status, species)
    case UnfilteredMode => CharactersPagingPager()
  }

  /** The mode chosen here is the mode the paging source behind its pager
      dispatches to: the view-model's precedence and the source's precedence
      agree on every input, for every page key. */
  lemma ModeReachesRequest(p: FilterParams, key: Option<int>)
    ensures
      var request := RequestFor(PagerFor(SelectMode(p)).source, key);
      match SelectMode(p)
      case SearchMode(name) => request == Some(SearchByName(name, PageOf(key)))
      case LocationMode(ids) =>
        if ids == [] then request.None? else request == Some(GetMultiple(Join(ids, ',')))
      case FilterMode(status, species) => request == Some(GetFiltered(PageOf(key), status, species))
      case UnfilteredMode => request == Some(GetAll(PageOf(key)))
  {
  }

  /** The values of the five cells, the inputs of `combine`. A new emission,
      and so a restart of the listing, happens whenever this tuple changes. */
  datatype Cells = Cells(params: FilterParams, refresh: Int32)

  class HomeViewModel {
    var characterIds: Option<seq<string>>
    var searchQuery: string
    var statusFilter: Option<string>
    var speciesFilter: Option<string>
    var triggerRefresh: Int32

    constructor ()
      ensures characterIds.None? && searchQuery == "" && statusFilter.None? && speciesFilter.None?
      ensures triggerRefresh == 0
      ensures Mode() == UnfilteredMode
    {
      characterIds := None;
      searchQuery := "";
      statusFilter := None;
      speciesFilter := None;
      triggerRefresh := 0;
    }

    function Params(): FilterParams
      reads this
    {
      FilterParams(characterIds, searchQuery, statusFilter, speciesFilter)
    }

    function State(): Cells
      reads this
    {
      Cells(Params(), triggerRefresh)
    }

    /** The listing mode the cells currently select; the counter plays no part. */
    function Mode(): QueryMode
      reads this
    {
      SelectMode(Params())
    }

    /** `getMultipleCharacters(ids)`: only the id cell changes. */
    method GetMultipleCharacters(ids: seq<string>)
      modifies this
      ensures characterIds == Some(ids)
      ensures searchQuery == old(searchQuery) && statusFilter == old(statusFilter)
      ensures speciesFilter == old(speciesFilter) && triggerRefresh == old(triggerRefresh)
      ensures searchQuery == "" ==> Mode() == LocationMode(ids)
    {
      characterIds := Some(ids);
    }

    /** `resetCharacters()`: only the id cell changes, back to null. */
    method ResetCharacters()
      modifies this
      ensures characterIds.None?
      ensures searchQuery == old(searchQuery) && statusFilter == old(statusFilter)
      ensures speciesFilter == old(speciesFilter) && triggerRefresh == old(triggerRefresh)
      ensures !Mode().LocationMode?
    {
      characterIds := None;
    }

    /** `onSearchQueryChanged(query)`: sets the query; a non-empty one also
      drops the id set, an empty one leaves it as it was. */
    method OnSearchQueryChanged(query: string)
      modifies this
      ensures searchQuery == query
      ensures query != "" ==> characterIds.None?
      ensures query == "" ==> characterIds == old(characterIds)
      ensures statusFilter == old(statusFilter) && speciesFilter == old(speciesFilter)
      ensures triggerRefresh == old(triggerRefresh)
      ensures query != "" ==> Mode() == SearchMode(query)
    {
      searchQuery := query;
      if query != "" {
        characterIds := None;
      }
    }

    /** `onFiltersChanged(query, status, species)`: sets three cells and bumps
      the counter, so the listing restarts even when the three values are the
      ones already held. The id set is left alone. */
    method OnFiltersChanged(query: string, status: Option<string>, species: Option<string>)
      modifies this
      ensures searchQuery == query && statusFilter == status && speciesFilter == species
      ensures characterIds == old(characterIds)
      ensures triggerRefresh == Increment(old(triggerRefresh))
      ensures State() != old(State())
    {
      searchQuery := query;
      statusFilter := status;
      speciesFilter := species;
      triggerRefresh := Increment(triggerRefresh);
    }

    /** `refreshCharacters()`: only the counter changes, so the same mode is
      listed again from its first page. */
    method RefreshCharacters()
      modifies this
      ensures triggerRefresh == Increment(old(triggerRefresh))
      ensures Params() == old(Params())
      ensures Mode() == old(Mode())
      ensures State() != old(State())
    {
      triggerRefresh := Increment(triggerRefresh);
    }
  }
}
