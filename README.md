# Rick and Morty client: paging and filter logic in Dafny

This project models the decision logic under the Android client's Compose screens. That logic covers:

- how a characters or locations page load picks its REST request;
- how the page keys around that load are computed, and how a refresh key is recovered from them;
- how the home screen's filter cells resolve into one listing mode;
- how the detail screen loads episodes in windows of ten and keeps its set of viewed episodes;
- how the repository walks every character page and builds the bulk episode request;
- how the wire records are turned into domain records.

Network answers are never fetched. Each one is an input value: a function from the request (or page number) to what the call returned. A call that returns has a body that may be absent. A call that fails has an exception kind.

Modules follow the source files:

| module | models |
|---|---|
| `Kotlin` | `Int` wrap-around, `substringAfterLast`, `joinToString`, `Int.toString`, `filterNotNull`, plus partner definitions (`Split`, `ParseInt`) used to state round trips |
| `Network` | the shapes of responses: Retrofit call outcome, paginated envelope, `NetworkResponse` |
| `Domain` | `Character` (with its computed `episodeIds`), `Episode`, `Location`, `UiState` |
| `CharacterDto` | `CharacterResponse.toCharacter` |
| `LocationMapper` | `LocationMapper` |
| `Paging` | what both paging sources share: `LoadResult`, key defaulting, prev/next keys, `getRefreshKey`, the `catch` clauses |
| `CharactersPaging` | `CharactersPagingSource` |
| `LocationsPaging` | `LocationsPagingSource` |
| `Repository` | `RickAndMortyRepositoryImpl` |
| `Home` | `HomeViewModel` (a class over its five cells) and `FilterParams` |
| `CharacterDetail` | `CharacterDetailViewModel` (a class over its four cells) |

Three facts about the code that shape the model:

- The code cuts bulk episode fetches to the first 20 ids and does not split them into chunks.
- It has no generation counter and does not merge concurrent loads.
- The home listing restarts whenever any of its five cells changes value, the refresh counter included.

## Model

| member | source | states |
|---|---|---|
| `Kotlin.Increment` | app/src/main/java/com/arturo/rickandmorty/ui/home/HomeViewModel.kt:70 | `value++` on a 32-bit `Int` always yields a different value: one more, or the smallest `Int` after the largest |
| `Kotlin.SubstringAfterLast` | app/src/main/java/com/arturo/rickandmorty/domain/model/Character.kt:17 | the result is the suffix of the input after its last '/', free of '/', and the whole input when it has no '/' |
| `Kotlin.AfterLastSlashIdempotent` | app/src/main/java/com/arturo/rickandmorty/data/dto/CharacterResponse.kt:52-53 | stripping URLs to their trailing ids a second time changes nothing |
| `Kotlin.SplitJoin` | app/src/main/java/com/arturo/rickandmorty/data/repository/RickAndMortyRepositoryImpl.kt:166 | `joinToString(",")` loses nothing: splitting the joined text at ',' gives back the non-empty list of comma-free parts |
| `Kotlin.IntToStringRoundTrip` | app/src/main/java/com/arturo/rickandmorty/data/dto/CharacterResponse.kt:42 | `Int.toString()` is a decimal rendering that reads back as the same integer, negatives included |
| `Kotlin.NatToString` | app/src/main/java/com/arturo/rickandmorty/data/dto/CharacterResponse.kt:50 | the decimal rendering of a count is a canonical numeral: digits only, no leading zero, and it starts with '0' exactly when the count is 0 |
| `Kotlin.IntToString` | app/src/main/java/com/arturo/rickandmorty/data/dto/CharacterResponse.kt:42 | the rendering of an `Int` is a canonical numeral, with a leading '-' exactly for negative values and never "-0" |
| `Kotlin.CanonicalDigitsUnique` | app/src/main/java/com/arturo/rickandmorty/data/dto/CharacterResponse.kt:50 | each natural number has exactly one canonical numeral, the one `toString` writes |
| `Kotlin.IntToStringUnique` | app/src/main/java/com/arturo/rickandmorty/data/dto/CharacterResponse.kt:42 | a canonical numeral that reads back as n is `n.toString()`, so the rendering is fixed by the value alone |
| `Kotlin.FilterNotNull` | app/src/main/java/com/arturo/rickandmorty/domain/mapper/LocationMapper.kt:11 | `filterNotNull` keeps exactly the non-null entries: each kept value was in the input, and each non-null input value is kept |
| `Kotlin.FilterNotNullAppend` | app/src/main/java/com/arturo/rickandmorty/domain/mapper/LocationMapper.kt:11 | `filterNotNull` distributes over concatenation, so kept entries keep their original order |
| `Kotlin.FilterNotNullKeepsAll` | app/src/main/java/com/arturo/rickandmorty/domain/mapper/LocationMapper.kt:15 | on a list without nulls, `filterNotNull` (and so `mapNotNull` of a never-null mapper) keeps every entry, in place |
| `Domain.Character.EpisodeIds` | app/src/main/java/com/arturo/rickandmorty/domain/model/Character.kt:17 | one id per episode URL, same order; each id is a '/'-free suffix of its URL, preceded by '/' when the URL has one, and the URL itself when it has none |
| `CharacterDto.PlaceName` | app/src/main/java/com/arturo/rickandmorty/data/dto/CharacterResponse.kt:48-49 | origin and location are the nested name, or "Unknown" when the object or its name is null |
| `CharacterDto.IdString` | app/src/main/java/com/arturo/rickandmorty/data/dto/CharacterResponse.kt:42 | a null id becomes ""; any other id becomes a canonical numeral (no leading zero, no "-0") that parses back to the id, which by `IntToStringUnique` is exactly its `toString()` |
| `CharacterDto.ToCharacter` | app/src/main/java/com/arturo/rickandmorty/data/dto/CharacterResponse.kt:40-54 | every field of the record is defined for every input: name, gender, status and species default to "Unknown", image and created to ""; `episodes` is the canonical decimal count of episode URLs, equal to "0" exactly when there are none, so "0" for a null list; `episodeUrls` has one '/'-free trailing id per URL in order, empty when the list is null |
| `CharacterDto.EpisodeIdsOfMapped` | app/src/main/java/com/arturo/rickandmorty/domain/model/Character.kt:17 | for a record built by `toCharacter`, `episodeIds` equals `episodeUrls`, because the URLs were already stripped |
| `LocationMapper.MapToDomainModel` | app/src/main/java/com/arturo/rickandmorty/domain/mapper/LocationMapper.kt:8-12 | null input gives `Location(0, "", [])`; a null id gives 0 and a null name ""; residents are the non-null residents, or empty when the list is null |
| `LocationMapper.ToDomainList` | app/src/main/java/com/arturo/rickandmorty/domain/mapper/LocationMapper.kt:14-15 | a null list gives an empty list; otherwise one location per entry, same length and order, with null entries becoming default locations instead of being dropped |
| `LocationMapper.ResidentsInOrder` | app/src/main/java/com/arturo/rickandmorty/domain/mapper/LocationMapper.kt:11 | the residents of a list made of two parts are the first part's residents followed by the second's |
| `Paging.PageOf` | app/src/main/java/com/arturo/rickandmorty/data/paging/CharactersPagingSource.kt:38 | the requested page is the key, or 1 when there is no key |
| `Paging.PrevKey` | app/src/main/java/com/arturo/rickandmorty/data/paging/CharactersPagingSource.kt:54 | the previous key is null exactly when the page is 1, and otherwise page - 1 |
| `Paging.NextKey` | app/src/main/java/com/arturo/rickandmorty/data/paging/CharactersPagingSource.kt:50 | the next key is present exactly when `info.next` is present, and is then page + 1 |
| `Paging.KeyAround` | app/src/main/java/com/arturo/rickandmorty/data/paging/CharactersPagingSource.kt:21-22 | prevKey + 1 when there is a previous key, else nextKey - 1, else null |
| `Paging.RefreshKey` | app/src/main/java/com/arturo/rickandmorty/data/paging/CharactersPagingSource.kt:19-24 | null without an anchor position or without a closest page; otherwise the key recovered from the closest page's neighbours |
| `Paging.KeyAroundRecoversPage` | app/src/main/java/com/arturo/rickandmorty/data/paging/CharactersPagingSource.kt:50-55 | the keys a load writes around page p give back p, whenever at least one of them is present |
| `Paging.Caught` | app/src/main/java/com/arturo/rickandmorty/data/paging/CharactersPagingSource.kt:58-62 | I/O and HTTP exceptions become an error result; every other exception escapes `load` |
| `CharactersPaging.RequestFor` | app/src/main/java/com/arturo/rickandmorty/data/paging/CharactersPagingSource.kt:28-47 | no request exactly for an empty id set; a non-empty id set gives one bulk request on the ids joined by ','; otherwise the page is the key or 1, and the request is a name search iff the query is non-null and non-empty, else filtered iff status or species is set, else the plain listing (each as an iff) |
| `CharactersPaging.BulkPathListsIds` | app/src/main/java/com/arturo/rickandmorty/data/paging/CharactersPagingSource.kt:34 | the bulk request path lists the ids in input order: splitting it at ',' gives the id set back |
| `CharactersPaging.BulkPage` | app/src/main/java/com/arturo/rickandmorty/data/paging/CharactersPagingSource.kt:34-36 | a bulk answer becomes a page with both keys null holding one mapped character per response entry, or no characters when the body is missing; a thrown call goes through the catch clauses |
| `CharactersPaging.ListingPage` | app/src/main/java/com/arturo/rickandmorty/data/paging/CharactersPagingSource.kt:49-56 | a listing answer becomes a page of the mapped results (empty when body or results is missing) with the prev/next keys around the page; a null entry makes `!!` throw an exception that escapes |
| `CharactersPaging.Load` | app/src/main/java/com/arturo/rickandmorty/data/paging/CharactersPagingSource.kt:26-63 | an empty id set answers an empty page with both keys null and no call; an id-set page never has a neighbour, so there is no second page; other modes answer the listing page for the requested page |
| `CharactersPaging.MissingResultsGiveEmptyPage` | app/src/main/java/com/arturo/rickandmorty/data/paging/CharactersPagingSource.kt:49 | a listing response without a body or without results is an empty page, not an error |
| `CharactersPaging.RefreshKeyRecoversPage` | app/src/main/java/com/arturo/rickandmorty/data/paging/CharactersPagingSource.kt:19-24 | for a page `load` produced that has a neighbour, the refresh key is the page number that load used |
| `LocationsPaging.Load` | app/src/main/java/com/arturo/rickandmorty/data/paging/LocationsPagingSource.kt:22-39 | the page is the key or 1; the data is every results entry mapped by the mapper, same length and order (empty without a body); prev/next keys as for characters; I/O and HTTP exceptions give an error with no data |
| `LocationsPaging.RefreshKeyRecoversPage` | app/src/main/java/com/arturo/rickandmorty/data/paging/LocationsPagingSource.kt:15-20 | for a locations page with a neighbour, the refresh key is the page number its load used |
| `Home.SelectMode` | app/src/main/java/com/arturo/rickandmorty/ui/home/HomeViewModel.kt:38-47 | each mode holds iff its condition holds: search iff the query is non-empty; by-location iff the query is empty and ids are set; filtered iff the query is empty, ids are null and status or species is set; unfiltered otherwise |
| `Home.PagerFor` | app/src/main/java/com/arturo/rickandmorty/ui/home/HomeViewModel.kt:39-46 | each mode gets the pager of its repository call: page size 20, or for the by-location mode exactly the id count, and 1 for an empty id list, and a source holding exactly that mode's parameters |
| `Home.ModeReachesRequest` | app/src/main/java/com/arturo/rickandmorty/ui/home/HomeViewModel.kt:37-47 | the paging source behind the pager chosen for a mode issues the request of that same mode for every key, so the view-model's and the source's precedences agree |
| `Home.HomeViewModel.constructor` | app/src/main/java/com/arturo/rickandmorty/ui/home/HomeViewModel.kt:21-25 | the cells start as null ids, empty query, null filters and counter 0, which selects the unfiltered listing |
| `Home.HomeViewModel.GetMultipleCharacters` | app/src/main/java/com/arturo/rickandmorty/ui/home/HomeViewModel.kt:50-52 | sets ids to the list; query, status, species and counter are unchanged |
| `Home.HomeViewModel.ResetCharacters` | app/src/main/java/com/arturo/rickandmorty/ui/home/HomeViewModel.kt:54-56 | sets ids to null; nothing else changes; the by-location mode can no longer be selected |
| `Home.HomeViewModel.OnSearchQueryChanged` | app/src/main/java/com/arturo/rickandmorty/ui/home/HomeViewModel.kt:58-64 | sets the query; clears ids iff the query is non-empty, else leaves them; a non-empty query then makes search the mode |
| `Home.HomeViewModel.OnFiltersChanged` | app/src/main/java/com/arturo/rickandmorty/ui/home/HomeViewModel.kt:66-71 | sets query, status and species, bumps the counter, leaves ids; the cells always differ afterwards, so the listing restarts |
| `Home.HomeViewModel.RefreshCharacters` | app/src/main/java/com/arturo/rickandmorty/ui/home/HomeViewModel.kt:73-75 | only the counter changes: the filter tuple and mode are the same, yet the cells differ, so the same listing restarts |
| `Repository.CharactersPagingPager` | app/src/main/java/com/arturo/rickandmorty/data/repository/RickAndMortyRepositoryImpl.kt:31-44 | page size 20 and a source with no parameters, which requests the plain listing page for every key |
| `Repository.SearchCharactersPager` | app/src/main/java/com/arturo/rickandmorty/data/repository/RickAndMortyRepositoryImpl.kt:76-90 | page size 20 and a source holding only the name; for every key it requests a name search, or the plain listing when the name is empty |
| `Repository.CharactersWithFiltersPager` | app/src/main/java/com/arturo/rickandmorty/data/repository/RickAndMortyRepositoryImpl.kt:107-121 | page size 20 and a source holding only status and species; for every key it requests the filtered page, or the plain listing when neither filter is set |
| `Repository.CharactersByLocationPager` | app/src/main/java/com/arturo/rickandmorty/data/repository/RickAndMortyRepositoryImpl.kt:61-74 | the page size is exactly the id count, and 1 for an empty id list (the one case where the clamp acts); the source is built on the id set alone |
| `Repository.GetAllCharacters` | app/src/main/java/com/arturo/rickandmorty/data/repository/RickAndMortyRepositoryImpl.kt:123-150 | pages 1, 2, 3, ... are requested consecutively; every page but the last lets the walk go on, the last does not; the flow emits Loading, then either the last page's error or the in-order concatenation of every fetched page, never both |
| `Repository.RequestsBounded` | app/src/main/java/com/arturo/rickandmorty/data/repository/RickAndMortyRepositoryImpl.kt:136-137 | with a fixed reported count, the walk makes at most ⌈count/20⌉ requests, or one when the count is not positive |
| `Repository.CollectedPrefix` | app/src/main/java/com/arturo/rickandmorty/data/repository/RickAndMortyRepositoryImpl.kt:135 | `addAll` only appends: the characters of the first k pages are a prefix of those of any longer walk |
| `Repository.IdsToLoad` | app/src/main/java/com/arturo/rickandmorty/data/repository/RickAndMortyRepositoryImpl.kt:159-164 | the ids requested are a prefix of the given ids, of length min(count, 20) |
| `Repository.EpisodesPathListsIds` | app/src/main/java/com/arturo/rickandmorty/data/repository/RickAndMortyRepositoryImpl.kt:166 | the request path names exactly the ids loaded, in order |
| `Repository.MapToEpisode` | app/src/main/java/com/arturo/rickandmorty/data/repository/RickAndMortyRepositoryImpl.kt:188-197 | copies id, name, air date and code; one character id per character URL, same order, each the `substringAfterLast("/")` of its URL: a '/'-free suffix, preceded by '/' when the URL has one, and the whole URL when it has none |
| `Repository.MapEpisodes` | app/src/main/java/com/arturo/rickandmorty/data/repository/RickAndMortyRepositoryImpl.kt:170-172 | one episode per response entry, same length and order |
| `Repository.GetEpisodes` | app/src/main/java/com/arturo/rickandmorty/data/repository/RickAndMortyRepositoryImpl.kt:154-182 | emits Loading and then one result; success iff the call answered with a successful status, carrying the mapped body (empty when missing); an unsuccessful status gives an error beginning "Error <code>: "; a thrown exception gives one beginning "Excepción: " |
| `CharacterDetail.EpisodeWindow` | app/src/main/java/com/arturo/rickandmorty/ui/detail/CharacterDetailViewModel.kt:35-38 | the window of page p is the contiguous slice starting at (p-1)*10, ten long or cut at the end of the list |
| `CharacterDetail.WindowsTile` | app/src/main/java/com/arturo/rickandmorty/ui/detail/CharacterDetailViewModel.kt:35-38 | windows 1..n together are exactly the first 10n ids (or all of them), none skipped or repeated |
| `CharacterDetail.WindowNotTruncated` | app/src/main/java/com/arturo/rickandmorty/ui/detail/CharacterDetailViewModel.kt:42 | a window never reaches the repository's 20-id limit, so the request names all of its ids |
| `CharacterDetail.MergeEpisodes` | app/src/main/java/com/arturo/rickandmorty/ui/detail/CharacterDetailViewModel.kt:45-49 | page 1 replaces the list with the fetched episodes; a later page appends them behind the existing list, which stays as a prefix |
| `CharacterDetail.NextWindowAsWritten` | app/src/main/java/com/arturo/rickandmorty/ui/detail/CharacterDetailViewModel.kt:35-38 | the window `loadNextEpisodes` asks for is the one after the counter, and `subList` throws exactly when that window would start past the end of the list |
| `CharacterDetail.LoadMoreAfterFailedFirstWindowThrows` | app/src/main/java/com/arturo/rickandmorty/ui/detail/CharacterDetail.kt:181-184 | with 1 to 9 episode ids, a first window that failed (or has not answered yet) leaves the list empty and the counter at 1; the screen still offers "load more", and its tap throws |
| `CharacterDetail.AfterLoadNext` | app/src/main/java/com/arturo/rickandmorty/ui/detail/CharacterDetailViewModel.kt:62-64 | load-next as intended: the next page's `loadEpisodes` when its window is in range, otherwise the state unchanged |
| `CharacterDetail.LoadNextKeepsListed` | app/src/main/java/com/arturo/rickandmorty/ui/detail/CharacterDetailViewModel.kt:45-50 | the intended load-next never drops listed episodes: they stay a prefix of the new list, and the counter either stays or moves on by one |
| `CharacterDetail.OnlyFinalEmissionCounts` | app/src/main/java/com/arturo/rickandmorty/ui/detail/CharacterDetailViewModel.kt:42-57 | the Loading emission changes nothing, so a load is decided by its final emission alone |
| `CharacterDetail.LoadEpisodesEffect` | app/src/main/java/com/arturo/rickandmorty/ui/detail/CharacterDetailViewModel.kt:33-60 | an empty window changes nothing; a successful fetch merges the window's episodes and sets the counter to p; a failed one leaves list and counter unchanged |
| `CharacterDetail.Toggle` | app/src/main/java/com/arturo/rickandmorty/ui/detail/CharacterDetailViewModel.kt:88-94 | the id's membership flips and every other id's membership is unchanged |
| `CharacterDetail.ToggleTwice` | app/src/main/java/com/arturo/rickandmorty/ui/detail/CharacterDetailViewModel.kt:87-95 | toggling the same id twice restores the set |
| `CharacterDetail.UiStateFor` | app/src/main/java/com/arturo/rickandmorty/ui/detail/CharacterDetailViewModel.kt:69-81 | Loading sets only the spinner; Error sets only the message; Success sets only the data |
| `CharacterDetail.CharacterThenFirstEpisodes` | app/src/main/java/com/arturo/rickandmorty/ui/detail/CharacterDetailViewModel.kt:66-85 | Loading followed by a character with episodes, whose first episode page loads, leaves only the data set, the list replaced by that page's episodes, and the counter at 1 |
| `CharacterDetail.CharacterDetailViewModel.constructor` | app/src/main/java/com/arturo/rickandmorty/ui/detail/CharacterDetailViewModel.kt:21-31 | initial state: empty `UiState`, no episodes, empty viewed set, page counter 1 |
| `CharacterDetail.CharacterDetailViewModel.LoadEpisodes` | app/src/main/java/com/arturo/rickandmorty/ui/detail/CharacterDetailViewModel.kt:33-60 | the new list and counter are those of `LoadEpisodesEffect` applied to the old ones; character and viewed set are untouched |
| `CharacterDetail.CharacterDetailViewModel.LoadNextEpisodes` | app/src/main/java/com/arturo/rickandmorty/ui/detail/CharacterDetailViewModel.kt:62-64 | the new list and counter are `AfterLoadNext` of the old ones: page counter + 1 is loaded when its window is in range, otherwise nothing changes; character and viewed set are untouched |
| `CharacterDetail.CharacterDetailViewModel.GetCharacter` | app/src/main/java/com/arturo/rickandmorty/ui/detail/CharacterDetailViewModel.kt:66-85 | each emission replaces the character state by `UiStateFor`, and a received character loads episode page 1; the viewed set is untouched |
| `CharacterDetail.CharacterDetailViewModel.ToggleEpisodeViewed` | app/src/main/java/com/arturo/rickandmorty/ui/detail/CharacterDetailViewModel.kt:87-95 | the viewed set becomes `Toggle` of the old one; nothing else changes |

## Left out

- Compose screens, navigation, theming, map screens: these are layout and floating-point map code.
- The `androidx.paging` machinery (`Pager`, `cachedIn`, `flatMapLatest` cancellation, load-state propagation) is library code. A pager is reduced to its page size and its source's parameters.
- Coroutines and flows. `viewModelScope.launch` and `collect` are modelled as handling the emissions in order, one after another. The episode load started from `getCharacter` runs to completion before the next emission is handled. Two concurrent `loadEpisodes` calls are not modelled.
- Retrofit and `safeApiCall`. API answers are parameters. A non-2xx response reaches the paging sources as a missing body, because `Response.body()` is null then.
- `CharacterMapper` and `RickAndMortyResponse` are not part of this model. `getAllCharacters` takes the mapper as a parameter. The paginated envelope's nullable `info`, `count`, `next` and `results` are inferred from how the code reads them.
- `LocationResponse` is not part of this model. Only the three fields the mapper reads are declared.
- `getCharacter` and `getLocations` in the repository are not modelled. They only wrap the character mapper or the locations pager and carry no logic of their own. (`getCharactersPaging` is modelled by `Repository.CharactersPagingPager`.)
- `println` logging in `getEpisodes` and `loadEpisodes` is not modelled.
- Page-key arithmetic (`page + 1`, `page - 1`, `currentPage * 20`, `_episodePage.value + 1`) uses unbounded integers. 32-bit overflow is modelled only for the refresh counter, where it matters: the counter must change value on every bump.
- Repository.GetAllCharacters: requires that `safeApiCall` never answers `Loading`. On such an answer the code would request the same page again without end.
- Repository.GetAllCharacters: requires that some page ends the walk. Against an upstream whose every page lets the walk go on, the code never terminates, and that case is not modelled.
- CharacterDetail.CharacterDetailViewModel.LoadEpisodes: requires page ≥ 1 and (page − 1)·10 ≤ the number of ids. Otherwise `subList` throws inside the coroutine, and that crash is not modelled. `getCharacter` always calls it with page 1, which is in range; `loadNextEpisodes` can call it out of range (see Findings).
- CharacterDetail.CharacterDetailViewModel.LoadNextEpisodes: models the intended behaviour, which skips a window that starts past the end. The code as written calls `subList` there and throws, and the screen reaches that state (see Findings). The crash itself is shown by `CharacterDetail.NextWindowAsWritten` and `CharacterDetail.LoadMoreAfterFailedFirstWindowThrows`, not by the class.

## Findings

| source | as written | input that shows it | evidently intended | confidence | as-written member | corrected member |
|---|---|---|---|---|---|---|
| app/src/main/java/com/arturo/rickandmorty/ui/detail/CharacterDetailViewModel.kt:62-64 | `loadNextEpisodes` requests page counter + 1 unconditionally. `loadEpisodes` then calls `subList((page - 1) * 10, …)`, which throws when that start is past the end. The counter only moves on a successful load (line 50), while the screen offers "load more" whenever fewer episodes are listed than ids (CharacterDetail.kt:181-184). | A character with 3 episode ids whose first episodes request fails or is still pending: the list is empty, the counter is 1, and "load more" is shown. The tap calls `subList(10, 3)`. | A window that starts past the end is not requested; the state is kept | medium, not executed | `CharacterDetail.LoadMoreAfterFailedFirstWindowThrows` | `CharacterDetail.AfterLoadNext` |
