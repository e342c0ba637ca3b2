/** Domain model: the records the screens render. */
module Domain {
  import opened Kotlin

  datatype Character = Character(
    id: string,
    name: string,
    image: string,
    gender: string,
    status: string,
    species: string,
    origin: string,
    location: string,
    episodes: string,
    created: string,
    episodeUrls: seq<string>)
  {
    /** The computed property `episodeIds`: each entry of `episodeUrls` cut down
        to what follows its last '/'. */
    function EpisodeIds(): (r: seq<string>)
      ensures |r| == |episodeUrls|
      ensures forall i :: 0 <= i < |r| ==>
        '/' !in r[i] &&
        IsSuffix(r[i], episodeUrls[i]) &&
        ('/' !in episodeUrls[i] ==> r[i] == episodeUrls[i]) &&
        ('/' in episodeUrls[i] ==> episodeUrls[i][|episodeUrls[i]| - |r[i]| - 1] == '/')
    {
      AfterLastSlashAll(episodeUrls)
    }
  }

  datatype Episode = Episode(id: string, name: string, airDate: string, episodeCode: string, characterIds: seq<string>)

  datatype Location = Location(id: int, name: string, residents: seq<string>)

  /** What a detail screen shows: data, an error message, a spinner. */
  datatype UiState<T> = UiState(data: Option<T>, errorMessage: Option<string>, isLoading: bool)

  /** `UiState.initial()`, also `UiState()` with every field at its default. */
  function InitialUiState<T>(): UiState<T>
  {
    UiState(None, None, false)
  }
}
