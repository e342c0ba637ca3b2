/** The wire form of a character and its conversion to the domain record. */
module CharacterDto {
  import opened Kotlin
  import opened Domain

  datatype LocationOrOrigin = LocationOrOrigin(name: Option<string>, url: Option<string>)

  datatype CharacterResponse = CharacterResponse(
    created: Option<string>,
    episode: Option<seq<string>>,
    gender: Option<string>,
    id: Option<Int32>,
    image: Option<string>,
    location: Option<LocationOrOrigin>,
    name: Option<string>,
    origin: Option<LocationOrOrigin>,
    species: Option<string>,
    status: Option<string>,
    typeName: Option<string>,
    url: Option<string>)

  const UNKNOWN := "Unknown"

  /** `place?.name ?: "Unknown"` */
  function PlaceName(place: Option<LocationOrOrigin>): (r: string)
    ensures place.Some? && place.value.name.Some? ==> r == place.value.name.value
    ensures place.None? || place.value.name.None? ==> r == UNKNOWN
  {
    if place.Some? && place.value.name.Some? then place.value.name.value else UNKNOWN
  }

  /** Number of episode URLs, a missing list counting as none. */
  function EpisodeCount(c: CharacterResponse): nat
  {
    if c.episode.Some? then |c.episode.value| else 0
  }

  /** `id?.toString() ?: ""` */
  function IdString(id: Option<Int32>): (r: string)
    ensures id.None? ==> r == ""
    ensures id.Some? ==> r != "" && ParseInt(r) == Some(id.value as int)
    // and written the one way `toString` writes it: no leading zero, no "-0"
    ensures id.Some? ==> CanonicalInt(r)
  {
    if id.None? then ""
    else
      IntToStringRoundTrip(id.value as int);
      IntToString(id.value as int)
  }

  /** `CharacterResponse.toCharacter()`: every nullable field gets a default, so
      the domain record has no missing field whatever the response held. */
  function ToCharacter(c: CharacterResponse): (r: Character)
    // id: empty when absent, otherwise a decimal rendering that reads back as the id
    ensures c.id.None? ==> r.id == ""
    ensures c.id.Some? ==> r.id != "" && ParseInt(r.id) == Some(c.id.value as int) && CanonicalInt(r.id)
    // plain strings: copied when present, "Unknown" or "" otherwise
    ensures r.name == c.name.GetOr(UNKNOWN) && r.gender == c.gender.GetOr(UNKNOWN)
    ensures r.status == c.status.GetOr(UNKNOWN) && r.species == c.species.GetOr(UNKNOWN)
    ensures r.image == c.image.GetOr("") && r.created == c.created.GetOr("")
    ensures r.origin == PlaceName(c.origin) && r.location == PlaceName(c.location)
    // the episode count, "0" both for a missing and for an empty list
    ensures CanonicalDigits(r.episodes) && ParseInt(r.episodes) == Some(EpisodeCount(c))
    ensures r.episodes == "0" <==> EpisodeCount(c) == 0
    ensures c.episode.None? ==> r.episodes == "0"
    // the episode URLs reduced to their trailing ids, same length and order
    ensures |r.episodeUrls| == EpisodeCount(c)
    ensures forall i :: 0 <= i < |r.episodeUrls| ==>
      r.episodeUrls[i] == SubstringAfterLast(c.episode.value[i], '/') && '/' !in r.episodeUrls[i]
  {
    var count := EpisodeCount(c);
    IntToStringRoundTrip(count);
    Character(
      id := IdString(c.id),
      name := c.name.GetOr(UNKNOWN),
      image := c.image.GetOr(""),
      gender := c.gender.GetOr(UNKNOWN),
      status := c.status.GetOr(UNKNOWN),
      species := c.species.GetOr(UNKNOWN),
      origin := PlaceName(c.origin),
      location := PlaceName(c.location),
      episodes := IntToString(count),
      created := c.created.GetOr(""),
      episodeUrls := if c.episode.Some? then AfterLastSlashAll(c.episode.value) else [])
  }

  /** A mapped character's `episodeIds` are its `episodeUrls` unchanged: the URLs
      were already cut down to ids when the record was built. */
  lemma EpisodeIdsOfMapped(c: CharacterResponse)
    ensures ToCharacter(c).EpisodeIds() == ToCharacter(c).episodeUrls
  {
    var ch := ToCharacter(c);
    if c.episode.Some? {
      AfterLastSlashIdempotent(c.episode.value);
    }
    assert ch.EpisodeIds() == AfterLastSlashAll(ch.episodeUrls);
  }
}
