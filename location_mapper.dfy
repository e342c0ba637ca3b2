/** `LocationMapper`: the wire form of a location to the domain record. */
module LocationMapper {
  import opened Kotlin
  import opened Domain

  /** The fields of a location response the mapper reads. */
  datatype LocationResponse = LocationResponse(id: Option<Int32>, name: Option<string>, residents: Option<seq<Option<string>>>)

  /** `mapToDomainModel(data)`: never null; defaults 0, "" and an empty list. */
  function MapToDomainModel(data: Option<LocationResponse>): (r: Location)
    ensures data.None? ==> r == Location(0, "", [])
    ensures data.Some? ==> r.id == data.value.id.GetOr(0) as int && r.name == data.value.name.GetOr("")
    ensures data.Some? && data.value.residents.Some? ==> r.residents == FilterNotNull(data.value.residents.value)
    ensures data.None? || data.value.residents.None? ==> r.residents == []
  {
    if data.None? then Location(0, "", [])
    else
      var d := data.value;
      Location(
        d.id.GetOr(0) as int,
        d.name.GetOr(""),
        if d.residents.Some? then FilterNotNull(d.residents.value) else [])
  }

  /** `toDomainList(initial)`: `initial?.mapNotNull(::mapToDomainModel).orEmpty()`.
      Since the mapper never yields null, no entry is dropped: a null entry
      becomes a default location in its place. */
  function ToDomainList(initial: Option<seq<Option<LocationResponse>>>): (r: seq<Location>)
    ensures initial.None? ==> r == []
    ensures initial.Some? ==> |r| == |initial.value|
    ensures initial.Some? ==> forall i :: 0 <= i < |r| ==> r[i] == MapToDomainModel(initial.value[i])
  {
    if initial.None? then []
    else
      var xs := initial.value;
      var mapped := seq(|xs|, i requires 0 <= i < |xs| => Some(MapToDomainModel(xs[i])));
      FilterNotNullKeepsAll(mapped);
      FilterNotNull(mapped)
  }

  /** The residents keep their relative order: mapping a list made of two parts
      keeps the first part's residents ahead of the second's. */
  lemma ResidentsInOrder(id: Option<Int32>, name: Option<string>, a: seq<Option<string>>, b: seq<Option<string>>)
    ensures MapToDomainModel(Some(LocationResponse(id, name, Some(a + b)))).residents
         == MapToDomainModel(Some(LocationResponse(id, name, Some(a)))).residents
          + MapToDomainModel(Some(LocationResponse(id, name, Some(b)))).residents
  {
    FilterNotNullAppend(a, b);
  }
}
