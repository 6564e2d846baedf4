/** The small pure rules of the page script: business-versus-address
    classification (for a selected place and for a place reloaded from the
    URL), the info-window text, the `poi` URL values, the three-result cap and
    the choice of places request for a venue query. */
module PageRules {
  import opened JsText
  import opened Geometry
  import opened Planning

  /** A place as the autocomplete widget, the places search or the geocoder
      hands it over: display name, formatted address, location. */
  datatype Place = Place(name: Option<string>, formattedAddress: Option<string>, location: Pos)

  /** The address, place name and type passed to `addToList`. */
  datatype AddArgs = AddArgs(formattedAddress: Option<string>, placeName: Option<string>, kind: Kind)

  /** The record `addToList` builds from its arguments. */
  function MakeEntry(args: AddArgs, at: Pos, id: real): (e: Entry)
    ensures e.Position() == at && e.id == id
    ensures e.formattedAddress == args.formattedAddress && e.placeName == args.placeName && e.kind == args.kind
  {
    Entry(args.formattedAddress, at.lat, at.lng, id, args.placeName, args.kind)
  }

  /** The heuristic of `handleSelectedPlace`: a place is a business when it has
      a name that differs from its formatted address. */
  predicate IsBusiness(place: Place) {
    Truthy(place.name) && place.name != place.formattedAddress
  }

  /** What `handleSelectedPlace` passes to `addToList`. A business keeps its
      name and falls back to it for a missing address; an address keeps the
      place's own formatted address unchanged. */
  function Classify(place: Place): (a: AddArgs)
    ensures a.kind == PoiKind <==> IsBusiness(place)
    ensures a.kind == PoiKind ==>
      a.placeName == place.name && a.formattedAddress == OrElse(place.formattedAddress, place.name)
    ensures a.kind == AddressKind ==>
      a.formattedAddress == place.formattedAddress && a.placeName == OrElse(place.name, place.formattedAddress)
  {
    var name := OrElse(place.name, place.formattedAddress);
    if IsBusiness(place) then
      AddArgs(OrElse(place.formattedAddress, place.name), place.name, PoiKind)
    else
      AddArgs(OrElse(place.formattedAddress, name), name, AddressKind)
  }

  /** The stricter heuristic of `geocodeAndAddPOI`: the geocoded name must also
      equal the shared item name, ignoring case. */
  predicate IsBusinessFromUrl(itemName: string, result: Place) {
    IsBusiness(result) && Lower(result.name.value) == Lower(itemName)
  }

  /** What `geocodeAndAddPOI` passes to `addToListFromURL` for a shared item. */
  function ClassifyFromUrl(itemName: string, result: Place): (a: AddArgs)
    ensures a.formattedAddress == result.formattedAddress
    ensures a.kind == PoiKind <==> IsBusinessFromUrl(itemName, result)
    ensures a.placeName == if a.kind == PoiKind then Some(itemName) else None
  {
    if IsBusinessFromUrl(itemName, result) then AddArgs(result.formattedAddress, Some(itemName), PoiKind)
    else AddArgs(result.formattedAddress, None, AddressKind)
  }

  /** A result the URL loader takes for a business is one the selection
      handler would take for a business too. */
  lemma UrlBusinessIsBusiness(itemName: string, result: Place)
    ensures ClassifyFromUrl(itemName, result).kind == PoiKind ==> Classify(result).kind == PoiKind
  {
  }

  /** What `handlePOISearchResults` passes to `addToList` for one result. */
  function SearchResultArgs(place: Place): (a: AddArgs)
    ensures a.kind == PoiKind && a.placeName == place.name
    ensures Truthy(place.formattedAddress) ==> a.formattedAddress == place.formattedAddress
    ensures !Truthy(place.formattedAddress) ==> a.formattedAddress == place.name
  {
    AddArgs(OrElse(place.formattedAddress, place.name), place.name, PoiKind)
  }

  const MaxResults: nat := 3

  /** `results.slice(0, 3)` */
  function TopResults(results: seq<Place>): (r: seq<Place>)
    ensures |r| <= MaxResults && |r| <= |results|
    ensures r == results[..|r|]
    ensures |r| == MaxResults || r == results
  {
    if |results| <= MaxResults then results else results[..MaxResults]
  }

  /** The markup of an info window with a bold title and a small subtitle. */
  function Card(title: string, subtitle: string): string {
    "<div><strong>" + title + "</strong><br><small>" + subtitle + "</small></div>"
  }

  /** The info-window content of a planned entry: the place name over the
      address when there is a name, otherwise the address alone. */
  function InfoWindowContent(placeName: Option<string>, address: Option<string>): (r: string)
    ensures Truthy(placeName) ==> r == Card(placeName.value, ToText(address))
    ensures !Truthy(placeName) ==> r == Card(ToText(address), "")
  {
    "<div><strong>" + ToText(OrElse(placeName, address)) + "</strong><br><small>"
      + (if Truthy(placeName) then ToText(address) else "") + "</small></div>"
  }

  /** The `poi` value `updateURLParameters` writes for one entry. */
  function PoiParam(e: Entry): string {
    if e.kind == PoiKind then ToText(OrElse(e.placeName, e.formattedAddress))
    else ToText(e.formattedAddress)
  }

  /** The `poi` values of the whole list: one per entry, in list order. */
  function PoiParams(es: seq<Entry>): (r: seq<string>)
    ensures |r| == |es|
    ensures forall i :: 0 <= i < |es| ==> r[i] == PoiParam(es[i])
  {
    if |es| == 0 then []
    else
      var rest := PoiParams(es[1..]);
      assert forall i :: 1 <= i < |es| ==> es[i] == es[1..][i - 1];
      [PoiParam(es[0])] + rest
  }

  /** A selected business is shared under its display name, anything else
      under its formatted address. */
  lemma SharedValueOfSelectedPlace(place: Place, id: real)
    ensures PoiParam(MakeEntry(Classify(place), place.location, id))
         == if IsBusiness(place) then place.name.value else ToText(place.formattedAddress)
  {
  }

  /** Reloading a shared value (the empty value of `?poi=` included): a
      business the geocoder confirms under the same name is shared again under
      that same value; anything else is shared under the address the geocoder
      returned. */
  lemma SharedValueAfterReload(itemName: string, result: Place, id: real)
    ensures PoiParam(MakeEntry(ClassifyFromUrl(itemName, result), result.location, id))
         == if IsBusinessFromUrl(itemName, result) then itemName else ToText(result.formattedAddress)
  {
    if itemName == "" {
      assert !IsBusinessFromUrl(itemName, result);
    }
  }

  /** `placeTypeMap`: venue queries answered by a nearby search of one type. */
  const PlaceTypes: map<string, string> := map[
    "restaurants" := "restaurant",
    "cafes" := "cafe",
    "bars" := "bar",
    "parks" := "park",
    "museums" := "museum",
    "shopping" := "shopping_mall",
    "entertainment" := "movie_theater",
    "gyms" := "gym"
  ]

  /** The request `searchPOIsNearCenter` sends to the places service. */
  datatype SearchRequest =
    | NearbySearch(location: Pos, radius: Option<real>, placeType: string)
    | TextSearch(location: Pos, radius: Option<real>, query: string, placeType: string)

  /** The request for `query` around the current center marker with the current
      `searchRadius`; None when there is no center marker (the page alerts). A
      mapped query, in any letter case, becomes a nearby search of its type;
      any other query a text search for establishments. */
  function SelectRequest(query: string, center: Option<Pos>, radius: Option<real>): (r: Option<SearchRequest>)
    ensures r.None? <==> center.None?
    ensures r.Some? ==> r.value.location == center.value && r.value.radius == radius
    ensures r.Some? ==> (r.value.NearbySearch? <==> Lower(query) in PlaceTypes)
    ensures r.Some? && r.value.NearbySearch? ==> r.value.placeType == PlaceTypes[Lower(query)]
    ensures r.Some? && r.value.TextSearch? ==> r.value.query == query && r.value.placeType == "establishment"
  {
    if center.None? then None
    else
      var key := Lower(query);
      if key in PlaceTypes then Some(NearbySearch(center.value, radius, PlaceTypes[key]))
      else Some(TextSearch(center.value, radius, query, "establishment"))
  }

  /** Queries that differ only in letter case select the same request. */
  lemma SelectRequestIgnoresCase(q1: string, q2: string, center: Option<Pos>, radius: Option<real>)
    requires Lower(q1) == Lower(q2) && Lower(q1) in PlaceTypes
    ensures SelectRequest(q1, center, radius) == SelectRequest(q2, center, radius)
  {
  }

  /** "Bars" selects a nearby search for type bar. */
  lemma NearbyRequestExample(c: Pos, radius: Option<real>)
    ensures SelectRequest("Bars", Some(c), radius) == Some(NearbySearch(c, radius, "bar"))
  {
    LowerOfBars();
    assert "bars" in PlaceTypes && PlaceTypes["bars"] == "bar";
  }

  /** "zoo" is not a mapped type and selects a text search. */
  lemma TextRequestExample(c: Pos, radius: Option<real>)
    ensures SelectRequest("zoo", Some(c), radius) == Some(TextSearch(c, radius, "zoo", "establishment"))
  {
    LowerOfZoo();
    assert PlaceTypes.Keys == {"restaurants", "cafes", "bars", "parks", "museums", "shopping", "entertainment", "gyms"};
    assert "zoo" !in PlaceTypes;
  }

  lemma LowerOfBars()
    ensures Lower("Bars") == "bars"
  {
    var s := "Bars";
    assert LowerChar(s[0]) == 'b' && LowerChar(s[1]) == 'a' && LowerChar(s[2]) == 'r' && LowerChar(s[3]) == 's';
  }

  lemma LowerOfZoo()
    ensures Lower("zoo") == "zoo"
  {
    var s := "zoo";
    assert LowerChar(s[0]) == 'z' && LowerChar(s[1]) == 'o' && LowerChar(s[2]) == 'o';
  }
}
