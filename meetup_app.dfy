/** The page script's global state as one object: `addressList`, the parallel
    `markers`, `centerMarker`, `searchRadius`, `searchCircle` and the `poi`
    values of the page URL, with the handlers that change them. Map widgets
    are reduced to the positions and values they show; the haversine
    distance, the geocoder's and the places service's answers and the fresh
    ids are inputs. */
module MeetupApp {
  import opened JsText
  import opened Geometry
  import opened Planning
  import opened PageRules

  /** The `addToList` calls `handlePOISearchResults` makes for the shown
      results, in order; the i-th result gets the id `ids(i)`. */
  function SearchOps(shown: seq<Place>, ids: nat -> real): (ops: seq<ListOp>)
    ensures |ops| == |shown|
    ensures forall i :: 0 <= i < |shown| ==>
      ops[i] == AddOp(MakeEntry(SearchResultArgs(shown[i]), shown[i].location, ids(i)))
  {
    seq(|shown|, i requires 0 <= i < |shown| => AddOp(MakeEntry(SearchResultArgs(shown[i]), shown[i].location, ids(i))))
  }

  /** The results a search adds: none unless the service answered OK with at
      least one place, otherwise the first three. */
  function ShownResults(statusOk: bool, results: seq<Place>): (r: seq<Place>)
    ensures |r| <= MaxResults
    ensures r == [] <==> !statusOk || |results| == 0
    ensures r != [] ==> r == TopResults(results)
  {
    if statusOk && |results| > 0 then TopResults(results) else []
  }

  /** One search adds at most three entries, only places it was given, and
      keeps the earlier entries and the address invariant. */
  lemma SearchAddsAtMostThree(l: Lists, statusOk: bool, results: seq<Place>, ids: nat -> real)
    requires ListsInvariant(l)
    ensures var r := Replay(l, SearchOps(ShownResults(statusOk, results), ids));
      && ListsInvariant(r)
      && |l.entries| <= |r.entries| <= |l.entries| + MaxResults
      && r.entries[..|l.entries|] == l.entries
  {
    var ops := SearchOps(ShownResults(statusOk, results), ids);
    AddsGrowBounded(l, ops);
    ReplayKeepsInvariant(l, ops);
  }

  /** A venue search needs a center marker; once two or more places are
      planned it is sent around their centroid with their search radius (at
      least 1000 m), and with no place planned it is refused. */
  lemma SearchAroundCenter(v: CenterView, ps: seq<Pos>, dist: Distance, query: string)
    ensures var w := Recenter(v, ps, dist);
      var r := SelectRequest(query, w.center, w.searchRadius);
      && (|ps| == 0 <==> r.None?)
      && (|ps| >= 2 ==> r.Some? && r.value.location == Centroid(ps) && r.value.radius == Some(SearchRadius(Centroid(ps), ps, dist)))
      && (|ps| >= 2 ==> r.value.radius.value >= MinRadius)
  {
  }

  class Planner {
    var entries: seq<Entry>
    var markers: seq<Pos>
    var center: Option<Pos>
    var searchRadius: Option<real>
    var circle: Option<Circle>
    /** The `poi` values of the page URL, in order. */
    var sharedPois: seq<string>
    /** `haversineDistance`, in metres. */
    const distance: Distance

    ghost predicate Valid()
      reads this
    {
      ListsInvariant(Planned())
    }

    function Planned(): Lists
      reads this
    {
      Lists(entries, markers)
    }

    function View(): CenterView
      reads this
    {
      CenterView(center, searchRadius, circle)
    }

    /** The page before any place is planned, opened on a URL with the `poi`
        values `urlPois`. */
    constructor (distance: Distance, urlPois: seq<string>)
      ensures Valid()
      ensures Planned() == Lists([], []) && View() == CenterView(None, None, None)
      ensures sharedPois == urlPois && this.distance == distance
    {
      entries := [];
      markers := [];
      center := None;
      searchRadius := None;
      circle := None;
      sharedPois := urlPois;
      this.distance := distance;
    }

    /** `updateCenterOfInterest` */
    method UpdateCenterOfInterest()
      modifies this`center, this`searchRadius, this`circle
      ensures View() == Recenter(old(View()), Positions(entries), distance)
    {
      if |entries| == 0 {
        center := None;
        circle := None;
        return;
      }
      if |entries| == 1 {
        center := Some(Pos(entries[0].lat, entries[0].lng));
        circle := None;
        return;
      }
      var ps := Positions(entries);
      var c := Centroid(ps);
      var distances := Distances(c, ps, distance);
      var maxDistance := MaxOf(distances);
      var r := Max(maxDistance * RadiusFactor, MinRadius);
      searchRadius := Some(r);
      center := Some(c);
      circle := Some(Circle(c, r));
    }

    /** `updateURLParameters`: drop every `poi` value, then append one per
        entry in list order. */
    method UpdateUrlParameters()
      modifies this`sharedPois
      ensures sharedPois == PoiParams(entries)
    {
      sharedPois := [];
      var i := 0;
      while i < |entries|
        invariant 0 <= i <= |entries|
        invariant |sharedPois| == i
        invariant forall k :: 0 <= k < i ==> sharedPois[k] == PoiParam(entries[k])
      {
        var e := entries[i];
        if e.kind == PoiKind {
          sharedPois := sharedPois + [ToText(OrElse(e.placeName, e.formattedAddress))];
        } else {
          sharedPois := sharedPois + [ToText(e.formattedAddress)];
        }
        i := i + 1;
      }
    }

    /** `addToList`: a planned address is refused (the page alerts); a new one
        is appended with its marker, then the center and the URL follow. */
    method AddToList(formattedAddress: Option<string>, lat: real, lng: real, placeName: Option<string>, kind: Kind, id: real)
      returns (duplicate: bool)
      requires Valid()
      modifies this
      ensures Valid()
      ensures duplicate == HasAddress(old(entries), formattedAddress)
      ensures Planned() == AddEntry(old(Planned()), Entry(formattedAddress, lat, lng, id, placeName, kind))
      ensures duplicate ==> View() == old(View()) && sharedPois == old(sharedPois)
      ensures !duplicate ==> View() == Recenter(old(View()), Positions(entries), distance)
      ensures !duplicate ==> sharedPois == PoiParams(entries)
    {
      duplicate := HasAddress(entries, formattedAddress);
      if duplicate {
        return;
      }
      var e := Entry(formattedAddress, lat, lng, id, placeName, kind);
      AddEntryKeepsInvariant(Planned(), e);
      entries := entries + [e];
      markers := markers + [Pos(lat, lng)];
      UpdateCenterOfInterest();
      UpdateUrlParameters();
    }

    /** `addToListFromURL`: as `addToList`, but a duplicate is skipped without
        a message and neither the center nor the URL is recomputed. */
    method AddToListFromUrl(formattedAddress: Option<string>, lat: real, lng: real, placeName: Option<string>, kind: Kind, id: real)
      returns (duplicate: bool)
      requires Valid()
      modifies this`entries, this`markers
      ensures Valid()
      ensures duplicate == HasAddress(old(entries), formattedAddress)
      ensures Planned() == AddEntry(old(Planned()), Entry(formattedAddress, lat, lng, id, placeName, kind))
    {
      duplicate := HasAddress(entries, formattedAddress);
      if duplicate {
        return;
      }
      var e := Entry(formattedAddress, lat, lng, id, placeName, kind);
      AddEntryKeepsInvariant(Planned(), e);
      entries := entries + [e];
      markers := markers + [Pos(lat, lng)];
    }

    /** `removeFromList`: an unknown id changes nothing; otherwise the entries
        with that id go, then the first marker within the tolerance of the
        removed entry, then the center and the URL follow. */
    method RemoveFromList(id: real)
      requires Valid()
      modifies this
      ensures Valid()
      ensures Planned() == RemoveEntry(old(Planned()), id)
      ensures IndexOfId(old(entries), id) == -1 ==> View() == old(View()) && sharedPois == old(sharedPois)
      ensures IndexOfId(old(entries), id) != -1 ==> View() == Recenter(old(View()), Positions(entries), distance)
      ensures IndexOfId(old(entries), id) != -1 ==> sharedPois == PoiParams(entries)
    {
      var k := IndexOfId(entries, id);
      if k == -1 {
        return;
      }
      RemoveEntryKeepsInvariant(Planned(), id);
      var removed := entries[k];
      entries := WithoutId(entries, id);
      var m := IndexOfNear(markers, Pos(removed.lat, removed.lng));
      if m != -1 {
        markers := markers[..m] + markers[m + 1..];
      }
      UpdateCenterOfInterest();
      UpdateUrlParameters();
    }

    /** `handleSelectedPlace`: the chosen place is added as a business or as
        an address. */
    method HandleSelectedPlace(place: Place, id: real) returns (duplicate: bool)
      requires Valid()
      modifies this
      ensures Valid()
      ensures duplicate == HasAddress(old(entries), Classify(place).formattedAddress)
      ensures Planned() == AddEntry(old(Planned()), MakeEntry(Classify(place), place.location, id))
      ensures duplicate ==> View() == old(View()) && sharedPois == old(sharedPois)
      ensures !duplicate ==> View() == Recenter(old(View()), Positions(entries), distance)
      ensures !duplicate ==> sharedPois == PoiParams(entries)
    {
      var args := Classify(place);
      duplicate := AddToList(args.formattedAddress, place.location.lat, place.location.lng, args.placeName, args.kind, id);
    }

    /** `handlePOISearchResults`: with an OK answer holding places, the first
        three are added as businesses, in order; `shown` is the count the
        page reports, 0 when it alerts that nothing was found. */
    method HandlePoiSearchResults(statusOk: bool, results: seq<Place>, ids: nat -> real) returns (shown: nat)
      requires Valid()
      modifies this
      ensures Valid()
      ensures shown == |ShownResults(statusOk, results)|
      ensures Planned() == Replay(old(Planned()), SearchOps(ShownResults(statusOk, results), ids))
      ensures |entries| >= old(|entries|)
      ensures |entries| == old(|entries|) ==> View() == old(View()) && sharedPois == old(sharedPois)
      ensures |entries| > old(|entries|) ==> View() == Recenter(old(View()), Positions(entries), distance)
      ensures |entries| > old(|entries|) ==> sharedPois == PoiParams(entries)
    {
      var top := ShownResults(statusOk, results);
      var ops := SearchOps(top, ids);
      var i := 0;
      while i < |top|
        invariant 0 <= i <= |top|
        invariant Valid()
        invariant Planned() == Replay(old(Planned()), ops[..i])
        invariant |entries| >= old(|entries|)
        invariant |entries| == old(|entries|) ==> View() == old(View()) && sharedPois == old(sharedPois)
        invariant |entries| > old(|entries|) ==> View() == Recenter(old(View()), Positions(entries), distance)
        invariant |entries| > old(|entries|) ==> sharedPois == PoiParams(entries)
      {
        ghost var before := Planned();
        ghost var view := View();
        var place := top[i];
        var args := SearchResultArgs(place);
        var duplicate := AddToList(args.formattedAddress, place.location.lat, place.location.lng, args.placeName, PoiKind, ids(i));
        ReplayStep(old(Planned()), ops, i);
        if !duplicate && |before.entries| > old(|entries|) {
          RecenterAbsorbs(old(View()), Positions(before.entries), Positions(entries), distance);
        }
        i := i + 1;
      }
      assert ops[..|top|] == ops;
      shown := |top|;
    }

    /** `geocodeAndAddPOI` for one shared `poi` value: `result` is the first
        geocoder result, None when the geocoder is missing or did not answer
        OK (then nothing happens). */
    method GeocodeAndAddPoi(itemName: string, result: Option<Place>, id: real)
      requires Valid()
      modifies this`entries, this`markers
      ensures Valid()
      ensures result.None? ==> Planned() == old(Planned())
      ensures result.Some? ==>
        Planned() == AddEntry(old(Planned()), MakeEntry(ClassifyFromUrl(itemName, result.value), result.value.location, id))
    {
      if result.None? {
        return;
      }
      var place := result.value;
      var args := ClassifyFromUrl(itemName, place);
      var _ := AddToListFromUrl(args.formattedAddress, place.location.lat, place.location.lng, args.placeName, args.kind, id);
    }
  }
}
