# meetup4us: a Dafny model of the planning list, the meetup center and the key-injecting worker

meetup4us is a single-page map application. Users collect addresses and points of interest (POIs) in a planning list. The page shows a "meetup center" for the list and can search for venues around it. The list is shared through repeated `poi` URL parameters. A small edge worker serves the page and injects the Google Maps API key into it.

This project models, and proves properties of:

- **The planning list** (`addToList`, `addToListFromURL`, `removeFromList`). It is specified on values in `Planning`: `AddEntry`, `RemoveEntry`, and `Replay` over any sequence of calls. It is implemented as the class `MeetupApp.Planner`, whose fields are the page's globals: `addressList`, the parallel `markers`, `centerMarker`, `searchRadius`, `searchCircle`, and the URL's `poi` values.
- **The meetup-center rule** (`updateCenterOfInterest`, `calculateCenter`, `calculateDistances`), in `Geometry` and `Planning.Recenter`:
  - no center for an empty list;
  - the entry itself for one entry;
  - otherwise the planar mean of the coordinates, with a search radius of `max(0.8 × farthest distance, 1000 m)`.
- **The small rules of the page**, in `PageRules`:
  - the business-versus-address classification, both for a selected place and for a place reloaded from the URL;
  - the info-window text;
  - the `poi` value written for each entry;
  - the cap of three search results;
  - the choice between a nearby search and a text search via `placeTypeMap`.
- **The worker's `fetch` rule**, in `Worker`:
  - only `/` and `/index.html` are rewritten;
  - the rewrite is `String.prototype.replace` with a string pattern: only the first occurrence, with the `$`-substitutions of section 22.1.3.19.1 (GetSubstitution) of ECMA-262, 2023 edition;
  - the key falls back to the placeholder itself;
  - an asset read failure yields the 500 response.

Modelling choices:

- **Values.** JavaScript `null` and `undefined` are both `None` of `JsText.Option`. Truthiness, `||` and template-literal printing are written out in `JsText`.
- **Numbers.** JavaScript numbers are exact `real`s.
- **Distance.** The haversine distance is a parameter: any `(Pos, Pos) -> real` may stand for it.
- **Fresh ids.** Ids (`Date.now() + Math.random()`) are parameters.
- **Callbacks.** The geocoder's and the places service's answers are parameters. `AssetRead` is the outcome of the asset fetch.
- **Staggered adds.** The `setTimeout` staggering of search results is a sequential loop in result order.

The two quirks of the source are proved as lemmas and kept in the model:

- **Stale search radius.** `searchRadius` is not reset when the list shrinks below two entries (`Planning.StaleRadiusAfterShrink`).
- **Stale marker.** Marker removal by a 0.0001° tolerance can remove another entry's marker and leave a marker with no entry (`Planning.StaleMarkerAfterRemovals`).

## Model

| member | source | states |
|---|---|---|
| JsText.OrElse | meetup-worker/assets/app.js:102-111 | `a \|\| b` on string values: `a` when truthy, else `b`; the result is truthy iff either operand is |
| JsText.Lower | meetup-worker/assets/app.js:251 | `toLowerCase` keeps the length and lower-cases every ASCII letter |
| JsText.LowerIdempotent | meetup-worker/assets/app.js:251 | lower-casing twice is lower-casing once |
| Geometry.MaxOf | meetup-worker/assets/app.js:490 | `Math.max(...distances)` is at least every distance and equal to one of them |
| Geometry.Total | meetup-worker/assets/app.js:522-523 | the `reduce` sum of one coordinate (definition; bounded by `TotalBounds`, order-free by `TotalPermutation`) |
| Geometry.Centroid | meetup-worker/assets/app.js:520-529 | `calculateCenter`: the sums divided by the count (definition; see `CentroidWithinBounds`, `CentroidPermutation`) |
| Geometry.Distances | meetup-worker/assets/app.js:531-536 | one distance per point, in order: the i-th is the distance from the center to the i-th point |
| Geometry.SearchRadius | meetup-worker/assets/app.js:486-491 | the radius is at least 1000, at least 0.8 × the distance from the center to every point, and equal to one of those bounds |
| Geometry.ComputeMeetupCenter | meetup-worker/assets/app.js:459-497 | no center iff no point; one point gives that point; two or more give the centroid with radius exactly `SearchRadius` of the centroid, hence ≥ 1000 and ≥ 0.8 × every point's distance |
| Geometry.TotalBounds | meetup-worker/assets/app.js:522-523 | the `reduce` sum of n coordinates in [lo, hi] lies in [n·lo, n·hi] |
| Geometry.CentroidWithinBounds | meetup-worker/assets/app.js:520-529 | each coordinate of `calculateCenter` lies between the smallest and the largest of the points |
| Geometry.CentroidOfIdenticalPoints | meetup-worker/assets/app.js:520-529 | the center of coinciding points is that point |
| Geometry.TotalPermutation | meetup-worker/assets/app.js:522-523 | the coordinate sums do not depend on the order of the entries |
| Geometry.CentroidPermutation | meetup-worker/assets/app.js:520-529 | the center does not depend on the order of the entries |
| Geometry.SearchRadiusPermutation | meetup-worker/assets/app.js:489-491 | the search radius does not depend on the order of the entries |
| Geometry.MeetupCenterPermutation | meetup-worker/assets/app.js:459-497 | the whole center rule does not depend on the order of the entries |
| Geometry.SearchRadiusFloor | meetup-worker/assets/app.js:491 | points all within 1250 m of the center get exactly the 1000 m floor |
| Geometry.TwoPointCentroid | meetup-worker/assets/app.js:520-529 | (40, -74) and (41, -74) have center (40.5, -74) |
| Geometry.SinglePointCenter | meetup-worker/assets/app.js:473-483 | one entry is its own center and gets no circle |
| Planning.Positions | meetup-worker/assets/app.js:337-369 | one marker position per entry, in order: the i-th is the i-th entry's `{lat, lng}` |
| Planning.IndexOfId | meetup-worker/assets/app.js:431-432 | `find` by id: -1 iff no entry has the id, else the first index with it |
| Planning.WithoutId | meetup-worker/assets/app.js:435 | `filter`: exactly the entries without the id remain, never more, and strictly fewer when one had it |
| Planning.IndexOfNear | meetup-worker/assets/app.js:438-443 | `findIndex` of the marker: -1 iff no marker is within 0.0001° in both coordinates, else the first one that is |
| Planning.HasAddress | meetup-worker/assets/app.js:318 | `some` address equal to the given one (definition; used by `AddEntry` and the invariant) |
| Planning.WithoutIdConcat | meetup-worker/assets/app.js:435 | the filter keeps the order: filtering a concatenation is concatenating the filtered parts |
| Planning.AddEntry | meetup-worker/assets/app.js:318-369 | after the call the address is planned; every address planned before still is; at most one entry and one marker are added |
| Planning.RemoveEntry | meetup-worker/assets/app.js:429-448 | exactly the entries without the id remain; the list does not grow; at most one marker goes |
| Planning.Apply | meetup-worker/assets/app.js:318-670 | one call of the three: it adds at most one entry, a removal adds none, an add leaves its address planned |
| Planning.Replay | meetup-worker/assets/app.js:318-670 | a sequence of calls grows the list by at most its length |
| Planning.AddEntryEffect | meetup-worker/assets/app.js:318-369 | a planned address leaves both lists unchanged; a new one appends exactly one entry and one marker at its position and keeps everything before them |
| Planning.AddEntryKeepsInvariant | meetup-worker/assets/app.js:318-333 | adding keeps the addresses distinct and a marker slot for every entry |
| Planning.WithoutIdKeepsDistinct | meetup-worker/assets/app.js:435 | filtering keeps the addresses distinct |
| Planning.RemoveEntryKeepsInvariant | meetup-worker/assets/app.js:429-448 | removing keeps the addresses distinct and a marker slot for every entry |
| Planning.ReplayKeepsInvariant | meetup-worker/assets/app.js:318-670 | over any sequence of `addToList`, `addToListFromURL` and `removeFromList` calls the addresses stay pairwise distinct |
| Planning.RemoveUnknownId | meetup-worker/assets/app.js:431-432 | an id no entry has changes nothing |
| Planning.WithoutUniqueId | meetup-worker/assets/app.js:435 | with unique ids, filtering removes exactly the entry with that id and keeps the order |
| Planning.WithoutAbsentId | meetup-worker/assets/app.js:435 | filtering an absent id keeps the list |
| Planning.RemoveKnownId | meetup-worker/assets/app.js:435-448 | with unique ids, removal leaves the old list minus that entry in order, and takes at most one marker: the first within the tolerance |
| Planning.RemoveKeepsMarkersParallel | meetup-worker/assets/app.js:435-448 | when markers match entries and no two entries are within the tolerance, removal keeps the markers matching the entries |
| Planning.AddsKeepMarkersParallel | meetup-worker/assets/app.js:333-369 | sessions of adds keep one marker per entry, at its position |
| Planning.AddsGrowBounded | meetup-worker/assets/app.js:318-333 | n adds grow the list by at most n entries and keep the earlier ones in place |
| Planning.ReplayConcat | meetup-worker/assets/app.js:316-453 | replaying two runs of calls is replaying their concatenation |
| Planning.StaleMarkerAfterRemovals | meetup-worker/assets/app.js:438-448 | for entries a, b, c where a is near b, b is near c and c is not near a: adding them and removing b, c, a leaves no entry but c's marker |
| Planning.StaleChainExists | meetup-worker/assets/app.js:441-442 | three addresses 0.00009° apart form such a chain |
| Planning.Recenter | meetup-worker/assets/app.js:458-498 | no center iff no entry; one entry gives it as center; two or more give the centroid and set `searchRadius` to exactly `SearchRadius` of the centroid (≥ 1000); a circle iff two or more, matching center and radius; below two the radius is kept from before |
| Planning.RecenterAbsorbs | meetup-worker/assets/app.js:458-498 | recomputing on a list at least as long forgets the previous result |
| Planning.StaleRadiusAfterShrink | meetup-worker/assets/app.js:473-483 | after two entries and then one, the pair's radius remains although no circle is drawn |
| PageRules.MakeEntry | meetup-worker/assets/app.js:324-331 | the record carries the given address, name and type, the given id, and sits at the given position |
| PageRules.Classify | meetup-worker/assets/app.js:100-113 | a business iff it has a name different from its address; a business keeps its name and falls back to it for the address; an address keeps its address and falls back to it for the name |
| PageRules.IsBusiness | meetup-worker/assets/app.js:105 | the selection heuristic: a truthy name different from the formatted address (definition) |
| PageRules.ClassifyFromUrl | meetup-worker/assets/app.js:652-661 | the geocoded address is kept; a business iff the selection rule holds and the names match ignoring case; only a business carries the shared name |
| PageRules.IsBusinessFromUrl | meetup-worker/assets/app.js:652-653 | the URL heuristic: the selection heuristic and equal names ignoring case (definition) |
| PageRules.UrlBusinessIsBusiness | meetup-worker/assets/app.js:652-653 | the URL rule is stricter than the selection rule |
| PageRules.TopResults | meetup-worker/assets/app.js:287 | at most three results, a prefix, and all of them when there are at most three |
| PageRules.SearchResultArgs | meetup-worker/assets/app.js:292-294 | a search result is added as a POI under its name, with its address or, when that is not truthy, its name |
| PageRules.InfoWindowContent | meetup-worker/assets/app.js:361 | a named entry shows the name over the address; an unnamed one shows the address alone |
| PageRules.PoiParam | meetup-worker/assets/app.js:618-622 | the `poi` value of one entry: `placeName \|\| formatted_address` for a POI, `formatted_address` otherwise (definition; `PoiParams` states it for the list) |
| PageRules.PoiParams | meetup-worker/assets/app.js:614-623 | one `poi` value per entry, in list order: `placeName \|\| formatted_address` for a POI, `formatted_address` otherwise |
| PageRules.SharedValueOfSelectedPlace | meetup-worker/assets/app.js:618-621 | a selected business is shared under its name, anything else under its address |
| PageRules.SharedValueAfterReload | meetup-worker/assets/app.js:652-661 | for every shared value, the empty one included: a reloaded business is shared under the same value again; anything else under the geocoded address |
| PageRules.SelectRequest | meetup-worker/assets/app.js:227-276 | no request without a center; a request at the center with the current radius: a nearby search of the mapped type iff the lower-cased query is mapped, else a text search for establishments |
| PageRules.SelectRequestIgnoresCase | meetup-worker/assets/app.js:251 | mapped queries differing only in case select the same request |
| PageRules.NearbyRequestExample | meetup-worker/assets/app.js:239-262 | "Bars" selects a nearby search for type bar |
| PageRules.TextRequestExample | meetup-worker/assets/app.js:264-274 | "zoo" selects a text search for establishments |
| MeetupApp.SearchOps | meetup-worker/assets/app.js:289-296 | one add of a business per shown result, in order |
| MeetupApp.ShownResults | meetup-worker/assets/app.js:285-313 | nothing unless OK with at least one place, else the first three |
| MeetupApp.SearchAddsAtMostThree | meetup-worker/assets/app.js:285-296 | one search adds at most three entries, keeps the earlier ones and keeps the addresses distinct |
| MeetupApp.SearchAroundCenter | meetup-worker/assets/app.js:228-270 | with no entry the search is refused; with two or more it goes to the centroid with radius exactly `SearchRadius` of the entries, which is ≥ 1000 |
| MeetupApp.Planner.constructor | meetup-worker/assets/app.js:455-456 | empty lists, no center, no radius, no circle |
| MeetupApp.Planner.UpdateCenterOfInterest | meetup-worker/assets/app.js:458-498 | the new view is `Recenter` of the old one on the entries' positions |
| MeetupApp.Planner.UpdateUrlParameters | meetup-worker/assets/app.js:610-627 | the URL's `poi` values become `PoiParams` of the list |
| MeetupApp.Planner.AddToList | meetup-worker/assets/app.js:316-388 | duplicate iff the address is planned; the lists become `AddEntry`; a duplicate changes nothing else; otherwise the center and the URL are recomputed; distinctness is kept |
| MeetupApp.Planner.AddToListFromUrl | meetup-worker/assets/app.js:668-733 | the lists become `AddEntry`; center, radius, circle and URL do not change |
| MeetupApp.Planner.RemoveFromList | meetup-worker/assets/app.js:429-453 | the lists become `RemoveEntry`; an unknown id changes nothing else; otherwise the center and the URL are recomputed |
| MeetupApp.Planner.HandleSelectedPlace | meetup-worker/assets/app.js:100-116 | adds `Classify` of the place at its location, as `AddToList` does |
| MeetupApp.Planner.HandlePoiSearchResults | meetup-worker/assets/app.js:284-313 | the lists become `Replay` of the `SearchOps` adds; `shown` is the number found; the view and URL change iff an entry was added, and then match the new list |
| MeetupApp.Planner.GeocodeAndAddPoi | meetup-worker/assets/app.js:641-666 | a failed geocode changes nothing; otherwise the lists become `AddEntry` of the `ClassifyFromUrl` record |
| Worker.IndexOf | meetup-worker/src/index.js:22 | -1, or an index where the pattern fits |
| Worker.IndexOfFindsFirst | meetup-worker/src/index.js:22 | -1 iff the pattern does not occur, else the first index where it occurs |
| Worker.IndexOfIsFirst | meetup-worker/src/index.js:22 | an occurrence with none before it is the one found |
| Worker.Substitute | meetup-worker/src/index.js:22 | GetSubstitution for a string pattern: `$$`, `$&`, `` $` `` and `$'` expand, everything else stays (definition; see `SubstituteWithoutDollar`) |
| Worker.ReplaceFirst | meetup-worker/src/index.js:22 | `replace` with a string pattern (definition; see `ReplaceFirstSplices`, `ReplaceFirstWithoutOccurrence`) |
| Worker.SubstituteWithoutDollar | meetup-worker/src/index.js:22 | a replacement without `$` is inserted as it is |
| Worker.ReplaceFirstWithoutOccurrence | meetup-worker/src/index.js:22 | without an occurrence the text is returned as it is |
| Worker.ReplaceFirstSplices | meetup-worker/src/index.js:22 | only the first occurrence becomes the replacement; the text before and after it is kept |
| Worker.ReplaceWithItself | meetup-worker/src/index.js:22 | replacing the placeholder by itself gives back the text |
| Worker.IsPagePath | meetup-worker/src/index.js:16 | the path is `/` or `/index.html` (definition) |
| Worker.KeyOrPlaceholder | meetup-worker/src/index.js:22 | the configured key when it is truthy, otherwise the placeholder itself |
| Worker.HandleFetch | meetup-worker/src/index.js:12-36 | pass-through iff the path is neither `/` nor `/index.html`; a read failure gives 500 with "Error loading the dashboard."; a read success gives 200 `text/html` |
| Worker.KeyInjected | meetup-worker/src/index.js:16-26 | with a key, the page's first placeholder is replaced by it and everything around it is kept |
| Worker.PageUnchanged | meetup-worker/src/index.js:22 | with a missing or empty key, or no placeholder, the page is served unchanged |
| Worker.SecondPlaceholderKept | meetup-worker/src/index.js:22 | of two placeholders only the first is replaced |
| Worker.DollarPatternInKey | meetup-worker/src/index.js:22 | a key holding `$&` has the placeholder itself put in its place |

## Left out

- Google Maps objects and calls are reduced to the values they hold. This covers the map, the geocoder, autocomplete, the places service, the advanced markers, the info windows, the circle and bounds fitting. Markers are positions; the center marker and the circle are `Option` values. These are foreign library calls.
- The haversine formula (`haversineDistance`) is a parameter of type `(Pos, Pos) -> real`. Its trigonometry is floating point.
- JavaScript numbers are exact reals, so floating-point rounding in the sums, the mean and `0.8 *` is not modelled.
- `calculateCenter` of an empty list (a `NaN` center in the page) has the precondition of a non-empty list. The page never calls it with fewer than two entries.
- Ids are a parameter, because `Date.now() + Math.random()` is a clock and randomness. Nothing requires them to be fresh: every lemma that needs unique ids says so.
- The page's DOM plumbing is left out: `updateAddressListDisplay`, `getAddressInputValue`, `clearAddressInput`, `focusOnAddress`, `alert`, the search-mode indicator text and `console` logging. This is UI, not list logic.
- `setTimeout` staggering of search results is left out. The adds run as a sequential loop in result order, the order in which the staggered timers fire.
- `applyURLParameters` is not modelled as a loop. Its geocoder callbacks arrive in an order the page does not control. Each callback is `Planner.GeocodeAndAddPoi`.
- `searchAndAddAddress`, `planMeetup`, `initMap` and `setupAutocomplete` are UI entry points over the SDK and are left out. `searchPOIsNearCenter` is modelled only as its request choice, `PageRules.SelectRequest`.
- The `poi` values are a sequence of strings. `URLSearchParams` percent-encoding and `window.history` are browser I/O. The constructor's `urlPois` is the URL the page was opened with.
- `PageRules.SelectRequest` does not model inherited JavaScript object keys. The source's `placeTypeMap` is a plain object, so a query such as "constructor" finds an inherited property; the model treats the map as holding only its eight keys.
- `JsText.Lower`: does not model `toLowerCase` beyond ASCII, because Unicode case mapping tables are out of scope.
- `null` and `undefined` are merged into `None`. A template literal and `URLSearchParams.append` print `null` as "null", where the model prints every `None` as "undefined"; and the duplicate test `===` tells `null` from `undefined`, where `HasAddress` does not. The two can differ only when the map services hand over a `null` name or formatted address (for example a selected place with neither, which passes `null` as address and name), which the page's own code does not rule out.
- The worker's `env.ASSETS.fetch`, `Response` construction and `console.log` are left out. The asset read is an outcome (`AssetRead`), and pass-through is the `PassThrough` outcome. A missing `hello.html` asset that the binding serves as a non-error response is `Loaded` with that response's text. The 500 response's content type is the Fetch default for a string body, `text/plain;charset=UTF-8`.
