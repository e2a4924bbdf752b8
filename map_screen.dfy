/** The mobile map screen's planner logic: keeping the camera inside the county, the
    two-step start/destination reducer for presses on the map and on markers, the place
    suggestions for a typed query, choosing a suggestion, adding a stop field, the
    detail-filter toggle, starting a search and clearing everything. Route requests are
    recorded rather than sent; their answers arrive later and are not modelled here. */
module MapScreen {
  import opened Common

  // --------------------------------------------------------------- the camera

  datatype Region = Region(latitude: real, longitude: real, latitudeDelta: real, longitudeDelta: real)

  /** The county's bounding box widened by one degree on each side. */
  const MinLat: real := 42.983886
  const MaxLat: real := 45.597192
  const MinLng: real := -92.614620
  const MaxLng: real := -90.150042

  function Clamp(lo: real, hi: real, x: real): real
  {
    if hi <= (if lo >= x then lo else x) then hi else if lo >= x then lo else x
  }

  /** `clampRegion`: the centre is pulled into the bounds, the zoom is kept. */
  function ClampRegion(r: Region): (c: Region)
    ensures MinLat <= c.latitude <= MaxLat && MinLng <= c.longitude <= MaxLng
    ensures MinLat <= r.latitude <= MaxLat ==> c.latitude == r.latitude
    ensures MinLng <= r.longitude <= MaxLng ==> c.longitude == r.longitude
    ensures r.latitude < MinLat ==> c.latitude == MinLat
    ensures r.latitude > MaxLat ==> c.latitude == MaxLat
    ensures r.longitude < MinLng ==> c.longitude == MinLng
    ensures r.longitude > MaxLng ==> c.longitude == MaxLng
    ensures c.latitudeDelta == r.latitudeDelta && c.longitudeDelta == r.longitudeDelta
  {
    Region(Clamp(MinLat, MaxLat, r.latitude), Clamp(MinLng, MaxLng, r.longitude), r.latitudeDelta, r.longitudeDelta)
  }

  /** Clamping a clamped region changes nothing. */
  lemma ClampIdempotent(r: Region)
    ensures ClampRegion(ClampRegion(r)) == ClampRegion(r)
  {
  }

  // ---------------------------------------------------------------- the stops

  datatype Coordinate = Coordinate(latitude: real, longitude: real)

  /** A marker of the markers file: either coordinate pair may be present. */
  datatype MarkerItem = MarkerItem(id: string, latitude: Option<real>, longitude: Option<real>,
                                   lat: Option<real>, lng: Option<real>)

  /** `a ?? b` on optional numbers. */
  function OrElse(a: Option<real>, b: Option<real>): Option<real>
  {
    if a.Some? then a else b
  }

  /** The stops after a press at `p`: a first press starts, a second one completes,
      and any press after that starts over. */
  function PressStops(prev: seq<Coordinate>, p: Coordinate): (r: seq<Coordinate>)
    ensures |r| == (if |prev| == 1 then 2 else 1)
    ensures r[|r| - 1] == p
    ensures |prev| == 1 ==> r[0] == prev[0]
  {
    if |prev| == 1 then [prev[0], p] else [p]
  }

  /** Two presses from nothing give a start and a destination; a third starts over. */
  lemma ThreePresses(a: Coordinate, b: Coordinate, c: Coordinate)
    ensures PressStops([], a) == [a]
    ensures PressStops(PressStops([], a), b) == [a, b]
    ensures PressStops(PressStops(PressStops([], a), b), c) == [c]
  {
  }

  /** The stops after choosing the place at `c` for field `field`: the start field puts it
      first (in front of a lone stop), any other field puts it second (or first when
      there are no stops). */
  function SelectStops(prev: seq<Coordinate>, field: int, c: Coordinate): (r: seq<Coordinate>)
    ensures |r| == if |prev| <= 1 then |prev| + 1 else |prev|
    ensures field == 0 ==> r[0] == c
    ensures field == 0 && |prev| == 1 ==> r == [c, prev[0]]
    ensures field != 0 && |prev| == 0 ==> r == [c]
    ensures field != 0 && |prev| >= 1 ==> r[0] == prev[0] && r[1] == c
    ensures forall i :: 2 <= i < |prev| ==> r[i] == prev[i]
    ensures |prev| >= 2 ==> (field == 0 ==> r[1] == prev[1])
  {
    if field == 0 then
      if |prev| == 0 then [c] else if |prev| == 1 then [c, prev[0]] else prev[0 := c]
    else
      if |prev| == 0 then [c] else if |prev| == 1 then prev + [c] else prev[1 := c]
  }

  // ---------------------------------------------------------- suggestions

  /** An entry of the search index. */
  datatype Place = Place(id: int, name: string, lat: real, lon: real)

  const MaxSuggestions := 20

  predicate NameMatches(p: Place, q: string)
  {
    Contains(Lower(p.name), q)
  }

  /** The suggestions for a typed text: the first 20 places whose lower-cased name
      contains the trimmed, lower-cased text; none for blank text. */
  function Suggestions(places: seq<Place>, text: string): (r: seq<Place>)
    ensures |r| <= MaxSuggestions
    ensures IsBlank(JavaScript, text) ==> r == []
    ensures forall p :: p in r ==> p in places && NameMatches(p, Lower(Trim(JavaScript, text)))
    ensures !IsBlank(JavaScript, text) && |r| < MaxSuggestions ==>
      forall p :: p in places && NameMatches(p, Lower(Trim(JavaScript, text))) ==> p in r
  {
    TrimEmptyIffBlank(JavaScript, text);
    var q := Lower(Trim(JavaScript, text));
    if q == [] then []
    else
      var matches := Filter(places, (p: Place) => NameMatches(p, q));
      if |matches| <= MaxSuggestions then matches
      else
        assert forall k :: 0 <= k < MaxSuggestions ==> matches[..MaxSuggestions][k] in matches;
        matches[..MaxSuggestions]
  }

  /** Suggestions keep the order of the index: they are a prefix of the matching places. */
  lemma SuggestionsArePrefix(places: seq<Place>, text: string)
    requires !IsBlank(JavaScript, text)
    ensures var matches := Filter(places, (p: Place) => NameMatches(p, Lower(Trim(JavaScript, text))));
      Suggestions(places, text) == matches[..|Suggestions(places, text)|]
      && |Suggestions(places, text)| == Min(MaxSuggestions, |matches|)
  {
    TrimEmptyIffBlank(JavaScript, text);
  }

  // -------------------------------------------------------------- filters

  /** `toggleFilter`: a present name is removed (every copy), an absent one appended. */
  function ToggleFilter(filters: seq<string>, name: string): (r: seq<string>)
    ensures name in r <==> name !in filters
    ensures forall f :: f != name ==> (f in r <==> f in filters)
  {
    if name in filters then Filter(filters, (f: string) => f != name) else filters + [name]
  }

  /** Toggling an absent name twice gives the list back exactly. */
  lemma ToggleTwiceAbsent(filters: seq<string>, name: string)
    requires name !in filters
    ensures ToggleFilter(ToggleFilter(filters, name), name) == filters
  {
    FilterNoneRemoved(filters, name);
    FilterAppend(filters, [name], (f: string) => f != name);
  }

  /** Toggling a present name twice moves it to the end: the same names, the others in
      their order. */
  lemma ToggleTwicePresent(filters: seq<string>, name: string)
    requires name in filters
    ensures ToggleFilter(ToggleFilter(filters, name), name) == Filter(filters, (f: string) => f != name) + [name]
    ensures forall f :: f in ToggleFilter(ToggleFilter(filters, name), name) <==> f in filters
  {
  }

  lemma {:induction false} FilterNoneRemoved(filters: seq<string>, name: string)
    requires name !in filters
    ensures Filter(filters, (f: string) => f != name) == filters
  {
    if filters != [] {
      FilterNoneRemoved(filters[1..], name);
      assert filters == [filters[0]] + filters[1..];
    }
  }

  // ------------------------------------------------------------ the screen

  const MaxStops := 5
  const TransportModes: seq<string> := ["Walk", "ATV", "Snowmobile"]

  /** The route summary shown under the map. */
  datatype RouteInfo = RouteInfo(distanceKm: string, durationMin: string)

  class RoutePlanner {
    var stops: seq<Coordinate>
    var routeCoords: seq<Coordinate>
    var routeInfo: Option<RouteInfo>
    var searchInputs: seq<string>
    var activeFilters: seq<string>
    var transportMode: string
    var suggestions: seq<Place>
    var activeFieldIndex: Option<int>
    /** The `fetchRoute(origin, destination)` calls made so far, in order. */
    var requested: seq<(Coordinate, Coordinate)>

    /** At most two stops; between two and five input fields. */
    predicate Valid()
      reads this
    {
      |stops| <= 2 && 2 <= |searchInputs| <= MaxStops
    }

    constructor()
      ensures Valid()
      ensures stops == [] && routeCoords == [] && routeInfo == None && searchInputs == ["", ""]
      ensures activeFilters == [] && transportMode == "Walk" && suggestions == [] && activeFieldIndex == None
      ensures requested == []
    {
      stops, routeCoords, routeInfo := [], [], None;
      searchInputs := ["", ""];
      activeFilters, transportMode := [], "Walk";
      suggestions, activeFieldIndex := [], None;
      requested := [];
    }

    /** `onMapLongPress`: the two-step reducer. A completing press requests the route
        and leaves the current route shown; the other presses clear it. */
    method Press(p: Coordinate)
      requires Valid()
      modifies this
      ensures Valid()
      ensures stops == PressStops(old(stops), p)
      ensures |old(stops)| == 1 ==> (requested == old(requested) + [(old(stops)[0], p)]
        && routeCoords == old(routeCoords) && routeInfo == old(routeInfo))
      ensures |old(stops)| != 1 ==> requested == old(requested) && routeCoords == [] && routeInfo == None
      ensures searchInputs == old(searchInputs) && activeFilters == old(activeFilters)
      ensures transportMode == old(transportMode) && suggestions == old(suggestions)
      ensures activeFieldIndex == old(activeFieldIndex)
    {
      if |stops| == 0 {
        routeCoords, routeInfo := [], None;
        stops := [p];
      } else if |stops| == 1 {
        var origin := stops[0];
        requested := requested + [(origin, p)];
        stops := [origin, p];
      } else {
        routeCoords, routeInfo := [], None;
        stops := [p];
      }
    }

    /** `onMarkerPress`: `latitude`/`longitude` win over `lat`/`lng`; a marker without
        a full pair changes nothing. */
    method PressMarker(m: MarkerItem)
      requires Valid()
      modifies this
      ensures Valid()
      ensures OrElse(m.latitude, m.lat).None? || OrElse(m.longitude, m.lng).None? ==>
        stops == old(stops) && requested == old(requested) && routeCoords == old(routeCoords) && routeInfo == old(routeInfo)
      ensures OrElse(m.latitude, m.lat).Some? && OrElse(m.longitude, m.lng).Some? ==>
        var p := Coordinate(OrElse(m.latitude, m.lat).value, OrElse(m.longitude, m.lng).value);
        stops == PressStops(old(stops), p)
        && (|old(stops)| == 1 ==>
              requested == old(requested) + [(old(stops)[0], p)] && routeCoords == old(routeCoords) && routeInfo == old(routeInfo))
        && (|old(stops)| != 1 ==> requested == old(requested) && routeCoords == [] && routeInfo == None)
      ensures searchInputs == old(searchInputs) && activeFilters == old(activeFilters)
      ensures transportMode == old(transportMode) && suggestions == old(suggestions)
      ensures activeFieldIndex == old(activeFieldIndex)
    {
      var lat := OrElse(m.latitude, m.lat);
      var lng := OrElse(m.longitude, m.lng);
      if lat.None? || lng.None? {
        return;
      }
      Press(Coordinate(lat.value, lng.value));
    }

    /** `handleChangeSearchInput` for a rendered field. */
    method ChangeSearchInput(index: int, text: string, places: seq<Place>)
      requires Valid() && 0 <= index < |searchInputs|
      modifies this
      ensures Valid()
      ensures searchInputs == old(searchInputs)[index := text]
      ensures suggestions == Suggestions(places, text)
      ensures stops == old(stops) && requested == old(requested) && routeCoords == old(routeCoords)
      ensures routeInfo == old(routeInfo) && activeFilters == old(activeFilters)
      ensures transportMode == old(transportMode) && activeFieldIndex == old(activeFieldIndex)
    {
      searchInputs := searchInputs[index := text];
      var q := Lower(Trim(JavaScript, text));
      if q == [] {
        suggestions := [];
        return;
      }
      var matches := Filter(places, (p: Place) => NameMatches(p, q));
      suggestions := if |matches| <= MaxSuggestions then matches else matches[..MaxSuggestions];
    }

    /** `handleSelectSuggestion`: the field shows the place's name, the suggestions close,
        the stops take the place's coordinate and the route is cleared. */
    method SelectSuggestion(fieldIndex: int, place: Place)
      requires Valid() && 0 <= fieldIndex < |searchInputs|
      modifies this
      ensures Valid()
      ensures searchInputs == old(searchInputs)[fieldIndex := place.name]
      ensures suggestions == [] && activeFieldIndex == None
      ensures stops == SelectStops(old(stops), fieldIndex, Coordinate(place.lat, place.lon))
      ensures routeCoords == [] && routeInfo == None && requested == old(requested)
      ensures activeFilters == old(activeFilters) && transportMode == old(transportMode)
    {
      var coord := Coordinate(place.lat, place.lon);
      searchInputs := searchInputs[fieldIndex := place.name];
      suggestions, activeFieldIndex := [], None;
      var next := stops;
      if fieldIndex == 0 {
        if |next| == 0 {
          next := [coord];
        } else if |next| == 1 {
          next := [coord, next[0]];
        } else {
          next := next[0 := coord];
        }
      } else {
        if |next| == 0 {
          next := [coord];
        } else if |next| == 1 {
          next := next + [coord];
        } else {
          next := next[1 := coord];
        }
      }
      stops := next;
      routeCoords, routeInfo := [], None;
    }

    /** `handleAddStop`: an empty field just before the destination, up to five fields. */
    method AddStop()
      requires Valid()
      modifies this
      ensures Valid()
      ensures |old(searchInputs)| >= MaxStops ==> searchInputs == old(searchInputs)
      ensures |old(searchInputs)| < MaxStops ==>
        var n := |old(searchInputs)|;
        searchInputs == old(searchInputs)[..n - 1] + [""] + [old(searchInputs)[n - 1]]
      ensures searchInputs[0] == old(searchInputs)[0]
      ensures searchInputs[|searchInputs| - 1] == old(searchInputs)[|old(searchInputs)| - 1]
      ensures stops == old(stops) && requested == old(requested) && activeFilters == old(activeFilters)
      ensures routeCoords == old(routeCoords) && routeInfo == old(routeInfo) && transportMode == old(transportMode)
      ensures suggestions == old(suggestions) && activeFieldIndex == old(activeFieldIndex)
    {
      if |searchInputs| >= MaxStops {
        return;
      }
      var n := |searchInputs|;
      searchInputs := searchInputs[..n - 1] + [""] + searchInputs[n - 1..];
    }

    /** `toggleFilter` */
    method ToggleDetailFilter(name: string)
      requires Valid()
      modifies this
      ensures Valid()
      ensures activeFilters == ToggleFilter(old(activeFilters), name)
      ensures stops == old(stops) && searchInputs == old(searchInputs) && requested == old(requested)
      ensures routeCoords == old(routeCoords) && routeInfo == old(routeInfo) && transportMode == old(transportMode)
      ensures suggestions == old(suggestions) && activeFieldIndex == old(activeFieldIndex)
    {
      activeFilters := ToggleFilter(activeFilters, name);
    }

    /** `handleSearchStart`: a route is requested only with a start and a destination. */
    method SearchStart()
      requires Valid()
      modifies this
      ensures Valid()
      ensures suggestions == [] && activeFieldIndex == None
      ensures |stops| < 2 ==> requested == old(requested)
      ensures |stops| >= 2 ==> requested == old(requested) + [(stops[0], stops[1])]
      ensures stops == old(stops) && searchInputs == old(searchInputs) && routeCoords == old(routeCoords)
      ensures routeInfo == old(routeInfo) && activeFilters == old(activeFilters) && transportMode == old(transportMode)
    {
      suggestions, activeFieldIndex := [], None;
      if |stops| < 2 {
        return;
      }
      requested := requested + [(stops[0], stops[1])];
    }

    /** `handleClear` */
    method Clear()
      modifies this
      ensures Valid()
      ensures stops == [] && routeCoords == [] && routeInfo == None && searchInputs == ["", ""]
      ensures activeFilters == [] && transportMode == "Walk" && suggestions == [] && activeFieldIndex == None
      ensures requested == old(requested)
    {
      stops, routeCoords, routeInfo := [], [], None;
      searchInputs := ["", ""];
      activeFilters, transportMode := [], "Walk";
      suggestions, activeFieldIndex := [], None;
    }
  }
}
