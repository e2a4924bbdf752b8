/** The detail screen: the location with the requested id, and its "nearby" strip made of
    its children and its parent. */
module DetailScreen {
  import opened Common
  import opened Locations

  /** `locations.find(loc => loc.id === locationId)`; `None` renders the not-found view. */
  function FindLocation(locations: seq<Location>, id: string): (r: Option<Location>)
    ensures r.None? <==> forall loc :: loc in locations ==> loc.id != id
    ensures r.Some? ==> r.value in locations && r.value.id == id
    ensures r.Some? ==> exists i :: (0 <= i < |locations| && locations[i] == r.value
      && forall j :: 0 <= j < i ==> locations[j].id != id)
  {
    if locations == [] then None
    else if locations[0].id == id then Some(locations[0])
    else
      var r := FindLocation(locations[1..], id);
      assert forall loc :: loc in locations <==> loc == locations[0] || loc in locations[1..];
      if r.Some? then
        var i :| 0 <= i < |locations[1..]| && locations[1..][i] == r.value
          && forall j :: 0 <= j < i ==> locations[1..][j].id != id;
        assert locations[i + 1] == r.value;
        r
      else r
  }

  /** The `nearby` filter: another location that is a child of this one or is its parent. */
  function IsNearby(location: Location): Location -> bool
  {
    (loc: Location) => loc.id != location.id
      && (loc.parent == ParentId(location.id) || location.parent == ParentId(loc.id))
  }

  function Nearby(locations: seq<Location>, location: Location): (r: seq<Location>)
    ensures forall loc :: loc in r ==> loc in locations && loc.id != location.id
    ensures forall loc :: loc in r <==> (loc in locations && loc.id != location.id
      && (loc.parent == ParentId(location.id) || location.parent == ParentId(loc.id)))
  {
    Filter(locations, IsNearby(location))
  }

  /** A sibling, sharing the parent but being neither child nor parent, is never shown. */
  lemma SiblingsExcluded(locations: seq<Location>, location: Location, sibling: Location)
    requires location.parent.ParentId? && sibling.parent == location.parent
    requires sibling.id != location.parent.id && sibling.id != location.id
    requires location.parent.id != location.id
    ensures sibling !in Nearby(locations, location)
  {
  }

  /** The nearby strip keeps the order of the location list. */
  lemma NearbyInOrder(locations: seq<Location>, location: Location, i: nat, j: nat)
    requires i < j < |locations|
    requires IsNearby(location)(locations[i]) && IsNearby(location)(locations[j])
    ensures exists a, b :: (0 <= a < b < |Nearby(locations, location)|
      && Nearby(locations, location)[a] == locations[i] && Nearby(locations, location)[b] == locations[j])
  {
    FilterKeepsOrder(locations, IsNearby(location), i, j);
    var r := Filter(locations, IsNearby(location));
    var a, b :| 0 <= a < b < |r| && r[a] == locations[i] && r[b] == locations[j];
    assert Nearby(locations, location) == r;
  }

  /** A tile shows a distance only for a location with a parent (neither `null` nor
      missing) and a non-empty `approxDistFromParent`. */
  function TileDistance(loc: Location): (r: Option<string>)
    ensures r.Some? <==> loc.parent.ParentId? && loc.approxDistFromParent.Some? && loc.approxDistFromParent.value != ""
    ensures r.Some? ==> r == loc.approxDistFromParent
  {
    if loc.parent.ParentId? && loc.approxDistFromParent.Some? && loc.approxDistFromParent.value != ""
    then loc.approxDistFromParent else None
  }

  /** The "Nearby Locations" section renders only with something in it. */
  function ShowsNearbySection(locations: seq<Location>, location: Location): (b: bool)
    ensures b <==> exists loc :: loc in locations && IsNearby(location)(loc)
  {
    var r := Nearby(locations, location);
    assert r != [] ==> r[0] in r;
    |r| > 0
  }
}
