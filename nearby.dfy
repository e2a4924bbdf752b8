/** The proximity query of the mobile app: given a global id, the places of the
    bundled search index that lie within a radius of the place carrying that id,
    nearest first, and the first global id of each of them. The great-circle
    distance is a parameter of the model. */
module Nearby {
  import opened Common
  import opened Sorting

  datatype PlaceKind = Marker | Feature

  /** An entry of the search index. Absent optional fields are `None`. */
  datatype Place = Place(
    labelText: string,  // `label`
    lat: real,
    lon: real,
    kind: PlaceKind,
    source: Option<string>,
    globalIds: Option<seq<string>>)

  /** The distance in miles from (lat1, lon1) to (lat2, lon2). */
  type DistanceFn = (real, real, real, real) -> real

  const DefaultRadiusMiles: real := 5.0

  predicate HasGlobalId(p: Place, id: string)
  {
    p.globalIds.Some? && id in p.globalIds.value
  }

  function FindFrom(places: seq<Place>, id: string, i: nat): (r: Option<nat>)
    requires i <= |places|
    ensures r.Some? ==> i <= r.value < |places| && HasGlobalId(places[r.value], id)
    ensures r.Some? ==> forall j :: i <= j < r.value ==> !HasGlobalId(places[j], id)
    ensures r.None? ==> forall j :: i <= j < |places| ==> !HasGlobalId(places[j], id)
    decreases |places| - i
  {
    if i == |places| then None
    else if HasGlobalId(places[i], id) then Some(i)
    else FindFrom(places, id, i + 1)
  }

  /** The position of the first place whose global ids include `id`, if any. */
  function FindCenter(places: seq<Place>, id: string): (r: Option<nat>)
    ensures r.Some? ==> r.value < |places| && HasGlobalId(places[r.value], id)
    ensures r.Some? ==> forall j :: 0 <= j < r.value ==> !HasGlobalId(places[j], id)
    ensures r.None? <==> forall j :: 0 <= j < |places| ==> !HasGlobalId(places[j], id)
  {
    FindFrom(places, id, 0)
  }

  /** Strict equality on label, source, latitude and longitude: such a place is taken
      to be the centre itself and skipped. */
  predicate SameSpot(p: Place, c: Place)
  {
    p.labelText == c.labelText && p.source == c.source && p.lat == c.lat && p.lon == c.lon
  }

  function DistanceFrom(c: Place, p: Place, dist: DistanceFn): real
  {
    dist(c.lat, c.lon, p.lat, p.lon)
  }

  predicate Kept(c: Place, p: Place, radius: real, dist: DistanceFn)
  {
    !SameSpot(p, c) && DistanceFrom(c, p, dist) <= radius
  }

  /** A place of the index with its position and its distance from the centre. */
  datatype Ranked = Ranked(index: nat, place: Place, distance: real)

  predicate ByDistance(a: Ranked, b: Ranked)
  {
    a.distance <= b.distance
  }

  predicate IndexBefore(a: Ranked, b: Ranked)
  {
    a.index < b.index
  }

  lemma ByDistanceTotalPreorder()
    ensures TotalPreorder(ByDistance)
  {
  }

  /** The kept places from position `i` on, with their distances, in index order. */
  function CandidatesFrom(places: seq<Place>, c: Place, radius: real, dist: DistanceFn, i: nat): (r: seq<Ranked>)
    requires i <= |places|
    ensures |r| <= |places| - i
    ensures forall x :: x in r ==>
      && i <= x.index < |places| && x.place == places[x.index]
      && x.distance == DistanceFrom(c, x.place, dist) && Kept(c, x.place, radius, dist)
    ensures forall j :: i <= j < |places| && Kept(c, places[j], radius, dist) ==>
      Ranked(j, places[j], DistanceFrom(c, places[j], dist)) in r
    ensures ChainedBy(r, IndexBefore)
    decreases |places| - i
  {
    if i == |places| then []
    else
      var rest := CandidatesFrom(places, c, radius, dist, i + 1);
      if Kept(c, places[i], radius, dist) then
        [Ranked(i, places[i], DistanceFrom(c, places[i], dist))] + rest
      else rest
  }

  /** The ranked results, nearest first, ties in index order. */
  function NearbyRanked(places: seq<Place>, globalId: string, radius: real, dist: DistanceFn): seq<Ranked>
  {
    match FindCenter(places, globalId)
    case None => []
    case Some(c) => SortBy(CandidatesFrom(places, places[c], radius, dist, 0), ByDistance)
  }

  function Unranked(rs: seq<Ranked>): (r: seq<Place>)
    ensures |r| == |rs|
    ensures forall k :: 0 <= k < |rs| ==> r[k] == rs[k].place
  {
    if rs == [] then [] else [rs[0].place] + Unranked(rs[1..])
  }

  /** `getNearbyByGlobalId(globalId, radiusMiles)` */
  function GetNearbyByGlobalId(places: seq<Place>, globalId: string, radius: real, dist: DistanceFn): (r: seq<Place>)
    ensures |r| <= |places|
    ensures FindCenter(places, globalId).None? ==> r == []
  {
    Unranked(NearbyRanked(places, globalId, radius, dist))
  }

  /** Everything returned is a place of the index, is not at the centre's spot and lies
      within the radius. */
  lemma {:induction false} NearbySound(places: seq<Place>, globalId: string, radius: real, dist: DistanceFn, k: nat)
    requires k < |GetNearbyByGlobalId(places, globalId, radius, dist)|
    ensures FindCenter(places, globalId).Some?
    ensures var c := places[FindCenter(places, globalId).value];
            var p := GetNearbyByGlobalId(places, globalId, radius, dist)[k];
            p in places && !SameSpot(p, c) && DistanceFrom(c, p, dist) <= radius
  {
    var ci := FindCenter(places, globalId).value;
    var cands := CandidatesFrom(places, places[ci], radius, dist, 0);
    var rs := NearbyRanked(places, globalId, radius, dist);
    assert rs[k] in multiset(cands);
  }

  /** Every place of the index that is kept by the filter is returned. */
  lemma {:induction false} NearbyComplete(places: seq<Place>, globalId: string, radius: real, dist: DistanceFn, j: nat)
    requires FindCenter(places, globalId).Some? && j < |places|
    requires Kept(places[FindCenter(places, globalId).value], places[j], radius, dist)
    ensures places[j] in GetNearbyByGlobalId(places, globalId, radius, dist)
  {
    var c := places[FindCenter(places, globalId).value];
    var cands := CandidatesFrom(places, c, radius, dist, 0);
    var rs := NearbyRanked(places, globalId, radius, dist);
    var x := Ranked(j, places[j], DistanceFrom(c, places[j], dist));
    assert x in multiset(rs);
    var k :| 0 <= k < |rs| && rs[k] == x;
    assert GetNearbyByGlobalId(places, globalId, radius, dist)[k] == places[j];
  }

  /** A larger radius never loses a result. */
  lemma {:induction false} NearbyMonotoneInRadius(places: seq<Place>, globalId: string, r1: real, r2: real, dist: DistanceFn, p: Place)
    requires r1 <= r2
    requires p in GetNearbyByGlobalId(places, globalId, r1, dist)
    ensures p in GetNearbyByGlobalId(places, globalId, r2, dist)
  {
    var small := GetNearbyByGlobalId(places, globalId, r1, dist);
    var k :| 0 <= k < |small| && small[k] == p;
    NearbySound(places, globalId, r1, dist, k);
    var j :| 0 <= j < |places| && places[j] == p;
    NearbyComplete(places, globalId, r2, dist, j);
  }

  /** The ranked results are a permutation of the kept places. */
  lemma {:induction false} NearbyPermutation(places: seq<Place>, globalId: string, radius: real, dist: DistanceFn)
    requires FindCenter(places, globalId).Some?
    ensures var c := places[FindCenter(places, globalId).value];
      multiset(NearbyRanked(places, globalId, radius, dist)) == multiset(CandidatesFrom(places, c, radius, dist, 0))
  {
  }

  /** Results come nearest first. */
  lemma {:induction false} NearbySorted(places: seq<Place>, globalId: string, radius: real, dist: DistanceFn, a: nat, b: nat)
    requires a < b < |NearbyRanked(places, globalId, radius, dist)|
    ensures var rs := NearbyRanked(places, globalId, radius, dist); rs[a].distance <= rs[b].distance
  {
    var ci := FindCenter(places, globalId).value;
    ByDistanceTotalPreorder();
    SortBySorted(CandidatesFrom(places, places[ci], radius, dist, 0), ByDistance);
  }

  /** Places at equal distance keep the order they have in the index (the sort is stable). */
  lemma {:induction false} NearbyTiesInIndexOrder(places: seq<Place>, globalId: string, radius: real, dist: DistanceFn, a: nat, b: nat)
    requires a < b < |NearbyRanked(places, globalId, radius, dist)|
    requires var rs := NearbyRanked(places, globalId, radius, dist); rs[a].distance == rs[b].distance
    ensures var rs := NearbyRanked(places, globalId, radius, dist); rs[a].index < rs[b].index
  {
    var ci := FindCenter(places, globalId).value;
    var cands := CandidatesFrom(places, places[ci], radius, dist, 0);
    assert NearbyRanked(places, globalId, radius, dist) == SortBy(cands, ByDistance);
    ByDistanceTotalPreorder();
    SortByKeepsChainOnTies(cands, ByDistance, IndexBefore, a, b);
  }

  // ------------------------------------------------------------ first ids

  /** `p.global_ids?.[0]` when it is a non-empty string. */
  function FirstId(p: Place): Option<string>
  {
    if p.globalIds.Some? && |p.globalIds.value| > 0 && p.globalIds.value[0] != "" then
      Some(p.globalIds.value[0])
    else None
  }

  function FirstIds(ps: seq<Place>): (r: seq<string>)
    ensures |r| <= |ps|
  {
    if ps == [] then []
    else (if FirstId(ps[0]).Some? then [FirstId(ps[0]).value] else []) + FirstIds(ps[1..])
  }

  function Shift(o: seq<nat>): (r: seq<nat>)
    ensures |r| == |o| && forall k :: 0 <= k < |o| ==> r[k] == o[k] + 1
  {
    if o == [] then [] else [o[0] + 1] + Shift(o[1..])
  }

  ghost predicate Increasing(o: seq<nat>)
  {
    forall a, b :: 0 <= a < b < |o| ==> o[a] < o[b]
  }

  /** The positions of `ps` that contribute an id to `FirstIds(ps)`. */
  function IdSources(ps: seq<Place>): (o: seq<nat>)
    ensures |o| == |FirstIds(ps)|
  {
    if ps == [] then []
    else (if FirstId(ps[0]).Some? then [0] else []) + Shift(IdSources(ps[1..]))
  }

  /** Position `o[k]` of `ps` holds the id `ids[k]`, for every k. */
  ghost predicate SourcesOf(ps: seq<Place>, o: seq<nat>, ids: seq<string>)
  {
    |o| == |ids| && forall k :: 0 <= k < |o| ==> o[k] < |ps| && FirstId(ps[o[k]]) == Some(ids[k])
  }

  lemma ShiftSources(ps: seq<Place>, o: seq<nat>, ids: seq<string>)
    requires ps != [] && SourcesOf(ps[1..], o, ids)
    ensures SourcesOf(ps, Shift(o), ids)
  {
    forall k | 0 <= k < |o| ensures Shift(o)[k] < |ps| && FirstId(ps[Shift(o)[k]]) == Some(ids[k]) {
      assert ps[Shift(o)[k]] == ps[1..][o[k]];
    }
  }

  lemma ConsSources(ps: seq<Place>, o: seq<nat>, ids: seq<string>)
    requires ps != [] && FirstId(ps[0]).Some? && SourcesOf(ps, o, ids)
    ensures SourcesOf(ps, [0] + o, [FirstId(ps[0]).value] + ids)
  {
    forall k | 0 < k < |o| + 1 ensures ([0] + o)[k] == o[k - 1] && ([FirstId(ps[0]).value] + ids)[k] == ids[k - 1] {}
  }

  /** Each contributing position holds the id it contributes. */
  lemma {:induction false} IdSourcesSound(ps: seq<Place>)
    ensures var o := IdSources(ps);
      forall k :: 0 <= k < |o| ==> o[k] < |ps| && FirstId(ps[o[k]]) == Some(FirstIds(ps)[k])
  {
    IdSourcesOf(ps);
  }

  lemma {:induction false} IdSourcesOf(ps: seq<Place>)
    ensures SourcesOf(ps, IdSources(ps), FirstIds(ps))
  {
    if ps != [] {
      var tl := ps[1..];
      IdSourcesOf(tl);
      ShiftSources(ps, IdSources(tl), FirstIds(tl));
      if FirstId(ps[0]).Some? {
        ConsSources(ps, Shift(IdSources(tl)), FirstIds(tl));
      }
    }
  }

  lemma ConsIncreasing(o: seq<nat>)
    requires Increasing(o) && forall k :: 0 <= k < |o| ==> o[k] > 0
    ensures Increasing([0] + o)
  {
    forall a, b | 0 <= a < b < |o| + 1 ensures ([0] + o)[a] < ([0] + o)[b] {
      if a > 0 { assert ([0] + o)[a] == o[a - 1]; }
      assert ([0] + o)[b] == o[b - 1];
    }
  }

  /** The contributing positions increase, so the ids come in the order of `ps`. */
  lemma {:induction false} IdSourcesIncreasing(ps: seq<Place>)
    ensures Increasing(IdSources(ps))
  {
    if ps != [] {
      IdSourcesIncreasing(ps[1..]);
      var sh := Shift(IdSources(ps[1..]));
      assert Increasing(sh);
      if FirstId(ps[0]).Some? {
        ConsIncreasing(sh);
      }
    }
  }

  /** Every place with a usable first id contributes it. */
  lemma {:induction false} IdSourcesComplete(ps: seq<Place>, j: nat)
    requires j < |ps| && FirstId(ps[j]).Some?
    ensures j in IdSources(ps)
  {
    var o := IdSources(ps);
    if j == 0 {
      assert o[0] == 0;
    } else {
      var tl := ps[1..];
      assert ps[j] == tl[j - 1];
      IdSourcesComplete(tl, j - 1);
      var rest := IdSources(tl);
      var sh := Shift(rest);
      var k :| 0 <= k < |rest| && rest[k] == j - 1;
      assert sh[k] == j;
      if FirstId(ps[0]).Some? {
        assert o == [0] + sh;
        assert o[k + 1] == j;
      } else {
        assert o == sh;
      }
    }
  }

  /** `getNearbyGlobalIds(globalId, radiusMiles)` */
  function GetNearbyGlobalIds(places: seq<Place>, globalId: string, radius: real, dist: DistanceFn): (r: seq<string>)
    ensures |r| <= |GetNearbyByGlobalId(places, globalId, radius, dist)|
    ensures forall k :: 0 <= k < |r| ==> r[k] != ""
  {
    var ps := GetNearbyByGlobalId(places, globalId, radius, dist);
    IdSourcesSound(ps);
    FirstIds(ps)
  }

  /** Ids are the first ids of the nearby places, in proximity order, and nothing is
      deduplicated: two places with the same first id give it twice. */
  lemma NoDeduplication(p: Place)
    requires FirstId(p).Some?
    ensures FirstIds([p, p]) == [FirstId(p).value, FirstId(p).value]
  {
    assert [p, p][1..] == [p];
    assert [p][1..] == [];
  }
}
