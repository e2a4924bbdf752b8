/** The saved-places store: a set of location ids kept as a JSON list under one storage
    key. The asynchronous storage is modelled as the list it holds. */
module SavedStore {
  import opened Common
  import opened Locations
  import opened Sorting

  /** `new Set(list)`: the first occurrence of each id, in order. */
  function Dedup(ids: seq<string>): (r: seq<string>)
    ensures Distinct(r)
    ensures forall x :: x in r <==> x in ids
  {
    if ids == [] then []
    else
      var init := Dedup(ids[..|ids| - 1]);
      assert forall x :: x in ids <==> x in ids[..|ids| - 1] || x == ids[|ids| - 1];
      if ids[|ids| - 1] in init then init else init + [ids[|ids| - 1]]
  }

  /** A list without duplicates is its own set. */
  lemma {:induction false} DedupDistinct(ids: seq<string>)
    requires Distinct(ids)
    ensures Dedup(ids) == ids
  {
    if ids != [] {
      DedupDistinct(ids[..|ids| - 1]);
      assert ids[|ids| - 1] !in ids[..|ids| - 1];
      assert ids[..|ids| - 1] + [ids[|ids| - 1]] == ids;
    }
  }

  /** `s.delete(id)` on an insertion-ordered set. */
  function Remove(ids: seq<string>, id: string): (r: seq<string>)
    ensures forall x :: x in r <==> x in ids && x != id
    ensures Distinct(ids) ==> Distinct(r)
  {
    assert Distinct(ids) ==> Distinct(Filter(ids, x => x != id)) by {
      if Distinct(ids) { FilterDistinct(ids, x => x != id); }
    }
    Filter(ids, x => x != id)
  }

  /** The list `toggleSaved` writes back: the stored set with `id` removed if present,
      appended otherwise. */
  function Toggled(stored: Option<seq<string>>, id: string): (r: seq<string>)
    ensures Distinct(r)
    ensures id in r <==> id !in Ids(stored)
    ensures forall x :: x != id ==> (x in r <==> x in Ids(stored))
  {
    var s := Ids(stored);
    if id in s then Remove(s, id) else s + [id]
  }

  /** `getSet`: a stored value that is missing or empty gives the empty set. */
  function Ids(stored: Option<seq<string>>): (r: seq<string>)
    ensures Distinct(r)
    ensures stored.None? ==> r == []
  {
    if stored.Some? then Dedup(stored.value) else []
  }

  /** Toggling twice gives the same set of ids back. */
  lemma ToggleTwice(stored: Option<seq<string>>, id: string)
    ensures forall x :: x in Toggled(Some(Toggled(stored, id)), id) <==> x in Ids(stored)
  {
    DedupDistinct(Toggled(stored, id));
  }

  /** Toggling an absent id twice restores the stored list itself, once it is a set. */
  lemma ToggleTwiceAbsent(stored: Option<seq<string>>, id: string)
    requires id !in Ids(stored)
    ensures Toggled(Some(Toggled(stored, id)), id) == Ids(stored)
  {
    var s := Ids(stored);
    DedupDistinct(s + [id]);
    FilterAppend(s, [id], x => x != id);
    FilterAll(s, x => x != id);
  }

  /** The stored ids and the locations of the app. */
  class Store {
    /** The list under the storage key; `None` when nothing is stored yet. */
    var stored: Option<seq<string>>

    constructor()
      ensures stored.None?
    {
      stored := None;
    }

    /** `isSaved` */
    method IsSaved(id: string) returns (b: bool)
      ensures b <==> id in Ids(stored)
    {
      var s := Ids(stored);
      b := id in s;
    }

    /** `toggleSaved`: reports the new state, which is true exactly when the id was not
        saved before. */
    method ToggleSaved(id: string) returns (b: bool)
      modifies this
      ensures stored == Some(Toggled(old(stored), id))
      ensures b <==> id !in Ids(old(stored))
    {
      var s := Ids(stored);
      if id in s {
        s := Remove(s, id);
      } else {
        s := s + [id];
      }
      stored := Some(s);
      DedupDistinct(s);
      b := id in Ids(stored);
    }

    /** `getSavedItems`: the saved locations, in location order. */
    method GetSavedItems(locations: seq<Location>) returns (items: seq<Location>)
      ensures items == SavedItems(locations, Ids(stored))
    {
      var s := Ids(stored);
      items := Filter(locations, SavedIn(s));
    }
  }

  /** `loc => s.has(loc.id)` */
  function SavedIn(ids: seq<string>): Location -> bool
  {
    (loc: Location) => loc.id in ids
  }

  function SavedItems(locations: seq<Location>, ids: seq<string>): (r: seq<Location>)
    ensures forall l :: l in r <==> l in locations && l.id in ids
  {
    Filter(locations, SavedIn(ids))
  }

  /** With nothing stored, nothing is saved and no location is listed. */
  lemma NothingStored(locations: seq<Location>, id: string)
    ensures id !in Ids(None)
    ensures SavedItems(locations, Ids(None)) == []
  {
    FilterNone(locations, SavedIn(Ids(None)));
  }

  /** The results keep the order of the location list. */
  lemma SavedItemsInOrder(locations: seq<Location>, ids: seq<string>, i: nat, j: nat)
    requires i < j < |locations|
    requires locations[i].id in ids && locations[j].id in ids
    ensures exists a, b :: (0 <= a < b < |SavedItems(locations, ids)|
      && SavedItems(locations, ids)[a] == locations[i] && SavedItems(locations, ids)[b] == locations[j])
  {
    FilterKeepsOrder(locations, SavedIn(ids), i, j);
    var r := Filter(locations, SavedIn(ids));
    var a, b :| 0 <= a < b < |r| && r[a] == locations[i] && r[b] == locations[j];
    assert SavedItems(locations, ids) == r;
  }
}
