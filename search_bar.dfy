/** The admin search bar: the location features whose name contains the query, sorted
    and made distinct by name, preceded by the matching settings in reverse order, and cut
    to five results. */
module SearchBar {
  import opened Common
  import opened Sorting

  /** A park feature; `attributes` and `Name` may be null. */
  datatype Attributes = Attributes(objectId: int, name: Option<string>)
  datatype Feature = Feature(attributes: Option<Attributes>)

  /** One entry of the settings file. */
  datatype Setting = Setting(labelText: string)

  datatype Source = Location | Settings
  datatype Hit = Hit(source: Source, objectId: int, name: string)

  const MaxResults := 5

  /** The filter on line 21: non-null attributes and name, name containing the query. */
  predicate MatchesPark(q: string, f: Feature)
  {
    f.attributes.Some? && f.attributes.value.name.Some?
    && Contains(Lower(f.attributes.value.name.value), Lower(q))
  }

  /** `localeCompare` on names, as code-point order. */
  predicate ByName(a: Hit, b: Hit)
  {
    StrLe(a.name, b.name)
  }

  lemma ByNameTotalPreorder()
    ensures TotalPreorder(ByName)
  {
    forall a: Hit, b: Hit ensures ByName(a, b) || ByName(b, a) { StrLeTotal(a.name, b.name); }
    forall a: Hit, b: Hit, c: Hit | ByName(a, b) && ByName(b, c) ensures ByName(a, c) {
      StrLeTransitive(a.name, b.name, c.name);
    }
  }

  /** The projection on lines 24-30 of a feature the filter kept. */
  function ToHit(f: Feature): Hit
    requires f.attributes.Some? && f.attributes.value.name.Some?
  {
    Hit(Location, f.attributes.value.objectId, f.attributes.value.name.value)
  }

  /** The kept features as location hits. */
  function LocationHits(q: string, fs: seq<Feature>): (r: seq<Hit>)
    ensures |r| <= |fs|
    ensures forall i :: 0 <= i < |r| ==> r[i].source == Location && Contains(Lower(r[i].name), Lower(q))
    ensures forall f :: f in fs && MatchesPark(q, f) ==> ToHit(f) in r
    ensures forall h :: h in r ==> exists f :: f in fs && MatchesPark(q, f) && h == ToHit(f)
  {
    if fs == [] then []
    else
      var rest := LocationHits(q, fs[1..]);
      assert forall f :: f in fs[1..] ==> f in fs;
      if MatchesPark(q, fs[0]) then [ToHit(fs[0])] + rest else rest
  }

  /** `index === self.findIndex(t => t.Name === item.Name)`: an entry is kept when no
      earlier entry has the same name. */
  predicate FirstOfName(s: seq<Hit>, i: int)
    requires 0 <= i < |s|
  {
    forall j :: 0 <= j < i ==> s[j].name != s[i].name
  }

  function DistinctByName(s: seq<Hit>): (r: seq<Hit>)
    ensures |r| <= |s|
    ensures forall h :: h in r ==> h in s
  {
    if s == [] then []
    else
      var init := DistinctByName(s[..|s| - 1]);
      assert forall h :: h in s[..|s| - 1] ==> h in s;
      if FirstOfName(s, |s| - 1) then init + [s[|s| - 1]] else init
  }

  ghost predicate NamesDistinct(s: seq<Hit>)
  {
    forall i, j :: 0 <= i < j < |s| ==> s[i].name != s[j].name
  }

  /** No two results share a name, and every name of the input is among the results,
      represented by its first occurrence. */
  lemma DistinctByNameMeaning(s: seq<Hit>)
    ensures NamesDistinct(DistinctByName(s))
    ensures forall i :: 0 <= i < |s| && FirstOfName(s, i) ==> s[i] in DistinctByName(s)
    ensures forall h :: h in DistinctByName(s) ==> exists i :: 0 <= i < |s| && FirstOfName(s, i) && s[i] == h
  {
    DistinctByNameDistinct(s);
    DistinctByNameKeepsFirsts(s);
    DistinctByNameSources(s);
  }

  /** Every kept entry is the first of its name. */
  lemma {:induction false} DistinctByNameSources(s: seq<Hit>)
    ensures forall h :: h in DistinctByName(s) ==> exists i :: 0 <= i < |s| && FirstOfName(s, i) && s[i] == h
  {
    if s != [] {
      var init := s[..|s| - 1];
      DistinctByNameSources(init);
      forall h | h in DistinctByName(s) ensures exists i :: 0 <= i < |s| && FirstOfName(s, i) && s[i] == h {
        if h in DistinctByName(init) {
          var i :| 0 <= i < |init| && FirstOfName(init, i) && init[i] == h;
          assert FirstOfName(s, i) && s[i] == h;
        } else {
          assert FirstOfName(s, |s| - 1) && h == s[|s| - 1];
        }
      }
    }
  }

  lemma {:induction false} DistinctByNameDistinct(s: seq<Hit>)
    ensures NamesDistinct(DistinctByName(s))
  {
    if s != [] {
      var init := s[..|s| - 1];
      var last := s[|s| - 1];
      DistinctByNameDistinct(init);
      DistinctByNameSources(init);
      var d := DistinctByName(init);
      if FirstOfName(s, |s| - 1) {
        forall h | h in d ensures h.name != last.name {
          var i :| 0 <= i < |init| && FirstOfName(init, i) && init[i] == h;
          assert s[i] == h;
        }
        assert DistinctByName(s) == d + [last];
        forall i, j | 0 <= i < j < |d + [last]| ensures (d + [last])[i].name != (d + [last])[j].name {
          if j == |d| { assert (d + [last])[i] in d; }
        }
      }
    }
  }

  lemma {:induction false} DistinctByNameKeepsFirsts(s: seq<Hit>)
    ensures forall i :: 0 <= i < |s| && FirstOfName(s, i) ==> s[i] in DistinctByName(s)
  {
    if s != [] {
      var init := s[..|s| - 1];
      DistinctByNameKeepsFirsts(init);
      forall i | 0 <= i < |s| && FirstOfName(s, i) ensures s[i] in DistinctByName(s) {
        if i < |init| {
          assert FirstOfName(init, i) && init[i] == s[i];
        }
      }
    }
  }

  /** Keeping first occurrences keeps the order, so a sorted list stays sorted. */
  lemma {:induction false} DistinctByNameSorted(s: seq<Hit>)
    requires TotalPreorder(ByName) && SortedBy(s, ByName)
    ensures SortedBy(DistinctByName(s), ByName)
  {
    if s != [] {
      var init := s[..|s| - 1];
      DistinctByNameSorted(init);
      var d := DistinctByName(init);
      if FirstOfName(s, |s| - 1) {
        var r := d + [s[|s| - 1]];
        forall i, j | 0 <= i < j < |r| ensures ByName(r[i], r[j]) {
          if j == |d| {
            assert r[i] in init;
            var k :| 0 <= k < |init| && init[k] == r[i];
            assert ByName(s[k], s[|s| - 1]);
          }
        }
      }
    }
  }

  /** The location part of the results: filtered, sorted by name, distinct by name. */
  function Locations(q: string, fs: seq<Feature>): seq<Hit>
  {
    DistinctByName(SortBy(LocationHits(q, fs), ByName))
  }

  /** The settings whose label contains the query, as hits. */
  function SettingHits(q: string, ss: seq<Setting>): (r: seq<Hit>)
    ensures |r| <= |ss|
    ensures forall h :: h in r ==> h.source == Settings && h.objectId == -1 && Contains(Lower(h.name), Lower(q))
    ensures forall s :: s in ss && Contains(Lower(s.labelText), Lower(q)) ==> Hit(Settings, -1, s.labelText) in r
  {
    if ss == [] then []
    else
      var rest := SettingHits(q, ss[1..]);
      assert forall s :: s in ss ==> s == ss[0] || s in ss[1..];
      if Contains(Lower(ss[0].labelText), Lower(q)) then [Hit(Settings, -1, ss[0].labelText)] + rest else rest
  }

  /** The filter on the settings' labels. */
  function LabelMatches(q: string): Setting -> bool
  {
    (s: Setting) => Contains(Lower(s.labelText), Lower(q))
  }

  /** The setting hits are the matching settings themselves, one hit each and in the
      order of the settings file. */
  lemma {:induction false} SettingHitsInOrder(q: string, ss: seq<Setting>)
    ensures var kept := Filter(ss, LabelMatches(q));
      |SettingHits(q, ss)| == |kept|
      && forall k :: 0 <= k < |kept| ==> SettingHits(q, ss)[k] == Hit(Settings, -1, kept[k].labelText)
  {
    if ss != [] {
      SettingHitsInOrder(q, ss[1..]);
      var r, kept := SettingHits(q, ss), Filter(ss, LabelMatches(q));
      var rest, keptRest := SettingHits(q, ss[1..]), Filter(ss[1..], LabelMatches(q));
      if Contains(Lower(ss[0].labelText), Lower(q)) {
        assert r == [Hit(Settings, -1, ss[0].labelText)] + rest;
        assert kept == [ss[0]] + keptRest;
        forall k | 0 <= k < |kept| ensures r[k] == Hit(Settings, -1, kept[k].labelText) {
          if k > 0 {
            assert r[k] == rest[k - 1] && kept[k] == keptRest[k - 1];
          }
        }
      } else {
        assert r == rest && kept == keptRest;
      }
    }
  }

  function Reverse<T>(s: seq<T>): (r: seq<T>)
    ensures |r| == |s|
    ensures forall i :: 0 <= i < |s| ==> r[i] == s[|s| - 1 - i]
  {
    if s == [] then [] else Reverse(s[1..]) + [s[0]]
  }

  lemma ReverseSnoc<T>(s: seq<T>, i: nat)
    requires i < |s|
    ensures Reverse(s[..i + 1]) == [s[i]] + Reverse(s[..i])
  {
    var a, b := Reverse(s[..i + 1]), [s[i]] + Reverse(s[..i]);
    assert |a| == |b|;
    forall k | 0 <= k < |a| ensures a[k] == b[k] {
      if k > 0 { assert b[k] == Reverse(s[..i])[k - 1]; }
    }
  }

  /** `lookup`: the matching settings are put in front of the location hits, and the
      result is cut to five. */
  method Lookup(q: string, parks: seq<Feature>, settings: seq<Setting>) returns (r: seq<Hit>)
    ensures var all := Reverse(SettingHits(q, settings)) + Locations(q, parks);
      r == all[..Min(MaxResults, |all|)]
  {
    var searchResults := Unshift(SettingHits(q, settings), Locations(q, parks));
    r := searchResults[..Min(MaxResults, |searchResults|)];
  }

  /** The settings loop: each matching setting is `unshift`ed, so the last one ends up
      first. */
  method Unshift(matching: seq<Hit>, locs: seq<Hit>) returns (r: seq<Hit>)
    ensures r == Reverse(matching) + locs
  {
    r := locs;
    for i := 0 to |matching|
      invariant r == Reverse(matching[..i]) + locs
    {
      ReverseSnoc(matching, i);
      r := [matching[i]] + r;
    }
    assert matching[..|matching|] == matching;
  }

  /** Every location hit comes from the park layer. */
  lemma LocationsAreLocations(q: string, parks: seq<Feature>)
    ensures forall h :: h in Locations(q, parks) ==> h.source == Location
  {
    var hits := LocationHits(q, parks);
    var sorted := SortBy(hits, ByName);
    forall h | h in Locations(q, parks) ensures h.source == Location {
      assert h in sorted;
      assert h in multiset(hits);
    }
  }

  /** The location hits are sorted by name, carry no name twice, each contains the query,
      and every matching feature's name is among them. */
  lemma LocationsMeaning(q: string, parks: seq<Feature>)
    ensures var locs := Locations(q, parks);
      && SortedBy(locs, ByName) && NamesDistinct(locs)
      && (forall h :: h in locs ==> h.source == Location && Contains(Lower(h.name), Lower(q)))
      && (forall f :: f in parks && MatchesPark(q, f) ==> exists h :: h in locs && h.name == ToHit(f).name)
  {
    var hits := LocationHits(q, parks);
    var sorted := SortBy(hits, ByName);
    ByNameTotalPreorder();
    SortBySorted(hits, ByName);
    DistinctByNameSorted(sorted);
    DistinctByNameMeaning(sorted);
    forall f | f in parks && MatchesPark(q, f)
      ensures exists h :: h in Locations(q, parks) && h.name == ToHit(f).name
    {
      assert ToHit(f) in multiset(sorted);
      var k :| 0 <= k < |sorted| && sorted[k] == ToHit(f);
      var m := FirstIndexOfName(sorted, k);
      assert sorted[m] in Locations(q, parks);
    }
    forall h | h in Locations(q, parks) ensures h.source == Location && Contains(Lower(h.name), Lower(q)) {
      assert h in sorted;
      assert h in multiset(hits);
    }
  }

  /** The first position carrying the same name as position k. */
  lemma {:induction false} FirstIndexOfNameExists(s: seq<Hit>, k: nat)
    requires k < |s|
    ensures exists m :: 0 <= m <= k && FirstOfName(s, m) && s[m].name == s[k].name
  {
    if !FirstOfName(s, k) {
      var j :| 0 <= j < k && s[j].name == s[k].name;
      FirstIndexOfNameExists(s, j);
    }
  }

  ghost function FirstIndexOfName(s: seq<Hit>, k: nat): (m: nat)
    requires k < |s|
    ensures m <= k && FirstOfName(s, m) && s[m].name == s[k].name
  {
    FirstIndexOfNameExists(s, k);
    var m :| 0 <= m <= k && FirstOfName(s, m) && s[m].name == s[k].name; m
  }

  /** Each kept name carries the object id of its first occurrence in name order. */
  lemma KeepsFirstObjectId(q: string, parks: seq<Feature>, h: Hit)
    requires h in Locations(q, parks)
    ensures exists i :: (0 <= i < |SortBy(LocationHits(q, parks), ByName)|
      && FirstOfName(SortBy(LocationHits(q, parks), ByName), i)
      && SortBy(LocationHits(q, parks), ByName)[i] == h)
  {
    DistinctByNameMeaning(SortBy(LocationHits(q, parks), ByName));
  }

  /** The settings come first, the last matching setting at the top, and the rest are
      location hits. */
  lemma SettingsFirst(q: string, parks: seq<Feature>, settings: seq<Setting>, r: seq<Hit>)
    requires var all := Reverse(SettingHits(q, settings)) + Locations(q, parks);
      r == all[..Min(MaxResults, |all|)]
    ensures |r| <= MaxResults
    ensures forall i :: 0 <= i < |r| && i < |SettingHits(q, settings)| ==>
      r[i] == SettingHits(q, settings)[|SettingHits(q, settings)| - 1 - i]
    ensures forall i :: 0 <= i < |r| && i >= |SettingHits(q, settings)| ==> r[i].source == Location
  {
    var m := SettingHits(q, settings);
    var locs := Locations(q, parks);
    LocationsAreLocations(q, parks);
    var all := Reverse(m) + locs;
    forall i | 0 <= i < |r| && i >= |m| ensures r[i].source == Location {
      assert r[i] == all[i] == locs[i - |m|];
    }
  }

  /** The dropdown renders only with both input and results. */
  function ShowsDropdown(input: string, results: seq<Hit>): (b: bool)
    ensures b <==> input != [] && results != []
  {
    |input| > 0 && |results| > 0
  }
}
