/** The tag results screen: the locations carrying an activity tag, or of that type. */
module TagResults {
  import opened Common
  import opened Locations

  /** `(l.activityTags || []).includes(tag) || l.type === tag` */
  function Tagged(tag: string): Location -> bool
  {
    (l: Location) => (l.activityTags.Some? && tag in l.activityTags.value) || l.kind == tag
  }

  /** `results`: a missing or empty tag finds nothing. */
  function Results(locations: seq<Location>, tag: Option<string>): (r: seq<Location>)
    ensures tag.None? || tag.value == "" ==> r == []
    ensures tag.Some? && tag.value != "" ==> forall l :: l in r <==> (l in locations
      && ((l.activityTags.Some? && tag.value in l.activityTags.value) || l.kind == tag.value))
  {
    if tag.Some? && tag.value != "" then Filter(locations, Tagged(tag.value)) else []
  }

  /** A location without activity tags is found only through its type. */
  lemma UntaggedOnlyByType(locations: seq<Location>, tag: string, l: Location)
    requires tag != "" && l in locations && l.activityTags.None?
    ensures l in Results(locations, Some(tag)) <==> l.kind == tag
  {
  }

  /** The results keep the order of the location list. */
  lemma ResultsInOrder(locations: seq<Location>, tag: string, i: nat, j: nat)
    requires tag != "" && i < j < |locations|
    requires Tagged(tag)(locations[i]) && Tagged(tag)(locations[j])
    ensures exists a, b :: (0 <= a < b < |Results(locations, Some(tag))|
      && Results(locations, Some(tag))[a] == locations[i] && Results(locations, Some(tag))[b] == locations[j])
  {
    FilterKeepsOrder(locations, Tagged(tag), i, j);
    var r := Filter(locations, Tagged(tag));
    var a, b :| 0 <= a < b < |r| && r[a] == locations[i] && r[b] == locations[j];
    assert Results(locations, Some(tag)) == r;
  }

  /** The "No results found" view shows exactly when nothing matched. */
  function ShowsNoResults(locations: seq<Location>, tag: Option<string>): (b: bool)
    ensures b <==> tag.None? || tag.value == "" || forall l :: l in locations ==> !Tagged(tag.value)(l)
  {
    var r := Results(locations, tag);
    assert r != [] ==> r[0] in r;
    |r| == 0
  }
}
