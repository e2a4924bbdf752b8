/** The explore screen: top-level places that are neither lodging nor businesses, whose
    name contains the search text, shown five more at a time. */
module ExploreScreen {
  import opened Common
  import opened Locations

  const ItemsPerPage := 5

  /** The filter of `getPaginatedLocations`; the parent must be exactly `null`. */
  function Featured(text: string): Location -> bool
  {
    (loc: Location) =>
      loc.parent == NullParent && loc.kind != "Lodging" && loc.kind != "Business"
      && Contains(Lower(loc.name), Lower(text))
  }

  /** `getPaginatedLocations`: the first page * 5 matching locations. */
  function Shown(locations: seq<Location>, text: string, page: nat): (r: seq<Location>)
    ensures |r| == Min(page * ItemsPerPage, |Filter(locations, Featured(text))|)
    ensures r == Filter(locations, Featured(text))[..|r|]
    ensures forall loc :: loc in r ==> (loc in locations && loc.parent == NullParent
      && loc.kind != "Lodging" && loc.kind != "Business" && Contains(Lower(loc.name), Lower(text)))
  {
    var filtered := Filter(locations, Featured(text));
    var r := filtered[..Min(page * ItemsPerPage, |filtered|)];
    assert forall loc :: loc in r ==> loc in filtered;
    r
  }

  /** The Load More button shows while fewer locations are shown than there are in all. */
  function ShowsLoadMore(locations: seq<Location>, text: string, page: nat): (b: bool)
    ensures b <==> |Shown(locations, text, page)| < |locations|
  {
    |Shown(locations, text, page)| < |locations|
  }

  /** Because the comparison is with all locations, one location that the filter drops is
      enough to keep the button, and the page count growing, for ever. */
  lemma LoadMoreNeverEnds(locations: seq<Location>, text: string, i: nat, page: nat)
    requires i < |locations| && !Featured(text)(locations[i])
    ensures ShowsLoadMore(locations, text, page)
  {
    FilterShorter(locations, Featured(text), i);
  }

  /** When the filter keeps everything the button goes once every location is shown. */
  lemma LoadMoreEndsWhenAllMatch(locations: seq<Location>, text: string, page: nat)
    requires forall loc :: loc in locations ==> Featured(text)(loc)
    requires page * ItemsPerPage >= |locations|
    ensures !ShowsLoadMore(locations, text, page)
  {
    FilterAll(locations, Featured(text));
  }

  /** Each page shows the previous one and possibly more. */
  lemma PagesGrow(locations: seq<Location>, text: string, page: nat)
    ensures var a, b := Shown(locations, text, page), Shown(locations, text, page + 1);
      |a| <= |b| && a == b[..|a|]
  {
  }

  /** The search text and page counter of the screen. */
  class Explore {
    var searchText: string
    var page: nat

    constructor()
      ensures searchText == "" && page == 1
    {
      searchText, page := "", 1;
    }

    /** The search box handler: new text, back to page 1. */
    method ChangeSearch(text: string)
      modifies this
      ensures searchText == text && page == 1
    {
      searchText := text;
      page := 1;
    }

    /** `handleLoadMore` */
    method LoadMore(locations: seq<Location>)
      modifies this
      ensures searchText == old(searchText)
      ensures page == if ShowsLoadMore(locations, old(searchText), old(page)) then old(page) + 1 else old(page)
    {
      var shown := Shown(locations, searchText, page);
      if |shown| < |locations| {
        page := page + 1;
      }
    }
  }
}
