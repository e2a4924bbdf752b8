/** Enrichment of a proximity query: for the nearby global ids of a centre, ask the
    backend whether an application page exists, and collect up to `maxResults` pages
    keyed by global id. The HTTP request is an oracle from global id to answer. */
module FetchNearbyPages {
  import opened Common
  import opened Nearby

  /** The page record the backend returns. */
  datatype PageData = PageData(
    id: int,
    title: string,
    kind: Option<string>,
    city: Option<string>,
    pageContent: Option<string>,
    gisId: Option<string>,
    published: Option<bool>)

  /** What one `GET /api/v1/pages/exists?gis_id=…` gives: a failure (a non-ok status
      or a thrown error) or the decoded `{ exists, page }` body. */
  datatype LookupAnswer = Failed | Answered(pageExists: bool, page: Option<PageData>)

  type Lookup = string -> LookupAnswer

  const DefaultMaxResults: int := 5

  /** `data.exists && data.page` */
  predicate Found(a: LookupAnswer)
  {
    a.Answered? && a.pageExists && a.page.Some?
  }

  /** The result after the answer `a` for `id`. */
  function Step(acc: map<string, PageData>, id: string, a: LookupAnswer): (r: map<string, PageData>)
    ensures r.Keys == acc.Keys + (if Found(a) then {id} else {})
    ensures forall k :: k in r ==> r[k] == if Found(a) && k == id then a.page.value else acc[k]
    ensures id in acc ==> |r| == |acc|
  {
    if Found(a) then acc[id := a.page.value] else acc
  }

  /** The result of walking `ids` from the partial result `acc`. */
  function Collect(ids: seq<string>, lookup: Lookup, maxResults: int, acc: map<string, PageData>): map<string, PageData>
    decreases |ids|
  {
    if ids == [] || |acc| >= maxResults then acc
    else Collect(ids[1..], lookup, maxResults, Step(acc, ids[0], lookup(ids[0])))
  }

  /** The ids looked up, in order, while walking `ids` from `acc`. */
  function Queried(ids: seq<string>, lookup: Lookup, maxResults: int, acc: map<string, PageData>): seq<string>
    decreases |ids|
  {
    if ids == [] || |acc| >= maxResults then []
    else [ids[0]] + Queried(ids[1..], lookup, maxResults, Step(acc, ids[0], lookup(ids[0])))
  }

  /** `fetchNearbyPagesForGisId(centerGisId, radiusMiles, maxResults)`; `queried` lists
      the ids sent to the backend, in order. */
  method FetchNearbyPagesForGisId(places: seq<Place>, centerGisId: string, radius: real, maxResults: int,
                                  dist: DistanceFn, lookup: Lookup)
    returns (result: map<string, PageData>, queried: seq<string>)
    ensures centerGisId == "" ==> result == map[] && queried == []
    ensures centerGisId != "" ==>
      var ids := GetNearbyGlobalIds(places, centerGisId, radius, dist);
      result == Collect(ids, lookup, maxResults, map[]) && queried == Queried(ids, lookup, maxResults, map[])
  {
    result, queried := map[], [];
    if centerGisId == "" {
      return;
    }
    var ids := GetNearbyGlobalIds(places, centerGisId, radius, dist);
    var i := 0;
    while i < |ids|
      invariant 0 <= i <= |ids|
      invariant Collect(ids, lookup, maxResults, map[]) == Collect(ids[i..], lookup, maxResults, result)
      invariant Queried(ids, lookup, maxResults, map[]) == queried + Queried(ids[i..], lookup, maxResults, result)
    {
      if |result| >= maxResults {
        break;
      }
      assert ids[i..][1..] == ids[i + 1..];
      var answer := lookup(ids[i]);
      queried := queried + [ids[i]];
      if answer.Answered? && answer.pageExists && answer.page.Some? {
        result := result[ids[i] := answer.page.value];
      }
      i := i + 1;
    }
  }

  /** The result never exceeds `maxResults` keys (counting from a partial result that
      does not either). */
  lemma {:induction false} CollectBounded(ids: seq<string>, lookup: Lookup, maxResults: int, acc: map<string, PageData>)
    requires |acc| <= maxResults
    ensures |Collect(ids, lookup, maxResults, acc)| <= maxResults
    decreases |ids|
  {
    if ids != [] && |acc| < maxResults {
      CollectBounded(ids[1..], lookup, maxResults, Step(acc, ids[0], lookup(ids[0])));
    }
  }

  /** With `maxResults <= 0` nothing is looked up and the result is empty. */
  lemma NonPositiveMaxResults(ids: seq<string>, lookup: Lookup, maxResults: int)
    requires maxResults <= 0
    ensures Queried(ids, lookup, maxResults, map[]) == []
    ensures Collect(ids, lookup, maxResults, map[]) == map[]
  {
  }

  /** A key is in the result exactly when it was there already or it was looked up and
      found; its value is then the page the backend returned for it. */
  lemma {:induction false} CollectKeys(ids: seq<string>, lookup: Lookup, maxResults: int, acc: map<string, PageData>, k: string)
    ensures var r := Collect(ids, lookup, maxResults, acc);
      k in r <==> k in acc || (k in Queried(ids, lookup, maxResults, acc) && Found(lookup(k)))
    ensures var r := Collect(ids, lookup, maxResults, acc);
      k in r ==> r[k] == if k in Queried(ids, lookup, maxResults, acc) && Found(lookup(k))
                         then lookup(k).page.value else acc[k]
    decreases |ids|
  {
    if ids != [] && |acc| < maxResults {
      var next := Step(acc, ids[0], lookup(ids[0]));
      CollectKeys(ids[1..], lookup, maxResults, next, k);
      assert Queried(ids, lookup, maxResults, acc) == [ids[0]] + Queried(ids[1..], lookup, maxResults, next);
    }
  }

  /** Lookups follow the candidate order: the queried ids are a prefix of the ids, so
      there are at most `|ids|` of them. */
  lemma {:induction false} QueriedIsPrefix(ids: seq<string>, lookup: Lookup, maxResults: int, acc: map<string, PageData>)
    ensures var q := Queried(ids, lookup, maxResults, acc); |q| <= |ids| && q == ids[..|q|]
    decreases |ids|
  {
    if ids != [] && |acc| < maxResults {
      var next := Step(acc, ids[0], lookup(ids[0]));
      QueriedIsPrefix(ids[1..], lookup, maxResults, next);
      var q' := Queried(ids[1..], lookup, maxResults, next);
      assert ids[..|q'| + 1] == [ids[0]] + ids[1..][..|q'|];
    }
  }

  /** The walk only stops before the end of the ids when the result is full; failures
      and missing pages never stop it. */
  lemma {:induction false} StopsOnlyWhenFull(ids: seq<string>, lookup: Lookup, maxResults: int, acc: map<string, PageData>)
    requires |Queried(ids, lookup, maxResults, acc)| < |ids|
    ensures |Collect(ids, lookup, maxResults, acc)| >= maxResults
    decreases |ids|
  {
    if ids != [] && |acc| < maxResults {
      StopsOnlyWhenFull(ids[1..], lookup, maxResults, Step(acc, ids[0], lookup(ids[0])));
    }
  }
}
