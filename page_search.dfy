/** The admin page list: the full list is shown newest first (by id, descending), a
    search with no query and no filter reloads that list, any other search shows the
    `pages` property of the search reply (which the search route never sends, so the
    table empties), and a delete with a truthy reply drops the deleted page. */
module PageSearch {
  import opened Common
  import opened Sorting

  datatype Page = Page(id: int, title: string)

  // ------------------------------------------------------------ newest first

  /** The comparator `(a, b) => b.id - a.id`. */
  function CompareIds(a: Page, b: Page): int
  {
    b.id - a.id
  }

  /** `a` may stay in front of `b`: the comparator does not ask to swap them. */
  predicate ByIdDesc(a: Page, b: Page)
  {
    CompareIds(a, b) <= 0
  }

  lemma ByIdDescTotalPreorder()
    ensures TotalPreorder(ByIdDesc)
  {
  }

  /** `pages.sort((a, b) => b.id - a.id)`: a stable sort of the fetched array in place,
      written as an insertion sort that grows a sorted suffix. */
  method SortPages(a: array<Page>)
    modifies a
    ensures a[..] == SortBy(old(a[..]), ByIdDesc)
  {
    ghost var s := a[..];
    var i := a.Length;
    while i > 0
      invariant 0 <= i <= a.Length
      invariant a[..i] == s[..i]
      invariant a[i..] == SortBy(s[i..], ByIdDesc)
    {
      i := i - 1;
      assert a[i] == s[..i + 1][i];
      assert s[i..] == [s[i]] + s[i + 1..];
      Sink(a, i);
    }
    assert a[0..] == a[..];
    assert s[0..] == s;
  }

  /** One insertion step: `a[i]` moves right past the pages its comparator puts it
      behind. */
  method Sink(a: array<Page>, i: nat)
    requires i < a.Length
    modifies a
    ensures a[..i] == old(a[..i])
    ensures a[i..] == Insert(old(a[i]), old(a[i + 1..]), ByIdDesc)
  {
    var x := a[i];
    var j := i;
    while j + 1 < a.Length && CompareIds(x, a[j + 1]) > 0
      invariant i <= j < a.Length
      invariant forall m :: 0 <= m < i ==> a[m] == old(a[m])
      invariant forall m :: i <= m < j ==> a[m] == old(a[m + 1])
      invariant forall m :: j < m < a.Length ==> a[m] == old(a[m])
      invariant forall m :: i < m <= j ==> !ByIdDesc(x, old(a[m]))
    {
      a[j] := a[j + 1];
      j := j + 1;
    }
    a[j] := x;
    SinkResult(old(a[..]), a[..], i, j);
  }

  /** What one insertion step leaves: the pages `a[i]` passed, then `a[i]`, then the
      rest, which is `Insert` on the suffix. */
  lemma SinkResult(before: seq<Page>, after: seq<Page>, i: nat, j: nat)
    requires i <= j < |before| == |after|
    requires forall m :: 0 <= m < i ==> after[m] == before[m]
    requires forall m :: i <= m < j ==> after[m] == before[m + 1]
    requires after[j] == before[i]
    requires forall m :: j < m < |after| ==> after[m] == before[m]
    requires forall m :: i < m <= j ==> !ByIdDesc(before[i], before[m])
    requires j + 1 == |before| || ByIdDesc(before[i], before[j + 1])
    ensures after[..i] == before[..i]
    ensures after[i..] == Insert(before[i], before[i + 1..], ByIdDesc)
  {
    var ps, zs := before[i + 1..j + 1], before[j + 1..];
    SinkShape(before, after, i, j);
    assert before[i + 1..] == ps + zs;
    forall m | 0 <= m < |ps| ensures !ByIdDesc(before[i], ps[m]) {
      assert ps[m] == before[i + 1 + m];
    }
    InsertAfter(before[i], ps, zs, ByIdDesc);
  }

  lemma SinkShape(before: seq<Page>, after: seq<Page>, i: nat, j: nat)
    requires i <= j < |before| == |after|
    requires forall m :: i <= m < j ==> after[m] == before[m + 1]
    requires after[j] == before[i]
    requires forall m :: j < m < |after| ==> after[m] == before[m]
    ensures after[i..] == before[i + 1..j + 1] + [before[i]] + before[j + 1..]
  {
    var r := before[i + 1..j + 1] + [before[i]] + before[j + 1..];
    assert |after[i..]| == |r|;
    forall m | 0 <= m < |r| ensures after[i..][m] == r[m] {
      if m < j - i {
        assert r[m] == before[i + 1 + m];
      } else if m > j - i {
        assert r[m] == before[i + m];
      }
    }
  }

  /** The list is newest first, holds exactly the fetched pages, and pages with equal ids
      keep the order the server sent them in. */
  lemma NewestFirst(fetched: seq<Page>)
    ensures var shown := SortBy(fetched, ByIdDesc);
      && multiset(shown) == multiset(fetched)
      && (forall i, j :: 0 <= i < j < |shown| ==> shown[i].id >= shown[j].id)
      && (forall k :: TieClass(shown, ByIdDesc, k) == TieClass(fetched, ByIdDesc, k))
  {
    ByIdDescTotalPreorder();
    SortBySorted(fetched, ByIdDesc);
    forall k ensures TieClass(SortBy(fetched, ByIdDesc), ByIdDesc, k) == TieClass(fetched, ByIdDesc, k) {
      SortByStable(fetched, ByIdDesc, k);
    }
  }

  // ------------------------------------------------------------ search

  /** The filter panel: city, type and the published checkbox. */
  datatype Filters = Filters(city: string, kind: string, published: bool)

  /** The condition on line 30: nothing but white space typed and every filter off. */
  predicate ReloadsAll(query: string, filters: Filters)
  {
    |Trim(JavaScript, query)| == 0 && filters.city == "" && filters.kind == "" && !filters.published
  }

  /** The full list comes back exactly when the query is blank and the filters are at
      their defaults. */
  lemma ReloadsAllMeaning(query: string, filters: Filters)
    ensures ReloadsAll(query, filters) <==> IsBlank(JavaScript, query) && filters == Filters("", "", false)
  {
    TrimEmptyIffBlank(JavaScript, query);
  }

  /** The parsed body of `GET /pages/search`: the bare list of matching pages the route
      returns, or the `{"detail": ...}` object of a 422, which a blank `q` draws. */
  datatype SearchBody = ListBody(items: seq<Page>) | ErrorBody(detail: string)

  /** `results.pages`: neither an array nor the error object has a `pages` property. */
  function PagesProperty(body: SearchBody): Option<seq<Page>>
  {
    match body
    case ListBody(_) => None
    case ErrorBody(_) => None
  }

  /** `pages && pages.map(...)`: an undefined `pages` state renders no rows. */
  function Rendered(pages: Option<seq<Page>>): (r: seq<Page>)
    ensures pages.None? ==> r == []
    ensures pages.Some? ==> r == pages.value
  {
    if pages.Some? then pages.value else []
  }

  /** The rows a search shows as written: those of `setPages(results.pages)`. */
  function SearchRowsAsWritten(body: SearchBody): seq<Page>
  {
    Rendered(PagesProperty(body))
  }

  /** As written every search that does not reload shows an empty table: a list of
      matches is dropped whole, however many pages it holds. */
  lemma {:induction false} SearchShowsNothing(body: SearchBody)
    ensures SearchRowsAsWritten(body) == []
    ensures body.ListBody? && body.items != [] ==> body.items[0] !in SearchRowsAsWritten(body)
  {
    assert PagesProperty(body).None?;
  }

  /** The rows a search evidently means to show: `setPages(results)` for a list, and no
      rows for an error. */
  function SearchRows(body: SearchBody): (r: seq<Page>)
    ensures body.ListBody? ==> r == body.items
    ensures body.ErrorBody? ==> r == []
  {
    match body
    case ListBody(items) => items
    case ErrorBody(_) => []
  }

  /** The corrected rows differ from the ones as written exactly when the server found
      some page; on an error or an empty list the two agree. */
  lemma {:induction false} SearchRowsCorrected(body: SearchBody)
    ensures SearchRows(body) == SearchRowsAsWritten(body) <==> body.ErrorBody? || body.items == []
    ensures forall p :: p in SearchRows(body) <==> body.ListBody? && p in body.items
  {
    SearchShowsNothing(body);
  }

  /** `handleSearch`: `fetched` is what `getPages` returns and `body` what the search
      endpoint returns; only the branch taken uses its input. The search route takes no
      city, type or published argument, so the filters only decide the branch. */
  method HandleSearch(query: string, filters: Filters, fetched: array<Page>, body: SearchBody)
    returns (shown: seq<Page>)
    modifies fetched
    ensures ReloadsAll(query, filters) ==> shown == fetched[..] == SortBy(old(fetched[..]), ByIdDesc)
    ensures !ReloadsAll(query, filters) ==> shown == SearchRowsAsWritten(body) == [] && unchanged(fetched)
  {
    if |Trim(JavaScript, query)| == 0 && filters.city == "" && filters.kind == "" && !filters.published {
      SortPages(fetched);
      shown := fetched[..];
      return;
    }
    var results := PagesProperty(body);
    shown := Rendered(results);
    SearchShowsNothing(body);
  }

  // ------------------------------------------------------------ delete

  function WithoutId(id: int): Page -> bool
  {
    (p: Page) => p.id != id
  }

  /** `if (response) setPages(pages.filter(p => p.id !== page.id))`; `response` is the
      truthiness of the parsed body of the delete call's reply. */
  function AfterDelete(pages: seq<Page>, id: int, response: bool): (r: seq<Page>)
    ensures !response ==> r == pages
    ensures response ==> forall p :: p in r <==> p in pages && p.id != id
    ensures |r| <= |pages|
  {
    if response then Filter(pages, WithoutId(id)) else pages
  }

  /** The pages that stay keep their order. */
  lemma DeleteKeepsOrder(pages: seq<Page>, id: int, i: nat, j: nat)
    requires i < j < |pages| && pages[i].id != id && pages[j].id != id
    ensures exists a, b :: (0 <= a < b < |AfterDelete(pages, id, true)|
      && AfterDelete(pages, id, true)[a] == pages[i] && AfterDelete(pages, id, true)[b] == pages[j])
  {
    assert AfterDelete(pages, id, true) == Filter(pages, WithoutId(id));
    FilterKeepsOrder(pages, WithoutId(id), i, j);
  }

  /** A list shown newest first stays newest first after a delete. */
  lemma DeleteKeepsNewestFirst(pages: seq<Page>, id: int, response: bool)
    requires forall i, j :: 0 <= i < j < |pages| ==> pages[i].id >= pages[j].id
    ensures var r := AfterDelete(pages, id, response);
      forall i, j :: 0 <= i < j < |r| ==> r[i].id >= r[j].id
  {
    assert SortedBy(pages, ByIdDesc);
    FilterSorted(pages, WithoutId(id), ByIdDesc);
  }

  /** Deleting a page whose id is not listed leaves the list as it was, so deleting the
      same page twice is the same as deleting it once. */
  lemma DeleteAbsent(pages: seq<Page>, id: int, response: bool)
    requires forall p :: p in pages ==> p.id != id
    ensures AfterDelete(pages, id, response) == pages
  {
    FilterAll(pages, WithoutId(id));
  }

  lemma DeleteTwice(pages: seq<Page>, id: int)
    ensures AfterDelete(AfterDelete(pages, id, true), id, true) == AfterDelete(pages, id, true)
  {
    DeleteAbsent(AfterDelete(pages, id, true), id, true);
  }

  /** A delete that goes through shortens the list when the id was listed. */
  lemma DeleteShrinks(pages: seq<Page>, id: int, i: nat)
    requires i < |pages| && pages[i].id == id
    ensures |AfterDelete(pages, id, true)| < |pages|
  {
    FilterShorter(pages, WithoutId(id), i);
  }

  /** What the delete call gets back: the status, and the truthiness of the JSON body, or
      `None` when the body is not JSON at all (the 204 of a successful delete is empty). */
  datatype DeleteReply = DeleteReply(status: int, body: Option<bool>)

  /** The delete button as written: `res.json()` rejects on a body that is not JSON, so
      the awaiting handler throws before it filters; otherwise the body's truthiness
      decides, whatever the status. */
  function AfterDeleteReplyAsWritten(pages: seq<Page>, id: int, reply: DeleteReply): (r: seq<Page>)
    ensures reply.body.None? ==> r == pages
    ensures reply.body.Some? ==> r == AfterDelete(pages, id, reply.body.value)
  {
    if reply.body.None? then pages else AfterDelete(pages, id, reply.body.value)
  }

  /** As written a delete that went through (204, no body) leaves the deleted page listed,
      and one refused with 401 and a `{"detail": ...}` body takes it off the list. */
  lemma {:induction false} DeleteReplyInverted(pages: seq<Page>, id: int, i: nat)
    requires i < |pages| && pages[i].id == id
    ensures pages[i] in AfterDeleteReplyAsWritten(pages, id, DeleteReply(204, None))
    ensures pages[i] !in AfterDeleteReplyAsWritten(pages, id, DeleteReply(401, Some(true)))
  {
    var r := AfterDeleteReplyAsWritten(pages, id, DeleteReply(401, Some(true)));
    assert r == AfterDelete(pages, id, true);
  }

  /** The delete button as evidently meant: the row goes exactly when the server answered
      with a success status, whatever the body. */
  function AfterDeleteReply(pages: seq<Page>, id: int, reply: DeleteReply): (r: seq<Page>)
    ensures 200 <= reply.status < 300 ==> forall p :: p in r <==> p in pages && p.id != id
    ensures !(200 <= reply.status < 300) ==> r == pages
  {
    AfterDelete(pages, id, 200 <= reply.status < 300)
  }

  /** The corrected handler agrees with the one as written exactly where the body's
      truthiness matches the status, and a 204 now removes the row. */
  lemma {:induction false} DeleteReplyCorrected(pages: seq<Page>, id: int, reply: DeleteReply)
    ensures reply.body.Some? && reply.body.value == (200 <= reply.status < 300) ==>
      AfterDeleteReply(pages, id, reply) == AfterDeleteReplyAsWritten(pages, id, reply)
    ensures forall p :: p in AfterDeleteReply(pages, id, DeleteReply(204, None)) <==> p in pages && p.id != id
    ensures AfterDeleteReply(pages, id, DeleteReply(401, Some(true))) == pages
  {
    var ok := AfterDeleteReply(pages, id, DeleteReply(204, None));
    assert ok == AfterDelete(pages, id, true);
  }

  // ------------------------------------------------------------ the delete header

  const BearerPrefix := "Bearer "

  /** `authorization ? `Bearer ${authorization}` : ''` in the API client's `delete`;
      `None` is an argument left out. */
  function AuthHeader(authorization: Option<string>): string
  {
    if authorization.Some? && authorization.value != "" then BearerPrefix + authorization.value else ""
  }

  /** `${localStorage.getItem('access_token')}`: a missing token prints as "null". */
  function TokenText(stored: Option<string>): string
  {
    if stored.Some? then stored.value else "null"
  }

  /** The delete button passes the token with the prefix already on it. */
  function DeleteAuthorizationAsWritten(stored: Option<string>): Option<string>
  {
    Some(BearerPrefix + TokenText(stored))
  }

  /** As written the header carries the prefix twice, and a missing token is sent as the
      word "null". */
  lemma DoubleBearer(stored: Option<string>)
    ensures AuthHeader(DeleteAuthorizationAsWritten(stored)) == BearerPrefix + BearerPrefix + TokenText(stored)
    ensures stored.None? ==> AuthHeader(DeleteAuthorizationAsWritten(stored)) == "Bearer Bearer null"
  {
  }

  lemma DoubleBearerExample()
    ensures AuthHeader(DeleteAuthorizationAsWritten(Some("t"))) == "Bearer Bearer t"
    ensures AuthHeader(DeleteAuthorizationAsWritten(Some("t"))) != AuthHeader(Some("t"))
  {
    DoubleBearer(Some("t"));
  }

  /** `localStorage.getItem('access_token') || ''`, as every other call of the page
      service passes the token. */
  function DeleteAuthorization(stored: Option<string>): Option<string>
  {
    Some(if stored.Some? then stored.value else "")
  }

  /** Passing the bare token, the header is the prefix followed by exactly the stored
      token, or empty when there is no token. */
  lemma DeleteHeader(stored: Option<string>)
    ensures var h := AuthHeader(DeleteAuthorization(stored));
      && (stored.Some? && stored.value != "" ==> |h| >= |BearerPrefix| && h[..|BearerPrefix|] == BearerPrefix && h[|BearerPrefix|..] == stored.value)
      && (stored.None? || stored == Some("") ==> h == "")
  {
  }
}
