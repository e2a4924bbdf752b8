/** The backend's DynamoDB repositories. The pages table is a map from its primary key
    (numeric `id`, string `title`) to items; an item is a map from attribute names to
    values. A DynamoDB `ClientError` that is not a failed condition is a 500; an
    exception that is not an `HTTPException` escapes the handler, which this model
    also writes as a 500. */
module Repository {
  import opened Common

  /** A DynamoDB attribute value (numbers are whole numbers in this model). */
  datatype Value = VNull | VBool(b: bool) | VNum(n: int) | VStr(s: string) | VList(elems: seq<Value>)

  type Item = map<string, Value>

  type Key = (int, string)

  /** Python truthiness of an attribute value. */
  predicate Truthy(v: Value)
  {
    match v
    case VNull => false
    case VBool(b) => b
    case VNum(n) => n != 0
    case VStr(s) => s != ""
    case VList(xs) => xs != []
  }

  /** The primary key of an item: a numeric `id` and a string `title`. */
  function KeyOf(item: Item): Option<Key>
  {
    if "id" in item && item["id"].VNum? && "title" in item && item["title"].VStr? then
      Some((item["id"].n, item["title"].s))
    else None
  }

  /** The error an exception that escapes a handler turns into. */
  function Unhandled<T>(): Outcome<T>
  {
    HttpError(500, "Internal Server Error")
  }

  const NotFoundDetail := "Item not found or access denied"

  /** The answer to an exception the handlers do not catch: `int(page_id)` on a path id
      that is not an integer raises `ValueError`, which passes the `except ClientError`
      of every handler. Python's `int` on text is a parameter `parseId` of the members
      that take a path id, `None` where it raises. */
  const BadIdDetail := "Internal Server Error"

  /** `item.get(name, False)` is truthy. */
  predicate AttrTruthy(item: Item, name: string)
  {
    name in item && Truthy(item[name])
  }

  // ------------------------------------------------------- update expression

  function AttrName(i: nat): string { "#attr" + NatToString(i) }

  function ValName(i: nat): string { ":val" + NatToString(i) }

  function Part(i: nat): string { AttrName(i) + " = " + ValName(i) }

  const UpdatedAtPart := "#updated_at = :updated_at"

  /** The `SET` parts for the first `n` updates: `#attr{i} = :val{i}` for each `i`. */
  function Parts(n: nat): (r: seq<string>)
    ensures |r| == n && forall i :: 0 <= i < n ==> r[i] == Part(i)
  {
    if n == 0 then [] else Parts(n - 1) + [Part(n - 1)]
  }

  /** `ExpressionAttributeNames` after the first `n` updates. */
  function NamesUpTo(updates: seq<(string, Value)>, n: nat): map<string, string>
    requires n <= |updates|
  {
    if n == 0 then map[] else NamesUpTo(updates, n - 1)[AttrName(n - 1) := updates[n - 1].0]
  }

  /** `ExpressionAttributeValues` after the first `n` updates. */
  function ValuesUpTo(updates: seq<(string, Value)>, n: nat): map<string, Value>
    requires n <= |updates|
  {
    if n == 0 then map[] else ValuesUpTo(updates, n - 1)[ValName(n - 1) := updates[n - 1].1]
  }

  datatype UpdateRequest = UpdateRequest(expression: string, names: map<string, string>, values: map<string, Value>)

  /** The request `update_page` sends for the remaining (non-null) updates at time `now`. */
  function UpdateRequestOf(updates: seq<(string, Value)>, now: string): UpdateRequest
  {
    UpdateRequest(
      "SET " + Join(Parts(|updates|) + [UpdatedAtPart], ", "),
      NamesUpTo(updates, |updates|)["#updated_at" := "updated_at"],
      ValuesUpTo(updates, |updates|)[":updated_at" := VStr(now)])
  }

  /** The loop of `update_page` that builds the update expression and its placeholder maps. */
  method BuildUpdateExpression(updates: seq<(string, Value)>, now: string) returns (req: UpdateRequest)
    ensures req == UpdateRequestOf(updates, now)
  {
    var parts: seq<string> := [];
    var names: map<string, string> := map[];
    var values: map<string, Value> := map[];
    for idx := 0 to |updates|
      invariant parts == Parts(idx)
      invariant names == NamesUpTo(updates, idx)
      invariant values == ValuesUpTo(updates, idx)
    {
      var (key, value) := updates[idx];
      parts := parts + [AttrName(idx) + " = " + ValName(idx)];
      names := names[AttrName(idx) := key];
      values := values[ValName(idx) := value];
    }
    parts := parts + [UpdatedAtPart];
    names := names["#updated_at" := "updated_at"];
    values := values[":updated_at" := VStr(now)];
    req := UpdateRequest("SET " + Join(parts, ", "), names, values);
  }

  lemma {:induction false} AttrNameInjective(i: nat, j: nat)
    requires AttrName(i) == AttrName(j)
    ensures i == j
  {
    assert NatToString(i) == AttrName(i)[5..] && NatToString(j) == AttrName(j)[5..];
    NatToStringInjective(i, j);
  }

  lemma {:induction false} ValNameInjective(i: nat, j: nat)
    requires ValName(i) == ValName(j)
    ensures i == j
  {
    assert NatToString(i) == ValName(i)[4..] && NatToString(j) == ValName(j)[4..];
    NatToStringInjective(i, j);
  }

  lemma PlaceholdersDiffer(i: nat)
    ensures AttrName(i) != "#updated_at" && ValName(i) != ":updated_at"
  {
    assert AttrName(i)[1] == 'a' && ValName(i)[1] == 'v';
  }

  /** Placeholder `#attr{i}` names the i-th update's attribute and `:val{i}` holds its
      value. */
  lemma {:induction false} PlaceholdersDecode(updates: seq<(string, Value)>, n: nat)
    requires n <= |updates|
    ensures forall i :: 0 <= i < n ==> AttrName(i) in NamesUpTo(updates, n) && NamesUpTo(updates, n)[AttrName(i)] == updates[i].0
    ensures forall i :: 0 <= i < n ==> ValName(i) in ValuesUpTo(updates, n) && ValuesUpTo(updates, n)[ValName(i)] == updates[i].1
  {
    if n > 0 {
      PlaceholdersDecode(updates, n - 1);
      forall i | 0 <= i < n - 1
        ensures AttrName(i) != AttrName(n - 1) && ValName(i) != ValName(n - 1)
      {
        if AttrName(i) == AttrName(n - 1) { AttrNameInjective(i, n - 1); }
        if ValName(i) == ValName(n - 1) { ValNameInjective(i, n - 1); }
      }
    }
  }

  /** No placeholders exist but those of the first `n` updates, each one once. */
  lemma {:induction false} PlaceholdersOnly(updates: seq<(string, Value)>, n: nat)
    requires n <= |updates|
    ensures forall x :: x in NamesUpTo(updates, n) ==> exists i :: 0 <= i < n && x == AttrName(i)
    ensures forall x :: x in ValuesUpTo(updates, n) ==> exists i :: 0 <= i < n && x == ValName(i)
    ensures |NamesUpTo(updates, n)| == n && |ValuesUpTo(updates, n)| == n
  {
    if n > 0 {
      PlaceholdersOnly(updates, n - 1);
      if AttrName(n - 1) in NamesUpTo(updates, n - 1) {
        var i :| 0 <= i < n - 1 && AttrName(n - 1) == AttrName(i);
        AttrNameInjective(i, n - 1);
      }
      if ValName(n - 1) in ValuesUpTo(updates, n - 1) {
        var i :| 0 <= i < n - 1 && ValName(n - 1) == ValName(i);
        ValNameInjective(i, n - 1);
      }
    }
  }

  /** The attributes, in update order, as the table sees them: a later entry wins. */
  function AsMap(updates: seq<(string, Value)>): map<string, Value>
  {
    if updates == [] then map[] else AsMap(updates[..|updates| - 1])[updates[|updates| - 1].0 := updates[|updates| - 1].1]
  }

  /** DynamoDB's reading of the first `n` `SET` parts: part `i` stores
      `values[:val{i}]` under `names[#attr{i}]`. */
  function ApplyParts(item: Item, n: nat, names: map<string, string>, values: map<string, Value>): Item
  {
    if n == 0 then item
    else
      var before := ApplyParts(item, n - 1, names, values);
      if AttrName(n - 1) in names && ValName(n - 1) in values then
        before[names[AttrName(n - 1)] := values[ValName(n - 1)]]
      else before
  }

  /** The whole request: the `n` parts, then `#updated_at = :updated_at`. */
  function ApplyRequest(item: Item, n: nat, req: UpdateRequest): Item
  {
    var afterParts := ApplyParts(item, n, req.names, req.values);
    if "#updated_at" in req.names && ":updated_at" in req.values then
      afterParts[req.names["#updated_at"] := req.values[":updated_at"]]
    else afterParts
  }

  /** The new item that the update gives: the old one, overwritten by the updates, with
      `updated_at` set to `now`. */
  function Updated(item: Item, updates: seq<(string, Value)>, now: string): Item
  {
    (item + AsMap(updates))["updated_at" := VStr(now)]
  }

  lemma {:induction false} ApplyPartsMeaning(item: Item, updates: seq<(string, Value)>, n: nat, names: map<string, string>, values: map<string, Value>)
    requires n <= |updates|
    requires forall i :: 0 <= i < n ==> AttrName(i) in names && names[AttrName(i)] == updates[i].0
    requires forall i :: 0 <= i < n ==> ValName(i) in values && values[ValName(i)] == updates[i].1
    ensures ApplyParts(item, n, names, values) == item + AsMap(updates[..n])
  {
    if n > 0 {
      ApplyPartsMeaning(item, updates, n - 1, names, values);
      assert updates[..n][..n - 1] == updates[..n - 1];
    }
  }

  /** The placeholder encoding is faithful: applying the request that
      `BuildUpdateExpression` builds gives exactly `Updated`. */
  lemma {:induction false} UpdateRequestMeaning(item: Item, updates: seq<(string, Value)>, now: string)
    ensures ApplyRequest(item, |updates|, UpdateRequestOf(updates, now)) == Updated(item, updates, now)
  {
    var req := UpdateRequestOf(updates, now);
    var n := |updates|;
    var names := NamesUpTo(updates, n);
    var values := ValuesUpTo(updates, n);
    PlaceholdersDecode(updates, n);
    forall i | 0 <= i < n
      ensures AttrName(i) in req.names && req.names[AttrName(i)] == updates[i].0
      ensures ValName(i) in req.values && req.values[ValName(i)] == updates[i].1
    {
      PlaceholdersDiffer(i);
    }
    ApplyPartsMeaning(item, updates, n, req.names, req.values);
    assert updates[..n] == updates;
  }

  /** The request has `|updates| + 1` parts and as many distinct name and value
      placeholders; the last part is the `updated_at` one. */
  lemma {:induction false} UpdateRequestSize(updates: seq<(string, Value)>, now: string)
    ensures |UpdateRequestOf(updates, now).names| == |updates| + 1
    ensures |UpdateRequestOf(updates, now).values| == |updates| + 1
  {
    var n := |updates|;
    PlaceholdersOnly(updates, n);
    if "#updated_at" in NamesUpTo(updates, n) {
      var i :| 0 <= i < n && "#updated_at" == AttrName(i);
      PlaceholdersDiffer(i);
    }
    if ":updated_at" in ValuesUpTo(updates, n) {
      var i :| 0 <= i < n && ":updated_at" == ValName(i);
      PlaceholdersDiffer(i);
    }
  }

  predicate NotNull(u: (string, Value)) { u.1 != VNull }

  /** DynamoDB refuses a `SET` on a key attribute, and a `SET` of `updated_at`, which the
      handler always sets itself, as two `SET`s of one attribute. The updates come from a
      dict, so no other name can appear twice; the model does not check that of `updates`. */
  predicate RejectedByDynamo(updates: seq<(string, Value)>)
  {
    exists i :: 0 <= i < |updates| && updates[i].0 in {"id", "title", "updated_at"}
  }

  /** An update that DynamoDB accepts leaves the key attributes alone, so the item stays
      under its key. */
  lemma UpdatedKeepsKey(item: Item, updates: seq<(string, Value)>, now: string)
    requires !RejectedByDynamo(updates)
    ensures KeyOf(Updated(item, updates, now)) == KeyOf(item)
  {
    AsMapKeys(updates);
    assert forall i :: 0 <= i < |updates| ==> updates[i].0 != "id" && updates[i].0 != "title";
  }

  // ------------------------------------------------------------ the pages table

  class PageRepository {
    var table: map<Key, Item>

    /** Every item is stored under its own key. */
    ghost predicate Valid()
      reads this
    {
      forall k :: k in table ==> KeyOf(table[k]) == Some(k)
    }

    constructor()
      ensures table == map[] && Valid()
    {
      table := map[];
    }

    /** `create_page`: the generated `uuid` is overwritten by the caller's `id`. */
    method CreatePage(pageData: Item, uuid: string) returns (r: Outcome<Item>)
      requires Valid()
      modifies this
      ensures Valid()
      ensures var item := map["id" := VStr(uuid)] + pageData;
        match KeyOf(item)
        case None => r.HttpError? && r.status == 500 && table == old(table)
        case Some(k) =>
          if k in old(table) then r == HttpError(409, "Item already exists") && table == old(table)
          else r == Ok(item) && table == old(table)[k := item]
    {
      var item := map["id" := VStr(uuid)] + pageData;
      var key := KeyOf(item);
      if key.None? {
        r := HttpError(500, "Error creating page: One or more parameter values were invalid");
      } else if key.value in table {
        r := HttpError(409, "Item already exists");
      } else {
        table := table[key.value := item];
        r := Ok(item);
      }
    }

    /** `get_page`: a path id `int` cannot read is the unhandled 500; a missing item, and
        an unpublished one for an unauthorised caller, give `None`. */
    function GetPage(pageId: string, title: string, authorized: bool, parseId: string -> Option<int>): (r: Outcome<Option<Item>>)
      reads this
      ensures parseId(pageId).None? <==> r.HttpError?
      ensures r.HttpError? ==> r == HttpError(500, BadIdDetail)
      ensures r.Ok? ==> var key := (parseId(pageId).value, title);
        && (r.value.Some? <==> key in table && (AttrTruthy(table[key], "published") || authorized))
        && (r.value.Some? ==> r.value.value == table[key])
    {
      match parseId(pageId)
      case None => HttpError(500, BadIdDetail)
      case Some(id) =>
        var key := (id, title);
        if key !in table then Ok(None)
        else if !AttrTruthy(table[key], "published") && !authorized then Ok(None)
        else Ok(Some(table[key]))
    }

    /** `update_page` */
    method UpdatePage(pageId: string, title: string, updates: seq<(string, Value)>, now: string,
                      parseId: string -> Option<int>) returns (r: Outcome<Item>)
      requires Valid()
      modifies this
      ensures Valid()
      ensures var remaining := Filter(updates, NotNull);
        if remaining == [] then r == HttpError(400, "No valid fields to update") && table == old(table)
        else if parseId(pageId).None? then r == HttpError(500, BadIdDetail) && table == old(table)
        else var key := (parseId(pageId).value, title);
        if RejectedByDynamo(remaining) then r.HttpError? && r.status == 500 && table == old(table)
        else if key !in old(table) then r == HttpError(404, NotFoundDetail) && table == old(table)
        else r == Ok(Updated(old(table)[key], remaining, now)) && table == old(table)[key := r.value]
    {
      var remaining := Filter(updates, NotNull);
      if remaining == [] {
        r := HttpError(400, "No valid fields to update");
        return;
      }
      var req := BuildUpdateExpression(remaining, now);
      var id := parseId(pageId);
      if id.None? {
        r := HttpError(500, BadIdDetail);
        return;
      }
      var key := (id.value, title);
      if RejectedByDynamo(remaining) {
        r := HttpError(500, "Error updating page: Invalid UpdateExpression");
      } else if key !in table {
        r := HttpError(404, NotFoundDetail);
      } else {
        UpdateRequestMeaning(table[key], remaining, now);
        UpdatedKeepsKey(table[key], remaining, now);
        var item := ApplyRequest(table[key], |remaining|, req);
        table := table[key := item];
        r := Ok(item);
      }
    }

    /** `publish_page`: `published` becomes true, and `published_at` and `updated_at`
        are both stamped with `now`. */
    method PublishPage(pageId: string, title: string, now: string, parseId: string -> Option<int>) returns (r: Outcome<Item>)
      requires Valid()
      modifies this
      ensures Valid()
      ensures if parseId(pageId).None? then r == HttpError(500, BadIdDetail) && table == old(table)
        else var key := (parseId(pageId).value, title);
        if key !in old(table) then r == HttpError(404, NotFoundDetail) && table == old(table)
        else
          r == Ok(old(table)[key]["published" := VBool(true)]["published_at" := VStr(now)]["updated_at" := VStr(now)])
          && table == old(table)[key := r.value]
    {
      var id := parseId(pageId);
      if id.None? {
        r := HttpError(500, BadIdDetail);
        return;
      }
      var key := (id.value, title);
      if key !in table {
        r := HttpError(404, NotFoundDetail);
      } else {
        var item := table[key]["published" := VBool(true)]["published_at" := VStr(now)]["updated_at" := VStr(now)];
        table := table[key := item];
        r := Ok(item);
      }
    }

    /** `delete_page` */
    method DeletePage(pageId: string, title: string, parseId: string -> Option<int>) returns (r: Outcome<bool>)
      requires Valid()
      modifies this
      ensures Valid()
      ensures if parseId(pageId).None? then r == HttpError(500, BadIdDetail) && table == old(table)
        else var key := (parseId(pageId).value, title);
        if key !in old(table) then r == HttpError(404, NotFoundDetail) && table == old(table)
        else r == Ok(true) && table == old(table) - {key}
    {
      var id := parseId(pageId);
      if id.None? {
        r := HttpError(500, BadIdDetail);
        return;
      }
      var key := (id.value, title);
      if key !in table {
        r := HttpError(404, NotFoundDetail);
      } else {
        table := table - {key};
        r := Ok(true);
      }
    }
  }

  lemma {:induction false} AsMapKeys(updates: seq<(string, Value)>)
    ensures forall k :: k in AsMap(updates) <==> exists i :: 0 <= i < |updates| && updates[i].0 == k
  {
    if updates != [] {
      var init := updates[..|updates| - 1];
      AsMapKeys(init);
      forall k ensures k in AsMap(updates) <==> exists i :: 0 <= i < |updates| && updates[i].0 == k {
        if k in AsMap(init) {
          var i :| 0 <= i < |init| && init[i].0 == k;
          assert updates[i].0 == k;
        }
        if exists i :: 0 <= i < |updates| && updates[i].0 == k {
          var i :| 0 <= i < |updates| && updates[i].0 == k;
          if i < |updates| - 1 { assert init[i].0 == k; }
        }
      }
    }
  }

  /** A published page is visible to everyone; an unpublished one only to an
      authorised caller. */
  lemma PublishedVisibility(repo: PageRepository, pageId: string, title: string, parseId: string -> Option<int>)
    requires parseId(pageId).Some? && (parseId(pageId).value, title) in repo.table
    ensures var item := repo.table[(parseId(pageId).value, title)];
      && (repo.GetPage(pageId, title, false, parseId) == Ok(Some(item)) <==> AttrTruthy(item, "published"))
      && (!AttrTruthy(item, "published") ==> repo.GetPage(pageId, title, false, parseId) == Ok(None))
      && repo.GetPage(pageId, title, true, parseId) == Ok(Some(item))
  {
  }

  // -------------------------------------------------------------- search_pages

  /** A DynamoDB filter condition. */
  datatype Cond =
    | PublishedTrue                    // Attr("published").eq(True)
    | AttrContains(name: string, s: string)
    | AttrEq(name: string, s: string)
    | Or(a: Cond, b: Cond)
    | And(a: Cond, b: Cond)

  /** DynamoDB `contains`: a substring of a string attribute or an element of a list. */
  predicate ValueContains(v: Value, s: string)
  {
    match v
    case VStr(x) => Contains(x, s)
    case VList(xs) => VStr(s) in xs
    case _ => false
  }

  predicate Matches(c: Cond, item: Item)
  {
    match c
    case PublishedTrue => "published" in item && item["published"] == VBool(true)
    case AttrContains(n, s) => n in item && ValueContains(item[n], s)
    case AttrEq(n, s) => n in item && item[n] == VStr(s)
    case Or(a, b) => Matches(a, item) || Matches(b, item)
    case And(a, b) => Matches(a, item) && Matches(b, item)
  }

  predicate Given(s: Option<string>) { s.Some? && s.value != "" }

  /** `not search_term or search_term.strip() == ""` */
  predicate BlankTerm(term: Option<string>) { term.None? || Trim(Python, term.value) == "" }

  function TermCond(term: string): Cond
  {
    Or(AttrContains("title", term), AttrContains("pageContent", term))
  }

  /** The filter `search_pages` scans with, or `None` when it scans nothing. */
  function SearchFilter(term: Option<string>, city: Option<string>, kind: Option<string>,
                        tag: Option<string>, published: bool): Option<Cond>
  {
    if !Given(city) && !Given(kind) then
      if BlankTerm(term) then
        if published then
          if Given(tag) then Some(And(PublishedTrue, AttrContains("tags", tag.value))) else Some(PublishedTrue)
        else None
      else if !published then Some(TermCond(term.value))
      else Some(And(TermCond(term.value), PublishedTrue))
    else if Given(city) && !Given(kind) then
      if BlankTerm(term) then Some(AttrContains("city", city.value))
      else Some(And(TermCond(term.value), AttrEq("city", city.value)))
    else if Given(kind) && !Given(city) then
      if BlankTerm(term) then Some(AttrEq("type", kind.value))
      else Some(And(TermCond(term.value), AttrEq("type", kind.value)))
    else
      if BlankTerm(term) then Some(And(AttrEq("city", city.value), AttrEq("type", kind.value)))
      else Some(And(And(TermCond(term.value), AttrEq("city", city.value)), AttrEq("type", kind.value)))
  }

  /** `search_pages` over the items a scan visits; no scan means `response` is still
      `None` and `response.get` fails. */
  function SearchPages(scanned: seq<Item>, term: Option<string>, city: Option<string>, kind: Option<string>,
                       tag: Option<string>, published: bool): (r: Outcome<seq<Item>>)
    ensures r.Ok? ==> forall it :: it in r.value ==> it in scanned
    ensures r.Ok? <==> SearchFilter(term, city, kind, tag, published).Some?
  {
    match SearchFilter(term, city, kind, tag, published)
    case None => Unhandled()
    case Some(c) => Ok(Filter(scanned, (it: Item) => Matches(c, it)))
  }

  /** The only request that fails: no city, no type, a blank term and `published` false. */
  lemma SearchHole(term: Option<string>, city: Option<string>, kind: Option<string>, tag: Option<string>, published: bool)
    ensures SearchFilter(term, city, kind, tag, published).None?
        <==> !Given(city) && !Given(kind) && BlankTerm(term) && !published
  {
  }

  /** `published` and `tag` only matter when neither city nor type is given. */
  lemma SearchIgnoresPublishedAndTag(term: Option<string>, city: Option<string>, kind: Option<string>,
                                     tag1: Option<string>, tag2: Option<string>, p1: bool, p2: bool)
    requires Given(city) || Given(kind)
    ensures SearchFilter(term, city, kind, tag1, p1) == SearchFilter(term, city, kind, tag2, p2)
  {
  }

  /** With a city, a type and a term, a result has exactly that city and type and
      mentions the term in its title or content. */
  lemma {:induction false} SearchCityTypeTerm(scanned: seq<Item>, term: string, city: string, kind: string,
                                              tag: Option<string>, published: bool, it: Item)
    requires city != "" && kind != "" && Trim(Python, term) != ""
    ensures SearchPages(scanned, Some(term), Some(city), Some(kind), tag, published).Ok?
    ensures it in SearchPages(scanned, Some(term), Some(city), Some(kind), tag, published).value
        <==> it in scanned && AttrIs(it, "city", city) && AttrIs(it, "type", kind)
             && (ItemContains(it, "title", term) || ItemContains(it, "pageContent", term))
  {
    var c := And(And(TermCond(term), AttrEq("city", city)), AttrEq("type", kind));
    assert SearchFilter(Some(term), Some(city), Some(kind), tag, published) == Some(c);
    assert Matches(TermCond(term), it) <==> ItemContains(it, "title", term) || ItemContains(it, "pageContent", term);
    assert Matches(And(TermCond(term), AttrEq("city", city)), it) <==> Matches(TermCond(term), it) && AttrIs(it, "city", city);
    assert Matches(c, it) <==> Matches(And(TermCond(term), AttrEq("city", city)), it) && AttrIs(it, "type", kind);
  }

  predicate ItemContains(it: Item, name: string, s: string)
  {
    name in it && ValueContains(it[name], s)
  }

  predicate AttrIs(it: Item, name: string, s: string)
  {
    name in it && it[name] == VStr(s)
  }
}
