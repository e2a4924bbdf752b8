/** The admin page editor: the tag, link and category lists the form edits, the
    serialisation of tags into one comma-separated attribute and back, the trail details
    that only trail pages carry, and the choice between creating a page and updating the
    one named in the address. Requests are returned as values rather than sent. */
module PageEditor {
  import opened Common
  import opened Sorting

  // ------------------------------------------------------------- splice

  /** `a.splice(index, 1)` on a copy: JavaScript's start position (negative counts from
      the end, clipped to the length), then one element removed if there is one. */
  function SpliceOut<T>(s: seq<T>, index: int): (r: seq<T>)
    ensures 0 <= index < |s| ==> r == s[..index] + s[index + 1..]
    ensures index >= |s| ==> r == s
    ensures |r| == if s == [] || index >= |s| then |s| else |s| - 1
  {
    var start := if index < 0 then (if |s| + index < 0 then 0 else |s| + index) else (if index < |s| then index else |s|);
    if start < |s| then s[..start] + s[start + 1..] else s
  }

  /** Removing the element at a valid index keeps every other element, in order. */
  lemma SpliceOutKeepsOthers<T>(s: seq<T>, index: int)
    requires 0 <= index < |s|
    ensures forall i :: 0 <= i < index ==> SpliceOut(s, index)[i] == s[i]
    ensures forall i :: index <= i < |s| - 1 ==> SpliceOut(s, index)[i] == s[i + 1]
  {
  }

  // --------------------------------------------------------- tag strings

  /** `tags.join(',')` */
  function SerializeTags(tags: seq<string>): string
  {
    Join(tags, ",")
  }

  /** `pageData.tags ? pageData.tags.split(',') : []` */
  function ParseTags(stored: Option<string>): (r: seq<string>)
    ensures stored.None? || stored.value == "" ==> r == []
    ensures stored.Some? && stored.value != "" ==> |r| >= 1
  {
    if stored.Some? && stored.value != "" then Split(stored.value, ',') else []
  }

  /** What the editor can hold as tags: no empty tag and no comma inside a tag. */
  predicate Storable(tags: seq<string>)
  {
    forall i :: 0 <= i < |tags| ==> tags[i] != "" && ',' !in tags[i]
  }

  lemma {:induction false} JoinNonEmpty(tags: seq<string>)
    requires |tags| >= 1 && tags[0] != ""
    ensures Join(tags, ",") != ""
  {
  }

  /** Saving and loading gives the tags back, for any list of non-empty,
      comma-free tags. */
  lemma TagsRoundTrip(tags: seq<string>)
    requires Storable(tags)
    ensures ParseTags(Some(SerializeTags(tags))) == tags
  {
    if tags != [] {
      JoinNonEmpty(tags);
      SplitJoin(tags, ',');
    }
  }

  /** The one list that does not come back: a single empty tag is loaded as no tags. */
  lemma SingleEmptyTagLost()
    ensures ParseTags(Some(SerializeTags([""]))) == []
  {
  }

  // ------------------------------------------------------- page content

  datatype Link = Link(name: string, url: string)
  datatype Category = Category(name: string, content: string)

  /** The trail fields; `None` is the initial `null`. */
  datatype TrailData = TrailData(difficulty: Option<string>, elevation: Option<string>,
                                 length: Option<string>, hours: Option<string>)

  const NoTrailData := TrailData(Some(""), None, None, None)

  /** The form fields that go into the stored content. */
  datatype FormData = FormData(title: string, kind: string, city: string, description: string,
                               image: Option<string>, gisId: string, tags: seq<string>, links: seq<Link>)

  /** The `pageContent` document: the form, the categories, and trail details for
      trails. `JSON.stringify` and `JSON.parse` are taken to be inverse. */
  datatype Content = Content(form: FormData, categories: seq<Category>, trailDetails: Option<TrailData>)

  /** The content `handleSubmit` builds. */
  function SubmitContent(form: FormData, categories: seq<Category>, trail: TrailData): (c: Content)
    ensures c.trailDetails.Some? <==> form.kind == "trail"
    ensures c.trailDetails.Some? ==> c.trailDetails.value == trail
    ensures c.form == form && c.categories == categories
  {
    Content(form, categories, if form.kind == "trail" then Some(trail) else None)
  }

  /** `x || ''` for a text field. */
  function OrEmpty(v: Option<string>): (r: string)
    ensures v.Some? && v.value != "" ==> r == v.value
    ensures v.None? || v.value == "" ==> r == ""
  {
    if v.Some? && v.value != "" then v.value else ""
  }

  /** The trail details as `fetchPageData` reads them back: every falsy field becomes "". */
  function LoadTrail(t: TrailData): (r: TrailData)
    ensures r.difficulty.Some? && r.elevation.Some? && r.length.Some? && r.hours.Some?
  {
    TrailData(Some(OrEmpty(t.difficulty)), Some(OrEmpty(t.elevation)), Some(OrEmpty(t.length)), Some(OrEmpty(t.hours)))
  }

  /** The stored page as the editor loads it. */
  datatype StoredPage = StoredPage(title: Option<string>, tags: Option<string>, published: Option<bool>,
                                   content: Option<Content>)

  /** What the editor holds after loading. */
  datatype Loaded = Loaded(form: FormData, categories: Option<seq<Category>>, trail: Option<TrailData>, published: bool)

  /** `fetchPageData`: the title, the lower-cased type and city, the tags from their
      string; trail details only when the stored type is exactly 'trail'. */
  function LoadPage(p: StoredPage, current: FormData): (r: Loaded)
    ensures r.form.tags == ParseTags(p.tags)
    ensures r.trail.Some? <==> p.content.Some? && p.content.value.form.kind == "trail" && p.content.value.trailDetails.Some?
    ensures r.trail.Some? ==> r.trail.value == LoadTrail(p.content.value.trailDetails.value)
    ensures r.form.kind == if p.content.Some? then Lower(p.content.value.form.kind) else ""
    ensures r.published == (p.published == Some(true))
  {
    var form := if p.content.Some? then p.content.value.form else FormData("", "", "", "", None, "", [], []);
    Loaded(
      FormData(OrEmpty(p.title), Lower(form.kind), Lower(form.city), form.description,
               if p.content.Some? && form.image.Some? && form.image.value != "" then form.image else current.image,
               form.gisId, ParseTags(p.tags), form.links),
      if p.content.Some? then Some(p.content.value.categories) else None,
      if p.content.Some? && form.kind == "trail" && p.content.value.trailDetails.Some?
      then Some(LoadTrail(p.content.value.trailDetails.value)) else None,
      p.published == Some(true))
  }

  lemma LowerIdempotent(s: string)
    ensures Lower(Lower(s)) == Lower(s)
  {
  }

  /** A trail page comes back as it was saved: its tags (when storable), its type, and its
      trail details with empty fields for the unset ones. */
  lemma SaveLoadTrail(form: FormData, categories: seq<Category>, trail: TrailData, current: FormData)
    requires form.kind == "trail" && Storable(form.tags)
    ensures var c := SubmitContent(form, categories, trail);
      var l := LoadPage(StoredPage(Some(form.title), Some(SerializeTags(form.tags)), Some(false), Some(c)), current);
      && l.trail == Some(LoadTrail(trail))
      && l.form.kind == "trail"
      && l.form.tags == form.tags
      && l.categories == Some(categories)
  {
    TagsRoundTrip(form.tags);
    assert Lower("trail") == "trail";
  }

  /** A page whose type is not exactly 'trail' is saved and loaded without trail details. */
  lemma NonTrailHasNoDetails(form: FormData, categories: seq<Category>, trail: TrailData, p: StoredPage, current: FormData)
    requires form.kind != "trail"
    requires p.content == Some(SubmitContent(form, categories, trail))
    ensures LoadPage(p, current).trail.None?
  {
  }

  // ------------------------------------------------------------- submit

  /** The attributes sent with the content. */
  datatype Fields = Fields(pageContent: Content, gisId: string, tags: string, kind: string, city: string)

  /** The request `handleSubmit` makes. */
  datatype Submission =
    | UpdatePage(id: int, title: string, fields: Fields)
    | AddPage(id: int, title: string, fields: Fields)

  /** With both `id` and `title` in the address the page is updated under that key;
      otherwise a new page is added with id = current page count + 1. */
  function Submit(pageId: Option<string>, title: Option<string>, form: FormData, categories: seq<Category>,
                  trail: TrailData, pageCount: int, parseInt: string -> int): (r: Submission)
    ensures r.UpdatePage? <==> pageId.Some? && pageId.value != "" && title.Some? && title.value != ""
    ensures r.UpdatePage? ==> r.id == parseInt(pageId.value) && r.title == title.value
    ensures r.AddPage? ==> r.id == pageCount + 1 && r.title == form.title
    ensures r.fields.pageContent == SubmitContent(form, categories, trail)
    ensures r.fields.tags == SerializeTags(form.tags) && r.fields.gisId == form.gisId
    ensures r.fields.kind == form.kind && r.fields.city == form.city
  {
    var fields := Fields(SubmitContent(form, categories, trail), form.gisId, SerializeTags(form.tags), form.kind, form.city);
    if pageId.Some? && pageId.value != "" && title.Some? && title.value != "" then
      UpdatePage(parseInt(pageId.value), title.value, fields)
    else AddPage(pageCount + 1, form.title, fields)
  }

  // ---------------------------------------------------------- the editor

  class Editor {
    var form: FormData
    var categories: seq<Category>
    var currTag: string
    var currLink: Link
    var currContent: Option<string>
    var currCategoryIndex: int

    constructor()
      ensures form == FormData("", "", "", "", None, "", [], []) && categories == []
      ensures currTag == "" && currLink == Link("", "") && currContent == None && currCategoryIndex == -1
    {
      form := FormData("", "", "", "", None, "", [], []);
      categories := [];
      currTag, currLink, currContent, currCategoryIndex := "", Link("", ""), None, -1;
    }

    /** `handleAddTag`: a non-empty tag not yet present is appended and the input
        cleared; anything else leaves both as they are. */
    method AddTag()
      modifies this
      ensures old(currTag) != "" && old(currTag) !in old(form.tags) ==>
        form == old(form).(tags := old(form.tags) + [old(currTag)]) && currTag == ""
      ensures old(currTag) == "" || old(currTag) in old(form.tags) ==>
        form == old(form) && currTag == old(currTag)
      ensures categories == old(categories) && currLink == old(currLink)
      ensures currContent == old(currContent) && currCategoryIndex == old(currCategoryIndex)
    {
      if currTag !in form.tags && |currTag| > 0 {
        form := form.(tags := form.tags + [currTag]);
        currTag := "";
      } else {
        form := form.(tags := form.tags);
      }
    }

    /** `handleRemoveTag` */
    method RemoveTag(index: int)
      modifies this
      ensures form == old(form).(tags := SpliceOut(old(form.tags), index))
      ensures categories == old(categories) && currTag == old(currTag) && currLink == old(currLink)
      ensures currContent == old(currContent) && currCategoryIndex == old(currCategoryIndex)
    {
      form := form.(tags := SpliceOut(form.tags, index));
    }

    /** The Add Link button: only a link with both a name and a URL is appended. */
    method AddLink()
      modifies this
      ensures old(currLink.name) != "" && old(currLink.url) != "" ==>
        form == old(form).(links := old(form.links) + [old(currLink)]) && currLink == Link("", "")
      ensures old(currLink.name) == "" || old(currLink.url) == "" ==>
        form == old(form) && currLink == old(currLink)
      ensures categories == old(categories) && currTag == old(currTag)
      ensures currContent == old(currContent) && currCategoryIndex == old(currCategoryIndex)
    {
      if |currLink.name| > 0 && |currLink.url| > 0 {
        form := form.(links := form.links + [Link(currLink.name, currLink.url)]);
        currLink := Link("", "");
      }
    }

    /** `addCategoryForm` */
    method AddCategory()
      modifies this
      ensures categories == old(categories) + [Category("Category " + NatToString(|old(categories)| + 1), "")]
      ensures form == old(form)
      ensures currTag == old(currTag) && currLink == old(currLink)
      ensures currContent == old(currContent) && currCategoryIndex == old(currCategoryIndex)
    {
      categories := categories + [Category("Category " + NatToString(|categories| + 1), "")];
    }

    /** `removeCategoryForm` */
    method RemoveCategory(index: int)
      modifies this
      ensures categories == SpliceOut(old(categories), index)
      ensures form == old(form)
      ensures currTag == old(currTag) && currLink == old(currLink)
      ensures currContent == old(currContent) && currCategoryIndex == old(currCategoryIndex)
    {
      categories := SpliceOut(categories, index);
    }

    /** Editing the name field of a rendered category. */
    method EditCategoryName(index: int, name: string)
      requires 0 <= index < |categories|
      modifies this
      ensures categories == old(categories)[index := old(categories)[index].(name := name)]
      ensures form == old(form) && currContent == old(currContent)
      ensures currTag == old(currTag) && currLink == old(currLink) && currCategoryIndex == old(currCategoryIndex)
    {
      categories := categories[index := categories[index].(name := name)];
    }

    /** Editing the content field of a rendered category; the open category's content
        view follows. */
    method EditCategoryContent(index: int, content: string)
      requires 0 <= index < |categories|
      modifies this
      ensures categories == old(categories)[index := old(categories)[index].(content := content)]
      ensures currContent == if old(currCategoryIndex) == index then Some(content) else old(currContent)
      ensures form == old(form)
      ensures currTag == old(currTag) && currLink == old(currLink) && currCategoryIndex == old(currCategoryIndex)
    {
      categories := categories[index := categories[index].(content := content)];
      if currCategoryIndex == index {
        currContent := Some(content);
      }
    }
  }

  /** The tag list `AddTag` maintains stays free of empty tags and duplicates. */
  ghost predicate CleanTags(tags: seq<string>)
  {
    (forall i :: 0 <= i < |tags| ==> tags[i] != "") && Distinct(tags)
  }

  lemma AddTagKeepsClean(tags: seq<string>, t: string)
    requires CleanTags(tags) && t != "" && t !in tags
    ensures CleanTags(tags + [t])
  {
    forall i | 0 <= i < |tags| ensures (tags + [t])[i] != t { assert tags[i] in tags; }
  }

  /** Every other category is untouched by an edit, and editing the name keeps the
      content (and the reverse). */
  lemma EditTouchesOneCategory(cs: seq<Category>, index: nat, name: string)
    requires index < |cs|
    ensures var r := cs[index := cs[index].(name := name)];
      |r| == |cs| && r[index].content == cs[index].content && r[index].name == name
      && forall i :: 0 <= i < |cs| && i != index ==> r[i] == cs[i]
  {
  }
}
