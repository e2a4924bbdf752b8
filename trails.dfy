/** The admin "Trails" page: the GeoJSON comparison between a project file and an
    uploaded one (feature lists, property-key summaries, feature ids and names, the
    property and feature differences) and the marker workspace (add a manual marker,
    delete a workspace marker, import a marker list). */
module Trails {
  import opened Common
  import opened JsValue
  import opened Sorting

  // ------------------------------------------------------------ features

  /** `asFeatures`: the `features` of a FeatureCollection, an array itself, else `[]`. */
  function AsFeatures(obj: Option<Json>): (r: seq<Json>)
    ensures (Member(obj, "type") == Some(JStr("FeatureCollection")) && Member(obj, "features").Some?
             && Member(obj, "features").value.JArr?) ==> r == Member(obj, "features").value.elems
    ensures obj.Some? && obj.value.JArr? ==> r == obj.value.elems
    ensures r != [] ==> (obj.Some? && obj.value.JArr?) || Member(obj, "type") == Some(JStr("FeatureCollection"))
  {
    var features := Member(obj, "features");
    if Member(obj, "type") == Some(JStr("FeatureCollection")) && features.Some? && features.value.JArr? then
      features.value.elems
    else if obj.Some? && obj.value.JArr? then obj.value.elems
    else []
  }

  /** `feat?.properties ?? {}` */
  function PropsOf(feat: Json): Option<Json>
  {
    Coalesce(Member(Some(feat), "properties"), Some(JObj([])))
  }

  /** `featureId`: the first of GlobalID, OBJECTID, Name, name that is neither `null` nor
      `undefined`, as text; "" when all four are. */
  function FeatureId(feat: Json): (r: string)
    ensures var p := PropsOf(feat);
      && (!Nullish(Member(p, "GlobalID")) ==> r == ToText(Member(p, "GlobalID").value))
      && (Nullish(Member(p, "GlobalID")) && !Nullish(Member(p, "OBJECTID")) ==> r == ToText(Member(p, "OBJECTID").value))
      && (Nullish(Member(p, "GlobalID")) && Nullish(Member(p, "OBJECTID")) && !Nullish(Member(p, "Name")) ==>
            r == ToText(Member(p, "Name").value))
      && ((Nullish(Member(p, "GlobalID")) && Nullish(Member(p, "OBJECTID")) && Nullish(Member(p, "Name"))
             && !Nullish(Member(p, "name"))) ==> r == ToText(Member(p, "name").value))
      && ((Nullish(Member(p, "GlobalID")) && Nullish(Member(p, "OBJECTID")) && Nullish(Member(p, "Name"))
             && Nullish(Member(p, "name"))) ==> r == "")
  {
    var p := PropsOf(feat);
    ToTextOpt(Coalesce(Member(p, "GlobalID"),
              Coalesce(Member(p, "OBJECTID"),
              Coalesce(Member(p, "Name"),
              Coalesce(Member(p, "name"), Some(JStr("")))))))
  }

  /** `featureName`: a truthy `Name ?? name` as it is, else `OBJECTID=…` when OBJECTID is
      defined (even `null`), else "(no name)". */
  function FeatureName(feat: Json): (r: Json)
    ensures var p := PropsOf(feat); var byName := Coalesce(Member(p, "Name"), Member(p, "name"));
      && (Truthy(byName) ==> r == byName.value)
      && (!Truthy(byName) && Member(p, "OBJECTID").Some? ==> r == JStr("OBJECTID=" + ToText(Member(p, "OBJECTID").value)))
      && (!Truthy(byName) && Member(p, "OBJECTID").None? ==> r == JStr("(no name)"))
  {
    var p := PropsOf(feat);
    var byName := Coalesce(Member(p, "Name"), Member(p, "name"));
    if Truthy(byName) then byName.value
    else if Member(p, "OBJECTID").Some? then JStr("OBJECTID=" + ToText(Member(p, "OBJECTID").value))
    else JStr("(no name)")
  }

  /** Only `null` and `undefined` fall through in `featureId`: a GlobalID of 0 is the id
      "0" even when a Name is present. */
  lemma FeatureIdKeepsFalsyValues()
    ensures FeatureId(JObj([("properties", JObj([("GlobalID", JNum(0)), ("Name", JStr("Trail"))]))])) == "0"
  {
    var p := JObj([("GlobalID", JNum(0)), ("Name", JStr("Trail"))]);
    assert PropsOf(JObj([("properties", p)])) == Some(p);
    assert Member(Some(p), "GlobalID") == Some(JNum(0));
    assert IntToString(0) == "0";
  }

  /** A `null` GlobalID falls through to OBJECTID. */
  lemma FeatureIdSkipsNull()
    ensures FeatureId(JObj([("properties", JObj([("GlobalID", JNull), ("OBJECTID", JNum(7))]))])) == "7"
  {
    var p := JObj([("GlobalID", JNull), ("OBJECTID", JNum(7))]);
    assert PropsOf(JObj([("properties", p)])) == Some(p);
    assert Member(Some(p), "GlobalID") == Some(JNull);
    assert Member(Some(p), "OBJECTID") == Some(JNum(7));
    assert IntToString(7) == "7";
  }

  /** An empty `Name` is not nullish, so it hides a non-empty `name`. */
  lemma EmptyNameHidesLowercaseName()
    ensures FeatureName(JObj([("properties", JObj([("Name", JStr("")), ("name", JStr("Loop"))]))])) == JStr("(no name)")
  {
  }

  // ----------------------------------------------------- property summaries

  /** The property keys one feature contributes to `summarizeProps`, as written: a truthy
      feature whose `properties` has `typeof` "object" gives `Object.keys(properties)`;
      `None` is the `TypeError` that `Object.keys(null)` throws. */
  function FeatureKeysAsWritten(feat: Json): Option<seq<string>>
  {
    var props := Member(Some(feat), "properties");
    if Truthy(Some(feat)) && IsObjectType(props) then KeysOf(props.value) else Some([])
  }

  /** The keys a feature contributes when `properties: null` is skipped, as `featureId`
      and `featureName` already treat it. */
  function FeatureKeys(feat: Json): (r: seq<string>)
    ensures FeatureKeysAsWritten(feat).Some? ==> r == FeatureKeysAsWritten(feat).value
    ensures FeatureKeysAsWritten(feat).None? ==> r == []
  {
    var props := Member(Some(feat), "properties");
    if Truthy(Some(feat)) && IsObjectType(props) && !props.value.JNull? then KeysOf(props.value).value else []
  }

  /** A GeoJSON feature with `"properties": null`, which the GeoJSON format allows, makes
      the comparison throw as written. */
  lemma NullPropertiesThrow()
    ensures FeatureKeysAsWritten(JObj([("type", JStr("Feature")), ("properties", JNull)])).None?
    ensures FeatureKeys(JObj([("type", JStr("Feature")), ("properties", JNull)])) == []
    ensures FeatureId(JObj([("type", JStr("Feature")), ("properties", JNull)])) == ""
  {
  }

  /** The number of features `summarizeProps` looks at. */
  const SampledFeatures := 200

  /** Key `k` belongs to one of the first `n` features. */
  ghost predicate KeyAmong(feats: seq<Json>, n: int, k: string)
  {
    exists i :: 0 <= i < n && i < |feats| && k in FeatureKeys(feats[i])
  }

  lemma KeyAmongStep(feats: seq<Json>, i: nat)
    requires i < |feats|
    ensures forall k :: KeyAmong(feats, i + 1, k) <==> KeyAmong(feats, i, k) || k in FeatureKeys(feats[i])
  {
    forall k | KeyAmong(feats, i + 1, k) && k !in FeatureKeys(feats[i]) ensures KeyAmong(feats, i, k) {
      var i' :| 0 <= i' < i + 1 && i' < |feats| && k in FeatureKeys(feats[i']);
      assert i' != i;
    }
  }

  /** `keys.forEach((k) => props.add(k))` on a `Set` kept in insertion order. */
  method AddAll(props: seq<string>, keys: seq<string>) returns (r: seq<string>)
    requires Distinct(props)
    ensures Distinct(r) && |props| <= |r| && r[..|props|] == props
    ensures forall k :: k in r <==> k in props || k in keys
  {
    r := props;
    for j := 0 to |keys|
      invariant Distinct(r) && |props| <= |r| && r[..|props|] == props
      invariant forall k :: k in r <==> k in props || k in keys[..j]
    {
      if keys[j] !in r {
        r := r + [keys[j]];
      }
      assert keys[..j + 1] == keys[..j] + [keys[j]];
    }
    assert keys[..|keys|] == keys;
  }

  /** `summarizeProps`: the sorted, duplicate-free property keys of the first 200
      features. */
  method SummarizeProps(obj: Option<Json>) returns (r: seq<string>)
    ensures SortedBy(r, StrLe) && Distinct(r)
    ensures forall k :: k in r <==> KeyAmong(AsFeatures(obj), SampledFeatures, k)
  {
    var feats := AsFeatures(obj);
    if |feats| == 0 {
      return [];
    }
    var n := Min(SampledFeatures, |feats|);
    var props: seq<string> := [];
    for i := 0 to n
      invariant Distinct(props)
      invariant forall k :: k in props <==> KeyAmong(feats, i, k)
    {
      props := AddAll(props, FeatureKeys(feats[i]));
      KeyAmongStep(feats, i);
    }
    r := SortBy(props, StrLe);
    StrLeTotalPreorder();
    SortBySorted(props, StrLe);
    SortByDistinct(props, StrLe);
    assert forall k :: k in r <==> k in multiset(r);
    assert forall k :: k in props <==> k in multiset(props);
  }

  /** The keys uploaded but not in the project file. */
  function NewProps(existing: seq<string>, uploaded: seq<string>): seq<string>
  {
    Filter(uploaded, (p: string) => p !in existing)
  }

  /** The keys of the project file missing from the upload. */
  function MissingProps(existing: seq<string>, uploaded: seq<string>): seq<string>
  {
    Filter(existing, (p: string) => p !in uploaded)
  }

  /** The keys in both. */
  function SharedProps(existing: seq<string>, uploaded: seq<string>): seq<string>
  {
    Filter(existing, (p: string) => p in uploaded)
  }

  /** The three lists split the keys cleanly: new = uploaded \ existing, missing =
      existing \ uploaded, shared = existing ∩ uploaded, and missing and shared together
      account for every existing key. */
  lemma PropSplit(existing: seq<string>, uploaded: seq<string>)
    ensures forall p :: p in NewProps(existing, uploaded) <==> p in uploaded && p !in existing
    ensures forall p :: p in MissingProps(existing, uploaded) <==> p in existing && p !in uploaded
    ensures forall p :: p in SharedProps(existing, uploaded) <==> p in existing && p in uploaded
    ensures |MissingProps(existing, uploaded)| + |SharedProps(existing, uploaded)| == |existing|
  {
    SplitSizes(existing, uploaded);
  }

  lemma {:induction false} SplitSizes(existing: seq<string>, uploaded: seq<string>)
    ensures |MissingProps(existing, uploaded)| + |SharedProps(existing, uploaded)| == |existing|
  {
    if existing != [] {
      SplitSizes(existing[1..], uploaded);
    }
  }

  // ------------------------------------------------------ feature differences

  datatype FeatureSummary = FeatureSummary(id: string, name: Json)

  /** The ids of a feature list, as the `Set` of `featureId` values holds them. */
  function Ids(feats: seq<Json>): (r: seq<string>)
    ensures |r| == |feats| && forall i :: 0 <= i < |feats| ==> r[i] == FeatureId(feats[i])
  {
    if feats == [] then [] else [FeatureId(feats[0])] + Ids(feats[1..])
  }

  /** At most this many features are listed on each side of the difference. */
  const ListedFeatures := 20

  /** The features of `feats` with a non-empty id that is no id of `others`, as summaries. */
  function Unmatched(feats: seq<Json>, others: seq<Json>): seq<Json>
  {
    Filter(feats, (f: Json) => FeatureId(f) != "" && FeatureId(f) !in Ids(others))
  }

  function Summaries(feats: seq<Json>): (r: seq<FeatureSummary>)
    ensures |r| == |feats|
    ensures forall i :: 0 <= i < |feats| ==> r[i] == FeatureSummary(FeatureId(feats[i]), FeatureName(feats[i]))
  {
    if feats == [] then [] else [FeatureSummary(FeatureId(feats[0]), FeatureName(feats[0]))] + Summaries(feats[1..])
  }

  /** The first 20 features of `feats` whose id is non-empty and unknown to `others`. */
  function DiffFeatures(feats: seq<Json>, others: seq<Json>): (r: seq<FeatureSummary>)
    ensures |r| == Min(ListedFeatures, |Unmatched(feats, others)|)
    ensures forall k :: 0 <= k < |r| ==> r[k].id != "" && r[k].id !in Ids(others)
    ensures forall k :: 0 <= k < |r| ==>
      exists i :: 0 <= i < |feats| && r[k] == FeatureSummary(FeatureId(feats[i]), FeatureName(feats[i]))
  {
    var u := Unmatched(feats, others);
    var taken := u[..Min(ListedFeatures, |u|)];
    assert forall k :: 0 <= k < |taken| ==> taken[k] in u;
    Summaries(taken)
  }

  /** `newFeatures` and `missingFeatures` are the two directions of one difference. */
  function NewFeatures(existingFeats: seq<Json>, uploadedFeats: seq<Json>): seq<FeatureSummary>
  {
    DiffFeatures(uploadedFeats, existingFeats)
  }

  function MissingFeatures(existingFeats: seq<Json>, uploadedFeats: seq<Json>): seq<FeatureSummary>
  {
    DiffFeatures(existingFeats, uploadedFeats)
  }

  /** The listed features keep their order in the file: they are the summaries of a
      prefix of the unmatched features. */
  lemma DiffFeaturesInOrder(feats: seq<Json>, others: seq<Json>)
    ensures var r := DiffFeatures(feats, others);
      r == Summaries(Unmatched(feats, others)[..|r|])
  {
  }

  /** A feature whose id also occurs in the other file is never listed, in either
      direction. */
  lemma SharedIdNeverListed(e: seq<Json>, u: seq<Json>, i: nat, j: nat)
    requires i < |e| && j < |u| && FeatureId(e[i]) == FeatureId(u[j])
    ensures forall k :: 0 <= k < |NewFeatures(e, u)| ==> NewFeatures(e, u)[k].id != FeatureId(u[j])
    ensures forall k :: 0 <= k < |MissingFeatures(e, u)| ==> MissingFeatures(e, u)[k].id != FeatureId(e[i])
  {
    assert Ids(e)[i] == FeatureId(u[j]);
    assert Ids(u)[j] == FeatureId(e[i]);
  }

  /** The comparison shown in the diff panel (names of the two files aside). */
  datatype GeoDiff = GeoDiff(
    existingCount: nat,
    uploadedCount: nat,
    newProps: seq<string>,
    missingProps: seq<string>,
    sharedProps: seq<string>,
    newFeatures: seq<FeatureSummary>,
    missingFeatures: seq<FeatureSummary>)

  /** The Compare button once both files are loaded. */
  method CompareGeo(existingData: Option<Json>, uploadedData: Option<Json>) returns (d: GeoDiff)
    ensures d.existingCount == |AsFeatures(existingData)| && d.uploadedCount == |AsFeatures(uploadedData)|
    ensures forall p :: p in d.newProps <==>
      KeyAmong(AsFeatures(uploadedData), SampledFeatures, p) && !KeyAmong(AsFeatures(existingData), SampledFeatures, p)
    ensures forall p :: p in d.missingProps <==>
      KeyAmong(AsFeatures(existingData), SampledFeatures, p) && !KeyAmong(AsFeatures(uploadedData), SampledFeatures, p)
    ensures forall p :: p in d.sharedProps <==>
      KeyAmong(AsFeatures(existingData), SampledFeatures, p) && KeyAmong(AsFeatures(uploadedData), SampledFeatures, p)
    ensures d.newFeatures == NewFeatures(AsFeatures(existingData), AsFeatures(uploadedData))
    ensures d.missingFeatures == MissingFeatures(AsFeatures(existingData), AsFeatures(uploadedData))
  {
    var existingFeats := AsFeatures(existingData);
    var uploadedFeats := AsFeatures(uploadedData);
    var existingProps := SummarizeProps(existingData);
    var uploadedProps := SummarizeProps(uploadedData);
    PropSplit(existingProps, uploadedProps);
    d := GeoDiff(|existingFeats|, |uploadedFeats|,
                 NewProps(existingProps, uploadedProps),
                 MissingProps(existingProps, uploadedProps),
                 SharedProps(existingProps, uploadedProps),
                 NewFeatures(existingFeats, uploadedFeats),
                 MissingFeatures(existingFeats, uploadedFeats));
  }

  // ------------------------------------------------------- marker workspace

  datatype Origin = FromFolder | Uploaded | Manual

  /** A map marker; a coordinate that is `NaN` is `None`. */
  datatype Marker = Marker(id: string, title: string, lat: Option<real>, lon: Option<real>,
                           origin: Origin, fileName: Option<string>)

  /** `Number(v)`, given the conversion of strings: `undefined` and objects are `NaN`,
      `null` and `false` are 0, arrays go through their text. */
  function ToNumber(v: Option<Json>, numberOfText: string -> Option<real>): Option<real>
  {
    match v
    case None => None
    case Some(JNull) => Some(0.0)
    case Some(JBool(b)) => Some(if b then 1.0 else 0.0)
    case Some(JNum(n)) => Some(n as real)
    case Some(JStr(s)) => numberOfText(s)
    case Some(JArr(_)) => numberOfText(ToText(v.value))
    case Some(JObj(_)) => numberOfText("[object Object]")
  }

  /** The marker built from element `i` of an imported array. */
  function ImportedMarker(item: Json, i: nat, fileName: string, now: nat, numberOfText: string -> Option<real>): Marker
  {
    Marker(ToText(Coalesce(Member(Some(item), "id"), Some(JStr("uploaded-" + NatToString(now) + "-" + NatToString(i)))).value),
           ToText(Coalesce(Member(Some(item), "title"), Some(JStr("Imported marker"))).value),
           ToNumber(Member(Some(item), "lat"), numberOfText),
           ToNumber(Member(Some(item), "lon"), numberOfText),
           Uploaded, Some(fileName))
  }

  function ImportedFrom(items: seq<Json>, start: nat, fileName: string, now: nat, numberOfText: string -> Option<real>): (r: seq<Marker>)
    ensures |r| == |items|
    ensures forall i :: 0 <= i < |items| ==> r[i] == ImportedMarker(items[i], start + i, fileName, now, numberOfText)
    decreases |items|
  {
    if items == [] then []
    else [ImportedMarker(items[0], start, fileName, now, numberOfText)] + ImportedFrom(items[1..], start + 1, fileName, now, numberOfText)
  }

  /** The markers an import produces; `None` when the file is not a JSON array, or an
      element is `null` (reading `null.id` throws). */
  function ImportMarkers(data: Option<Json>, fileName: string, now: nat, numberOfText: string -> Option<real>): (r: Option<seq<Marker>>)
    ensures r.Some? <==> data.Some? && data.value.JArr? && forall i :: 0 <= i < |data.value.elems| ==> !data.value.elems[i].JNull?
    ensures r.Some? ==> (|r.value| == |data.value.elems|
      && forall i :: 0 <= i < |r.value| ==> r.value[i].origin == Uploaded && r.value[i].fileName == Some(fileName))
    ensures r.Some? ==> forall i :: 0 <= i < |r.value| ==>
      var itemId := Member(Some(data.value.elems[i]), "id");
      r.value[i].id == if Nullish(itemId) then "uploaded-" + NatToString(now) + "-" + NatToString(i) else ToText(itemId.value)
    ensures r.Some? ==> forall i :: 0 <= i < |r.value| ==>
      var itemTitle := Member(Some(data.value.elems[i]), "title");
      r.value[i].title == if Nullish(itemTitle) then "Imported marker" else ToText(itemTitle.value)
  {
    if data.Some? && data.value.JArr? && forall i :: 0 <= i < |data.value.elems| ==> !data.value.elems[i].JNull? then
      Some(ImportedFrom(data.value.elems, 0, fileName, now, numberOfText))
    else None
  }

  class MarkerWorkspace {
    /** The markers of the project's marker files. */
    const folder: seq<Marker>
    var uploaded: seq<Marker>
    var manual: seq<Marker>
    var selected: Option<string>
    var titleInput: string
    var latInput: string
    var lonInput: string

    constructor(folder: seq<Marker>)
      ensures this.folder == folder && uploaded == [] && manual == []
      ensures selected == if folder == [] then None else Some(folder[0].id)
      ensures titleInput == "" && latInput == "" && lonInput == ""
    {
      this.folder := folder;
      uploaded, manual := [], [];
      selected := if folder == [] then None else Some(folder[0].id);
      titleInput, latInput, lonInput := "", "", "";
    }

    /** The markers that would be sent to the backend. */
    function Workspace(): seq<Marker>
      reads this
    {
      uploaded + manual
    }

    /** `handleAddManualMarker`, with `parseFloat` given (`None` for `NaN`) and the clock
        reading `now`. */
    method AddManualMarker(now: nat, parseFloat: string -> Option<real>)
      modifies this
      ensures old(latInput) == "" || old(lonInput) == "" || parseFloat(old(latInput)).None? || parseFloat(old(lonInput)).None? ==>
        uploaded == old(uploaded) && manual == old(manual) && selected == old(selected)
        && titleInput == old(titleInput) && latInput == old(latInput) && lonInput == old(lonInput)
      ensures !(old(latInput) == "" || old(lonInput) == "" || parseFloat(old(latInput)).None? || parseFloat(old(lonInput)).None?) ==>
        && manual == old(manual) + [Marker("manual-" + NatToString(now),
                                           if old(titleInput) == "" then "Manual marker" else old(titleInput),
                                           parseFloat(old(latInput)), parseFloat(old(lonInput)), Manual, None)]
        && uploaded == old(uploaded)
        && selected == Some("manual-" + NatToString(now))
        && titleInput == "" && latInput == "" && lonInput == ""
    {
      if latInput == "" || lonInput == "" {
        return;
      }
      var lat := parseFloat(latInput);
      var lon := parseFloat(lonInput);
      if lat.None? || lon.None? {
        return;
      }
      var marker := Marker("manual-" + NatToString(now), if titleInput == "" then "Manual marker" else titleInput,
                           lat, lon, Manual, None);
      manual := manual + [marker];
      selected := Some(marker.id);
      titleInput, latInput, lonInput := "", "", "";
    }

    /** `handleDeleteWorkspaceMarker`: every uploaded or manual marker with that id goes,
        the others stay in order; the selection is cleared only if it was that id. */
    method DeleteWorkspaceMarker(id: string)
      modifies this
      ensures uploaded == Filter(old(uploaded), (m: Marker) => m.id != id)
      ensures manual == Filter(old(manual), (m: Marker) => m.id != id)
      ensures selected == if old(selected) == Some(id) then None else old(selected)
      ensures forall m :: m in Workspace() ==> m.id != id
      ensures titleInput == old(titleInput) && latInput == old(latInput) && lonInput == old(lonInput)
    {
      uploaded := Filter(uploaded, (m: Marker) => m.id != id);
      manual := Filter(manual, (m: Marker) => m.id != id);
      if selected == Some(id) {
        selected := None;
      }
    }

    /** `handleImportMarkers` once the file is read; `data` is `None` when it is not
        JSON. A rejected file changes nothing; an accepted one replaces the uploaded
        markers and selects the first of them, if any. */
    method ImportMarkerFile(data: Option<Json>, fileName: string, now: nat, numberOfText: string -> Option<real>)
      modifies this
      ensures var imported := ImportMarkers(data, fileName, now, numberOfText);
        && (imported.None? ==> uploaded == old(uploaded) && selected == old(selected))
        && (imported.Some? ==> (uploaded == imported.value
              && selected == if imported.value == [] then old(selected) else Some(imported.value[0].id)))
      ensures manual == old(manual)
      ensures titleInput == old(titleInput) && latInput == old(latInput) && lonInput == old(lonInput)
    {
      var imported := ImportMarkers(data, fileName, now, numberOfText);
      if imported.None? {
        return;
      }
      uploaded := imported.value;
      if |imported.value| > 0 {
        selected := Some(imported.value[0].id);
      }
    }
  }

  /** Deleting a workspace marker never touches the folder markers, and deleting twice is
      the same as deleting once. */
  lemma DeleteIdempotent(ms: seq<Marker>, id: string)
    ensures Filter(Filter(ms, (m: Marker) => m.id != id), (m: Marker) => m.id != id) == Filter(ms, (m: Marker) => m.id != id)
  {
    FilterIdempotent(ms, (m: Marker) => m.id != id);
  }

  lemma {:induction false} FilterIdempotent<T>(s: seq<T>, p: T -> bool)
    ensures Filter(Filter(s, p), p) == Filter(s, p)
  {
    if s != [] {
      FilterIdempotent(s[1..], p);
      if p(s[0]) {
        var f := Filter(s, p);
        assert f == [s[0]] + Filter(s[1..], p);
        assert f[0] == s[0] && f[1..] == Filter(s[1..], p);
        assert Filter(f, p) == [f[0]] + Filter(f[1..], p);
        assert Filter(f[1..], p) == Filter(s[1..], p);
      } else {
        assert Filter(s, p) == Filter(s[1..], p);
      }
    }
  }
}
