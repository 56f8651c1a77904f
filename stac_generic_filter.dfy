/**
 * The generic STAC filter hook: the collections offered for selection,
 * normalised and sorted by title; the bounding box that follows the map;
 * and the submit step, which searches one collection, keeps only the
 * thumbnail and overview assets of the first feature and adds that feature
 * to the map as a layer.
 */
module StacGenericFilter {
  import opened Wrappers
  import opened Json
  import opened SharedDocument
  import opened LayerTree
  import opened GisModel
  import StacSearch

  // ---------------------------------------------------------------------------
  // Collections
  // ---------------------------------------------------------------------------

  /** A collection as the catalogue lists it; None for a missing field. */
  datatype RawCollection = RawCollection(id: Option<string>, title: Option<string>)

  /** The two fields the hook keeps of a collection. */
  datatype FilteredCollection = FilteredCollection(title: Option<string>, id: Option<string>)

  /** `{title: c.title ?? c.id, id: c.id}`. */
  function Normalize(c: RawCollection): (f: FilteredCollection)
    ensures f.id == c.id
    ensures c.title.Some? ==> f.title == c.title
    ensures c.title.None? ==> f.title == c.id
  {
    FilteredCollection(if c.title.Some? then c.title else c.id, c.id)
  }

  /** The collections mapped one by one, in order. */
  function NormalizeAll(cs: seq<RawCollection>): (r: seq<FilteredCollection>)
    ensures |r| == |cs| && forall i :: 0 <= i < |cs| ==> r[i] == Normalize(cs[i])
  {
    if cs == [] then [] else [Normalize(cs[0])] + NormalizeAll(cs[1..])
  }

  /** `toLowerCase` on one character, for the ASCII letters. */
  function LowerChar(c: char): (d: char)
    ensures 'A' <= c <= 'Z' ==> d as int == c as int + 32
    ensures !('A' <= c <= 'Z') ==> d == c
  {
    if 'A' <= c <= 'Z' then (c as int + 32) as char else c
  }

  function Lower(s: string): (r: string)
    ensures |r| == |s| && forall i :: 0 <= i < |s| ==> r[i] == LowerChar(s[i])
  {
    seq(|s|, i requires 0 <= i < |s| => LowerChar(s[i]))
  }

  /** The sort key: `title?.toLowerCase() ?? ''`. */
  function SortKey(c: FilteredCollection): string {
    Lower(c.title.GetOr(""))
  }

  /** The order `localeCompare` stands for here: lexicographic on character codes. */
  predicate LexLe(a: string, b: string) {
    |a| == 0 || (|b| > 0 && (a[0] < b[0] || (a[0] == b[0] && LexLe(a[1..], b[1..]))))
  }

  /** Any two keys are comparable. */
  lemma {:induction false} LexLeTotal(a: string, b: string)
    ensures LexLe(a, b) || LexLe(b, a)
  {
    if |a| > 0 && |b| > 0 && a[0] == b[0] {
      LexLeTotal(a[1..], b[1..]);
    }
  }

  /** Each collection's key is at most the next one's. */
  predicate SortedByTitle(s: seq<FilteredCollection>) {
    forall i :: 0 < i < |s| ==> LexLe(SortKey(s[i - 1]), SortKey(s[i]))
  }

  /** Places `x` before the first element whose key is not below it. */
  function Insert(x: FilteredCollection, s: seq<FilteredCollection>): (r: seq<FilteredCollection>)
    ensures multiset(r) == multiset(s) + multiset{x}
    ensures |r| == |s| + 1
    ensures r[0] == x || (s != [] && r[0] == s[0])
  {
    if s == [] || LexLe(SortKey(x), SortKey(s[0])) then [x] + s
    else
      assert s == [s[0]] + s[1..];
      [s[0]] + Insert(x, s[1..])
  }

  lemma {:induction false} InsertSorted(x: FilteredCollection, s: seq<FilteredCollection>)
    requires SortedByTitle(s)
    ensures SortedByTitle(Insert(x, s))
  {
    if s != [] && !LexLe(SortKey(x), SortKey(s[0])) {
      LexLeTotal(SortKey(x), SortKey(s[0]));
      InsertSorted(x, s[1..]);
      var r := Insert(x, s);
      assert r == [s[0]] + Insert(x, s[1..]);
    }
  }

  /** The array's `sort` with the title comparator; stable, as JavaScript's sort is. */
  function SortByTitle(s: seq<FilteredCollection>): seq<FilteredCollection> {
    if s == [] then [] else Insert(s[0], SortByTitle(s[1..]))
  }

  /** The sorted collections are ordered by key and are a permutation of the input, so the count is kept. */
  lemma {:induction false} SortByTitleSpec(s: seq<FilteredCollection>)
    ensures SortedByTitle(SortByTitle(s))
    ensures multiset(SortByTitle(s)) == multiset(s)
    ensures |SortByTitle(s)| == |s|
  {
    if s != [] {
      SortByTitleSpec(s[1..]);
      InsertSorted(s[0], SortByTitle(s[1..]));
      assert s == [s[0]] + s[1..];
    }
  }

  /** Every key is at most itself. */
  lemma {:induction false} LexLeReflexive(a: string)
    ensures LexLe(a, a)
  {
    if |a| > 0 {
      LexLeReflexive(a[1..]);
    }
  }

  /** The collections whose key is `k`, in the order they appear. */
  function WithKey(s: seq<FilteredCollection>, k: string): seq<FilteredCollection> {
    if s == [] then []
    else (if SortKey(s[0]) == k then [s[0]] else []) + WithKey(s[1..], k)
  }

  /** Insertion puts `x` before every element of the same key. */
  lemma {:induction false} InsertWithKey(x: FilteredCollection, s: seq<FilteredCollection>, k: string)
    ensures WithKey(Insert(x, s), k) == (if SortKey(x) == k then [x] else []) + WithKey(s, k)
  {
    if s == [] || LexLe(SortKey(x), SortKey(s[0])) {
      assert Insert(x, s) == [x] + s;
      assert ([x] + s)[1..] == s;
    } else {
      LexLeReflexive(SortKey(x));
      assert SortKey(s[0]) != SortKey(x);
      InsertWithKey(x, s[1..], k);
      var r := Insert(x, s);
      assert r == [s[0]] + Insert(x, s[1..]);
      assert r[1..] == Insert(x, s[1..]);
    }
  }

  /** The sort is stable: collections with equal keys keep their input order. */
  lemma {:induction false} SortByTitleStable(s: seq<FilteredCollection>, k: string)
    ensures WithKey(SortByTitle(s), k) == WithKey(s, k)
  {
    if s != [] {
      SortByTitleStable(s[1..], k);
      InsertWithKey(s[0], SortByTitle(s[1..]), k);
    }
  }

  /** Sorting collections that are already in order changes nothing. */
  lemma {:induction false} SortByTitleSorted(s: seq<FilteredCollection>)
    requires SortedByTitle(s)
    ensures SortByTitle(s) == s
  {
    if s != [] {
      assert SortedByTitle(s[1..]) by {
        forall i | 0 < i < |s[1..]|
          ensures LexLe(SortKey(s[1..][i - 1]), SortKey(s[1..][i]))
        {
          assert s[1..][i - 1] == s[i] && s[1..][i] == s[i + 1];
        }
      }
      SortByTitleSorted(s[1..]);
      if |s| > 1 {
        assert LexLe(SortKey(s[0]), SortKey(s[1]));
      }
    }
  }

  /** The collection list the hook shows. */
  function Collections(raw: seq<RawCollection>): seq<FilteredCollection> {
    SortByTitle(NormalizeAll(raw))
  }

  /** One entry per catalogue collection, each normalised, in title order. */
  lemma CollectionsSpec(raw: seq<RawCollection>)
    ensures |Collections(raw)| == |raw|
    ensures SortedByTitle(Collections(raw))
    ensures forall c :: c in Collections(raw) <==> exists i :: 0 <= i < |raw| && c == Normalize(raw[i])
  {
    var n := NormalizeAll(raw);
    SortByTitleSpec(n);
    forall c
      ensures c in Collections(raw) <==> c in n
    {
      assert c in Collections(raw) <==> c in multiset(Collections(raw));
    }
  }

  // ---------------------------------------------------------------------------
  // Assets
  // ---------------------------------------------------------------------------

  /** `s.includes(t)` on a string. */
  predicate HasSubstring(s: string, t: string) {
    exists i :: 0 <= i <= |s| && OccursAt(s, t, i)
  }

  predicate OccursAt(s: string, t: string, i: int) {
    0 <= i <= |s| - |t| && s[i..i + |t|] == t
  }

  /**
   * `roles.includes(x)`: element equality on an array, a substring on a
   * string; on any other value there is no `includes` and the call throws
   * (None).
   */
  function Includes(roles: Value, x: string): (r: Option<bool>)
    ensures r.None? <==> !(roles.Arr? || roles.Str?)
    ensures roles.Arr? ==> r == Some(Str(x) in roles.items)
    ensures roles.Str? ==> r == Some(HasSubstring(roles.s, x))
  {
    match roles
    case Arr(items) => Some(Str(x) in items)
    case Str(s) => Some(HasSubstring(s, x))
    case _ => None
  }

  /**
   * Whether the asset is kept: it and its roles must be truthy and the roles
   * must include `thumbnail` or `overview`; None when the test throws.
   */
  function KeepAsset(asset: Value): Option<bool> {
    var roles := Prop(asset, "roles");
    if !Truthy(asset) || !Truthy(roles) then Some(false)
    else match Includes(roles, "thumbnail")
      case None => None
      case Some(true) => Some(true)
      case Some(false) => Includes(roles, "overview")
  }

  /** An asset is kept iff its roles list or name `thumbnail` or `overview`; assets without roles are dropped. */
  lemma KeepAssetSpec(asset: Value)
    ensures KeepAsset(asset).None? <==>
      (Truthy(asset) && Truthy(Prop(asset, "roles")) && !(Prop(asset, "roles").Arr? || Prop(asset, "roles").Str?))
    ensures Prop(asset, "roles").Arr? ==>
      (KeepAsset(asset) == Some(true) <==> Str("thumbnail") in Prop(asset, "roles").items || Str("overview") in Prop(asset, "roles").items)
    ensures !Truthy(Prop(asset, "roles")) ==> KeepAsset(asset) == Some(false)
  {
  }

  /** Some asset's role test throws. */
  predicate AnyThrows(assets: map<string, Value>) {
    exists k :: k in assets && KeepAsset(assets[k]).None?
  }

  /** The assets kept, under their own keys; None when a role test throws. */
  function FilteredAssets(assets: map<string, Value>): (r: Option<map<string, Value>>)
    ensures r.None? <==> AnyThrows(assets)
    ensures r.Some? ==> forall k :: k in r.value <==> k in assets && KeepAsset(assets[k]) == Some(true)
    ensures r.Some? ==> forall k :: k in r.value ==> r.value[k] == assets[k]
  {
    if AnyThrows(assets) then None
    else Some(map k | k in assets && KeepAsset(assets[k]) == Some(true) :: assets[k])
  }

  /** The loop over the entries, filling `filteredAssets` one key at a time. */
  method FilterAssets(assets: map<string, Value>) returns (r: Option<map<string, Value>>)
    ensures r == FilteredAssets(assets)
  {
    var remaining := assets.Keys;
    var filtered: map<string, Value> := map[];
    while remaining != {}
      invariant remaining <= assets.Keys
      invariant forall k :: k in assets && k !in remaining ==> KeepAsset(assets[k]).Some?
      invariant forall k :: k in filtered <==> k in assets && k !in remaining && KeepAsset(assets[k]) == Some(true)
      invariant forall k :: k in filtered ==> filtered[k] == assets[k]
      decreases remaining
    {
      var key :| key in remaining;
      var keep := KeepAsset(assets[key]);
      if keep.None? {
        assert AnyThrows(assets);
        return None;
      }
      if keep.value {
        filtered := filtered[key := assets[key]];
      }
      remaining := remaining - {key};
    }
    assert !AnyThrows(assets);
    var expected := FilteredAssets(assets).value;
    assert filtered.Keys == expected.Keys;
    assert forall k :: k in filtered ==> filtered[k] == expected[k];
    assert filtered == expected;
    return Some(filtered);
  }

  // ---------------------------------------------------------------------------
  // Submitting a search
  // ---------------------------------------------------------------------------

  /** `v.key` where undefined and null throw (None). */
  function Member(v: Value, key: string): (r: Option<Value>)
    ensures r.None? <==> v.Undefined? || v.Null?
    ensures r.Some? ==> r.value == Prop(v, key)
  {
    if v.Undefined? || v.Null? then None else Some(Prop(v, key))
  }

  /** `{bbox, collections: [selected], datetime: "st/et", limit: 12}`. */
  function SearchBody(bbox: seq<real>, selectedCollection: string, st: string, et: string): (body: Value)
    ensures Prop(body, "bbox") == Arr(StacSearch.Nums(bbox))
    ensures Prop(body, "collections") == Arr([Str(selectedCollection)])
    ensures Prop(body, "datetime") == Str(st + "/" + et)
    ensures Prop(body, "limit") == Num(StacSearch.PageSize as real)
    ensures body.Obj? && body.fields.Keys == {"bbox", "collections", "datetime", "limit"}
  {
    Obj(map[
      "bbox" := Arr(StacSearch.Nums(bbox)),
      "collections" := Arr([Str(selectedCollection)]),
      "datetime" := Str(st + "/" + et),
      "limit" := Num(StacSearch.PageSize as real)])
  }

  /**
   * The value `handleSubmit` passes to `addToMap`: the first feature, with
   * its assets replaced by the kept ones when the features are a non-empty
   * list whose first entry has assets; None when a step throws.
   */
  function SubmittedFeature(data: Value): Option<Value> {
    match Member(data, "features")
    case None => None
    case Some(features) =>
      if Truthy(features) && Len(features) > 0 then
        var first := At(features, 0);
        match Member(first, "assets")
        case None => None
        case Some(assets) =>
          if !Truthy(assets) then Some(first)
          else match FilteredAssets(SpreadEntries(assets))
            case None => None
            case Some(kept) => Some(SetProp(first, "assets", Obj(kept)))
      else if features.Undefined? || features.Null? then None
      else Some(At(features, 0))
  }

  /** Only the first feature's assets change, and only to the kept subset of themselves. */
  lemma SubmittedFeatureSpec(data: Value)
    ensures data.Undefined? || data.Null? ==> SubmittedFeature(data).None?
    ensures var features := Prop(data, "features");
      features.Arr? && |features.items| > 0 && features.items[0].Obj? && !Truthy(Prop(features.items[0], "assets"))
        && !(data.Undefined? || data.Null?)
      ==> SubmittedFeature(data) == Some(features.items[0])
    ensures var features := Prop(data, "features");
      features.Arr? && |features.items| > 0 && features.items[0].Obj? && Prop(features.items[0], "assets").Obj?
        && !AnyThrows(Prop(features.items[0], "assets").fields)
      ==> SubmittedFeature(data) == Some(Obj(features.items[0].fields[
            "assets" := Obj(FilteredAssets(Prop(features.items[0], "assets").fields).value)]))
    ensures Prop(data, "features") == Arr([]) ==> SubmittedFeature(data) == Some(Undefined)
  {
  }

  /** The text of a layer name; a value that is not a string names nothing. */
  function NameText(v: Value): string {
    if v.Str? then v.s else ""
  }

  /**
   * The layer `addToMap` builds for truthy data: a visible `StacLayer` named
   * `properties.title ?? id` holding the data; None when the data has no
   * properties, where reading the title throws.
   */
  function LayerOf(stacData: Value): (r: Option<Layer>)
    ensures r.None? <==> Prop(stacData, "properties").Undefined? || Prop(stacData, "properties").Null?
    ensures r.Some? ==>
      (r.value.layerType == "StacLayer" && r.value.visible && r.value.parameters == Obj(map["data" := stacData]))
    ensures r.Some? ==> r.value.name == NameText(
      var title := Prop(Prop(stacData, "properties"), "title");
      if title.Undefined? || title.Null? then Prop(stacData, "id") else title)
  {
    match Member(Prop(stacData, "properties"), "title")
    case None => None
    case Some(title) =>
      var name := if title.Undefined? || title.Null? then Prop(stacData, "id") else title;
      Some(Layer("StacLayer", NameText(name), true, Obj(map["data" := stacData])))
  }

  /** What a submit does to the map. */
  datatype SubmitEffect = Threw | NothingAdded | Added(layer: Layer)

  /** The effect of a submit whose search came back with `data`. */
  function SubmitEffectOf(data: Value): SubmitEffect {
    match SubmittedFeature(data)
    case None => Threw
    case Some(feature) =>
      if !Truthy(feature) then NothingAdded
      else match LayerOf(feature)
        case None => Threw
        case Some(l) => Added(l)
  }

  /** A search with no features adds nothing; a single feature with thumbnail-only assets is added whole. */
  lemma SubmitEffectExamples(thumb: Value)
    requires thumb == Obj(map["roles" := Arr([Str("thumbnail")])])
    ensures SubmitEffectOf(Obj(map["features" := Arr([])])) == NothingAdded
    ensures var feature := Obj(map["id" := Str("a"), "properties" := Obj(map[]), "assets" := Obj(map["t" := thumb])]);
      SubmitEffectOf(Obj(map["features" := Arr([feature])])) == Added(Layer("StacLayer", "a", true, Obj(map["data" := feature])))
  {
    SubmitEffectNoFeatures();
    SubmitEffectThumbnailOnly(thumb);
  }

  lemma SubmitEffectNoFeatures()
    ensures SubmitEffectOf(Obj(map["features" := Arr([])])) == NothingAdded
  {
  }

  lemma SubmitEffectThumbnailOnly(thumb: Value)
    requires thumb == Obj(map["roles" := Arr([Str("thumbnail")])])
    ensures var feature := Obj(map["id" := Str("a"), "properties" := Obj(map[]), "assets" := Obj(map["t" := thumb])]);
      SubmitEffectOf(Obj(map["features" := Arr([feature])])) == Added(Layer("StacLayer", "a", true, Obj(map["data" := feature])))
  {
    var feature := Obj(map["id" := Str("a"), "properties" := Obj(map[]), "assets" := Obj(map["t" := thumb])]);
    ThumbnailFeatureSubmitted(thumb, feature);
    UntitledLayer(feature, "a");
  }

  /** A feature whose only asset is a thumbnail is submitted unchanged. */
  lemma ThumbnailFeatureSubmitted(thumb: Value, feature: Value)
    requires thumb == Obj(map["roles" := Arr([Str("thumbnail")])])
    requires feature == Obj(map["id" := Str("a"), "properties" := Obj(map[]), "assets" := Obj(map["t" := thumb])])
    ensures SubmittedFeature(Obj(map["features" := Arr([feature])])) == Some(feature)
  {
    var assets := map["t" := thumb];
    assert KeepAsset(thumb) == Some(true) by {
      assert Str("thumbnail") == Prop(thumb, "roles").items[0];
    }
    assert !AnyThrows(assets);
    var kept := FilteredAssets(assets).value;
    assert kept == assets;
    assert feature.fields["assets" := Obj(kept)] == feature.fields;
  }

  /** A feature with empty properties is named by its id. */
  lemma UntitledLayer(feature: Value, id: string)
    requires feature.Obj? && "properties" in feature.fields && feature.fields["properties"] == Obj(map[])
    requires "id" in feature.fields && feature.fields["id"] == Str(id)
    ensures LayerOf(feature) == Some(Layer("StacLayer", id, true, Obj(map["data" := feature])))
  {
  }

  /** The hook's state. */
  class GenericFilterState {
    var collections: seq<FilteredCollection>
    var selectedCollection: string
    var currentBBox: seq<real>

    constructor ()
      ensures collections == [] && selectedCollection == "sentinel-2-l2a" && currentBBox == StacSearch.WorldBBox
    {
      collections := [];
      selectedCollection := "sentinel-2-l2a";
      currentBBox := StacSearch.WorldBBox;
    }

    /** The collections effect, once the catalogue's collections are fetched. */
    method LoadCollections(raw: seq<RawCollection>)
      modifies this
      ensures collections == Collections(raw)
      ensures selectedCollection == old(selectedCollection) && currentBBox == old(currentBBox)
    {
      collections := SortByTitle(NormalizeAll(raw));
    }

    /** The bounding-box listener: the world box when `useWorldBBox` is set, else the signalled box. */
    method OnBboxSignal(bbox: seq<real>, useWorldBBox: bool)
      modifies this
      ensures currentBBox == if useWorldBBox then StacSearch.WorldBBox else bbox
      ensures collections == old(collections) && selectedCollection == old(selectedCollection)
    {
      if useWorldBBox {
        currentBBox := StacSearch.WorldBBox;
      } else {
        currentBBox := bbox;
      }
    }

    /**
     * `handleSubmit`: without a model nothing happens; otherwise the body is
     * sent and the search's `data` decides what is added to the map, under
     * the fresh id `layerId`.
     */
    method HandleSubmit(model: Option<JupyterGISModel>, startTime: Option<string>, startOfToday: string,
                        endTime: Option<string>, endOfToday: string, data: Value, layerId: string)
      returns (body: Option<Value>, threw: bool)
      modifies if model.Some? then {model.value.sharedModel} else {}
      ensures model.None? ==> body.None? && !threw
      ensures model.Some? ==>
        body == Some(SearchBody(currentBBox, selectedCollection, startTime.GetOr(startOfToday), endTime.GetOr(endOfToday)))
      ensures threw <==> model.Some? && SubmitEffectOf(data).Threw?
      ensures model.Some? ==> var doc := model.value.sharedModel;
        && doc.layers == (match SubmitEffectOf(data)
            case Added(l) => if layerId in old(doc.layers) then old(doc.layers) else old(doc.layers)[layerId := l]
            case _ => old(doc.layers))
        && doc.layerTree == (if SubmitEffectOf(data).Added? then TreeAfterAdd(old(doc.layerTree), Leaf(layerId), None, None)
            else old(doc.layerTree))
        && doc.sources == old(doc.sources) && doc.options == old(doc.options)
    {
      if model.None? {
        return None, false;
      }
      body := Some(SearchBody(currentBBox, selectedCollection, startTime.GetOr(startOfToday), endTime.GetOr(endOfToday)));
      var feature := SubmittedFeatureOf(data);
      if feature.None? {
        return body, true;
      }
      threw := AddToMap(model, feature.value, layerId);
    }

    /**
     * `addToMap`: nothing without a model or for falsy data; otherwise the
     * data's layer is added under `layerId`.
     */
    method AddToMap(model: Option<JupyterGISModel>, stacData: Value, layerId: string) returns (threw: bool)
      modifies if model.Some? then {model.value.sharedModel} else {}
      ensures threw <==> model.Some? && Truthy(stacData) && LayerOf(stacData).None?
      ensures model.Some? ==> var doc := model.value.sharedModel;
        var added := Truthy(stacData) && LayerOf(stacData).Some?;
        && doc.layers == (if added && layerId !in old(doc.layers) then old(doc.layers)[layerId := LayerOf(stacData).value]
            else old(doc.layers))
        && doc.layerTree == (if added then TreeAfterAdd(old(doc.layerTree), Leaf(layerId), None, None) else old(doc.layerTree))
        && doc.sources == old(doc.sources) && doc.options == old(doc.options)
    {
      if model.None? || !Truthy(stacData) {
        return false;
      }
      var layer := LayerOf(stacData);
      if layer.None? {
        return true;
      }
      model.value.AddLayer(layerId, layer.value, None, None);
      return false;
    }
  }

  /**
   * The submit's steps up to the call of `addToMap`, with the asset loop;
   * None when a step throws.
   */
  method SubmittedFeatureOf(data: Value) returns (feature: Option<Value>)
    ensures feature == SubmittedFeature(data)
  {
    if data.Undefined? || data.Null? {
      return None;
    }
    var features := Prop(data, "features");
    if Truthy(features) && Len(features) > 0 {
      var first := At(features, 0);
      if first.Undefined? || first.Null? {
        return None;
      }
      var assets := Prop(first, "assets");
      if !Truthy(assets) {
        return Some(first);
      }
      var kept := FilterAssets(SpreadEntries(assets));
      if kept.None? {
        return None;
      }
      return Some(SetProp(first, "assets", Obj(kept.value)));
    }
    if features.Undefined? || features.Null? {
      return None;
    }
    return Some(At(features, 0));
  }
}
