/**
 * The story-segment layer form: reading a layer-override index out of a form
 * field id, and the schema patching the form applies for the first selected
 * story segment.
 */
module StorySegmentForm {
  import opened Wrappers
  import opened Json
  import opened SharedDocument

  // ---------------------------------------------------------------------------
  // The layer-override index of a field id
  // ---------------------------------------------------------------------------

  const Marker: string := "layerOverride_"

  predicate IsDigit(c: char) {
    '0' <= c <= '9'
  }

  /** `layerOverride_` followed by a digit starts at `p`. */
  predicate MatchAt(s: string, p: int) {
    0 <= p && p + |Marker| < |s| && s[p..p + |Marker|] == Marker && IsDigit(s[p + |Marker|])
  }

  /** The leftmost match at or after `p`, as the unanchored pattern finds it. */
  function FirstMatchFrom(s: string, p: nat): (r: Option<nat>)
    ensures r.None? ==> forall q :: p <= q ==> !MatchAt(s, q)
    ensures r.Some? ==> p <= r.value && MatchAt(s, r.value) && forall q :: p <= q < r.value ==> !MatchAt(s, q)
    decreases |s| - p
  {
    if p + |Marker| >= |s| then None
    else if MatchAt(s, p) then Some(p)
    else FirstMatchFrom(s, p + 1)
  }

  /** The end of the run of digits that starts at `i`: the greedy `\d+`. */
  function DigitRunEnd(s: string, i: nat): (j: nat)
    requires i <= |s|
    ensures i <= j <= |s|
    ensures forall k :: i <= k < j ==> IsDigit(s[k])
    ensures j == |s| || !IsDigit(s[j])
    decreases |s| - i
  {
    if i == |s| || !IsDigit(s[i]) then i else DigitRunEnd(s, i + 1)
  }

  /** `parseInt(d, 10)` of a string of decimal digits. */
  function DigitsValue(d: string): nat
    requires forall k :: 0 <= k < |d| ==> IsDigit(d[k])
  {
    if d == [] then 0
    else
      assert IsDigit(d[|d| - 1]);
      DigitsValue(d[..|d| - 1]) * 10 + ((d[|d| - 1] as int) - ('0' as int))
  }

  /**
   * `extractLayerOverrideIndex`: the value of the digits after the first
   * `layerOverride_` that is followed by a digit; None when the id is missing
   * or has no such match.
   */
  function ExtractLayerOverrideIndex(id: Option<string>): (r: Option<nat>)
    ensures var s := id.GetOr("");
      r.None? <==> forall q :: !MatchAt(s, q)
  {
    var s := id.GetOr("");
    match FirstMatchFrom(s, 0)
    case None => None
    case Some(p) =>
      var start := p + |Marker|;
      Some(DigitsValue(s[start..DigitRunEnd(s, start)]))
  }

  /**
   * `s` has its leftmost match at `p`, the digit run after the marker ends at
   * `e` (at the end of `s` or at a non-digit) and reads as `n`.
   */
  predicate ReadAt(s: string, p: int, e: int, n: nat) {
    && MatchAt(s, p) && (forall q :: 0 <= q < p ==> !MatchAt(s, q))
    && p + |Marker| < e <= |s| && (e == |s| || !IsDigit(s[e]))
    && (forall k :: p + |Marker| <= k < e ==> IsDigit(s[k]))
    && n == DigitsValue(s[p + |Marker|..e])
  }

  /**
   * A match is read as the whole digit run after the marker of the leftmost
   * match: no earlier match, at least one digit, and no digit after the run.
   */
  lemma ExtractLayerOverrideIndexSpec(id: Option<string>)
    requires ExtractLayerOverrideIndex(id).Some?
    ensures exists p, e :: ReadAt(id.GetOr(""), p, e, ExtractLayerOverrideIndex(id).value)
  {
    var s := id.GetOr("");
    var p := FirstMatchFrom(s, 0).value;
    var e := DigitRunEnd(s, p + |Marker|);
    assert ReadAt(s, p, e, ExtractLayerOverrideIndex(id).value);
  }

  /** Reading back the digits `String(n)` writes gives `n`. */
  lemma {:induction false} DigitsValueOfNatToString(n: nat)
    ensures forall k :: 0 <= k < |NatToString(n)| ==> IsDigit(NatToString(n)[k])
    ensures DigitsValue(NatToString(n)) == n
    decreases n
  {
    var d := NatToString(n);
    if n >= 10 {
      DigitsValueOfNatToString(n / 10);
      assert d[..|d| - 1] == NatToString(n / 10);
    }
  }

  /**
   * The ids the form gives the fields of override `n`, such as
   * `root_layerOverride_3_sourceProperties`, read back as `n`.
   */
  lemma FieldIdRoundTrip(n: nat, rest: string)
    requires rest == [] || !IsDigit(rest[0])
    ensures ExtractLayerOverrideIndex(Some("root_" + Marker + NatToString(n) + rest)) == Some(n)
  {
    var digits := NatToString(n);
    DigitsValueOfNatToString(n);
    FieldIdFirstMatch(digits, rest);
    FieldIdDigitRun(digits, rest);
  }

  /** In a field id the leftmost match is the marker after `root_`. */
  lemma FieldIdFirstMatch(digits: string, rest: string)
    requires |digits| > 0 && IsDigit(digits[0])
    ensures FirstMatchFrom("root_" + Marker + digits + rest, 0) == Some(5)
  {
    var s := "root_" + Marker + digits + rest;
    forall q | 0 <= q < 5
      ensures !MatchAt(s, q)
    {
      assert s[q] != 'l';
      assert s[q..q + |Marker|][0] == s[q];
    }
    assert s[5..5 + |Marker|] == Marker;
    assert s[5 + |Marker|] == digits[0];
    assert MatchAt(s, 5);
  }

  /** In a field id the digit run after the marker is exactly the index's digits. */
  lemma FieldIdDigitRun(digits: string, rest: string)
    requires forall k :: 0 <= k < |digits| ==> IsDigit(digits[k])
    requires rest == [] || !IsDigit(rest[0])
    ensures var s := "root_" + Marker + digits + rest;
      var start := 5 + |Marker|;
      && DigitRunEnd(s, start) == start + |digits|
      && s[start..start + |digits|] == digits
  {
    var s := "root_" + Marker + digits + rest;
    var start := 5 + |Marker|;
    forall k | start <= k < start + |digits|
      ensures IsDigit(s[k])
    {
      assert s[k] == digits[k - start];
    }
    assert start + |digits| == |s| || s[start + |digits|] == rest[0];
    DigitRunEndOfRun(s, start, start + |digits|);
    assert s[start..start + |digits|] == digits;
  }

  /** A run of digits ending at a non-digit or at the end is the greedy run. */
  lemma {:induction false} DigitRunEndOfRun(s: string, i: nat, e: nat)
    requires i <= e <= |s|
    requires forall k :: i <= k < e ==> IsDigit(s[k])
    requires e == |s| || !IsDigit(s[e])
    ensures DigitRunEnd(s, i) == e
    decreases e - i
  {
    if i < e {
      DigitRunEndOfRun(s, i + 1, e);
    }
  }

  // ---------------------------------------------------------------------------
  // Schema patching
  // ---------------------------------------------------------------------------

  /** The first of `keys` whose layer is a story segment, in key order. */
  function FirstStorySegment(layers: map<string, Layer>, keys: seq<string>): (r: Option<string>)
    ensures r.None? <==> forall i :: 0 <= i < |keys| ==> !IsStorySegment(layers, keys[i])
    ensures r.Some? ==> exists i :: FirstStorySegmentAt(layers, keys, i) && keys[i] == r.value
  {
    if keys == [] then None
    else if IsStorySegment(layers, keys[0]) then
      assert FirstStorySegmentAt(layers, keys, 0);
      Some(keys[0])
    else
      var r := FirstStorySegment(layers, keys[1..]);
      if r.Some? then
        assert exists i :: FirstStorySegmentAt(layers, keys, i) && keys[i] == r.value by {
          var i :| FirstStorySegmentAt(layers, keys[1..], i) && keys[1..][i] == r.value;
          assert FirstStorySegmentAt(layers, keys, i + 1) by {
            forall j | 0 <= j < i + 1
              ensures !IsStorySegment(layers, keys[j])
            {
              if j > 0 {
                assert keys[j] == keys[1..][j - 1];
              }
            }
          }
        }
        r
      else
        assert forall i :: 1 <= i < |keys| ==> keys[i] == keys[1..][i - 1];
        r
  }

  predicate IsStorySegment(layers: map<string, Layer>, key: string) {
    key in layers && layers[key].layerType == "StorySegmentLayer"
  }

  /** `keys[i]` is a story segment and no key before it is. */
  predicate FirstStorySegmentAt(layers: map<string, Layer>, keys: seq<string>, i: int) {
    && 0 <= i < |keys| && IsStorySegment(layers, keys[i])
    && forall j :: 0 <= j < i ==> !IsStorySegment(layers, keys[j])
  }

  /** The loop over the selected keys that stops at the first story segment. */
  method FindStorySegment(doc: SharedDoc, keys: seq<string>) returns (layerId: Option<string>)
    ensures layerId == FirstStorySegment(doc.layers, keys)
  {
    var i := 0;
    while i < |keys|
      invariant 0 <= i <= |keys|
      invariant FirstStorySegment(doc.layers, keys) == FirstStorySegment(doc.layers, keys[i..])
    {
      assert keys[i..][1..] == keys[i + 1..];
      var layer := doc.GetLayer(keys[i]);
      if layer.Some? && layer.value.layerType == "StorySegmentLayer" {
        return Some(keys[i]);
      }
      i := i + 1;
    }
    return None;
  }

  /** Stands for the render callback of the extent field. */
  const ResetField: Value := Str("StorySegmentReset")
  /** Stands for the render callback of the source-properties field. */
  const SourcePropertiesDebugField: Value := Str("SourcePropertiesDebug")
  /** Stands for the array template of the override list. */
  const ArrayTemplate: Value := Str("ArrayFieldTemplate")

  /** `{'ui:field': f}`. */
  function UiField(f: Value): Value {
    Obj(map["ui:field" := f])
  }

  /** The markdown editor: a textarea of ten rows. */
  function MarkdownWidget(): Value {
    Obj(map["ui:widget" := Str("textarea"), "ui:options" := Obj(map["rows" := Num(10.0)])])
  }

  /** The UI schema of the override list's items. */
  function OverrideItemsUi(): Value {
    Obj(map[
      "ui:title" := Str(""),
      "targetLayer" := UiField(Str("layerSelect")),
      "opacity" := UiField(Str("opacity")),
      "sourceProperties" := UiField(SourcePropertiesDebugField)])
  }

  /** The three UI-schema entries `processSchema` writes, each spread over what was there. */
  function PatchedUiSchema(ui: map<string, Value>): (r: map<string, Value>)
    ensures "extent" in r && "content" in r && "layerOverride" in r
    ensures forall k :: k in r <==> k in ui || k in {"extent", "content", "layerOverride"}
    ensures forall k :: k in ui && k !in {"extent", "content", "layerOverride"} ==> r[k] == ui[k]
    ensures r["extent"] == UiField(ResetField)
    ensures r["content"] == ContentUi(Prop(Obj(ui), "content"))
    ensures r["layerOverride"] == OverrideUi(Prop(Obj(ui), "layerOverride"))
  {
    ui["extent" := UiField(ResetField)]
      ["content" := ContentUi(Prop(Obj(ui), "content"))]
      ["layerOverride" := OverrideUi(Prop(Obj(ui), "layerOverride"))]
  }

  /** The patched `content` and `layerOverride` entries, spelt out over the old ones. */
  lemma PatchedUiSchemaEntries(ui: map<string, Value>)
    ensures var r := PatchedUiSchema(ui);
      && r["content"].Obj? && Prop(r["content"], "markdown") == MarkdownWidget()
      && (forall k :: k in SpreadEntries(Prop(Obj(ui), "content")) && k != "markdown" ==>
        k in r["content"].fields && r["content"].fields[k] == SpreadEntries(Prop(Obj(ui), "content"))[k])
    ensures var r := PatchedUiSchema(ui);
      && r["layerOverride"].Obj?
      && Prop(r["layerOverride"], "items") == OverrideItemsUi()
      && Prop(r["layerOverride"], "ui:options") == Obj(map["orderable" := Bool(false)])
      && Prop(r["layerOverride"], "ui:ArrayFieldTemplate") == ArrayTemplate
      && (forall k :: (k in SpreadEntries(Prop(Obj(ui), "layerOverride"))
          && k !in {"items", "ui:options", "ui:ArrayFieldTemplate"}) ==>
        k in r["layerOverride"].fields
        && r["layerOverride"].fields[k] == SpreadEntries(Prop(Obj(ui), "layerOverride"))[k])
  {
  }

  /** The content field's UI schema: the old entries spread, then the markdown widget. */
  function ContentUi(previous: Value): (o: Value)
    ensures o.Obj? && Prop(o, "markdown") == MarkdownWidget()
    ensures forall k :: k in SpreadEntries(previous) && k != "markdown" ==>
      k in o.fields && o.fields[k] == SpreadEntries(previous)[k]
  {
    Obj(SpreadEntries(previous)["markdown" := MarkdownWidget()])
  }

  /** The override list's UI schema: the old entries spread, then its items, options and template. */
  function OverrideUi(previous: Value): (o: Value)
    ensures o.Obj?
    ensures Prop(o, "items") == OverrideItemsUi()
    ensures Prop(o, "ui:options") == Obj(map["orderable" := Bool(false)])
    ensures Prop(o, "ui:ArrayFieldTemplate") == ArrayTemplate
    ensures forall k :: (k in SpreadEntries(previous) && k !in {"items", "ui:options", "ui:ArrayFieldTemplate"}) ==>
      k in o.fields && o.fields[k] == SpreadEntries(previous)[k]
  {
    Obj(SpreadEntries(previous) + map[
      "items" := OverrideItemsUi(),
      "ui:options" := Obj(map["orderable" := Bool(false)]),
      "ui:ArrayFieldTemplate" := ArrayTemplate])
  }

  /** The item properties of the override list in a schema, when there are any. */
  function OverrideItemProperties(schema: Value): Value {
    OptProp(OptProp(OptProp(OptProp(schema, "properties"), "layerOverride"), "items"), "properties")
  }

  /**
   * The schema with `color` and `symbologyState` deleted from the override
   * items' properties; a schema without such properties is unchanged.
   */
  function WithoutOverrideStyle(schema: Value): (r: Value)
    ensures !OverrideItemProperties(schema).Obj? ==> r == schema
    ensures OverrideItemProperties(schema).Obj? ==>
      OverrideItemProperties(r) == Obj(OverrideItemProperties(schema).fields - {"color", "symbologyState"})
  {
    var properties := OptProp(schema, "properties");
    var layerOverride := OptProp(properties, "layerOverride");
    var items := OptProp(layerOverride, "items");
    var itemProperties := OptProp(items, "properties");
    if itemProperties.Obj? then
      SetProp(schema, "properties",
        SetProp(properties, "layerOverride",
          SetProp(layerOverride, "items",
            SetProp(items, "properties", Obj(itemProperties.fields - {"color", "symbologyState"})))))
    else schema
  }

  /** Deleting the two properties again changes nothing. */
  lemma WithoutOverrideStyleIdempotent(schema: Value)
    ensures WithoutOverrideStyle(WithoutOverrideStyle(schema)) == WithoutOverrideStyle(schema)
  {
    var once := WithoutOverrideStyle(schema);
    if OverrideItemProperties(schema).Obj? {
      var properties := OptProp(once, "properties");
      var layerOverride := OptProp(properties, "layerOverride");
      var items := OptProp(layerOverride, "items");
      var m := OverrideItemProperties(once).fields;
      assert m - {"color", "symbologyState"} == m;
      SetPropSame(items, "properties");
      SetPropSame(layerOverride, "items");
      SetPropSame(properties, "layerOverride");
      SetPropSame(once, "properties");
    }
  }

  /** Writing back the value a field already holds changes nothing. */
  lemma SetPropSame(v: Value, key: string)
    requires v.Obj? && key in v.fields
    ensures SetProp(v, key, v.fields[key]) == v
  {
    assert v.fields[key := v.fields[key]] == v.fields;
  }

  /** The schema and UI schema a form renders from, patched in place. */
  class FormSchemas {
    var schema: Value
    var uiSchema: map<string, Value>

    constructor (schema: Value, uiSchema: map<string, Value>)
      ensures this.schema == schema && this.uiSchema == uiSchema
    {
      this.schema := schema;
      this.uiSchema := uiSchema;
    }

    /**
     * `processSchema` after the base form's processing: nothing when there is
     * no selection; otherwise the first selected story segment is found for
     * the extent field and both schemas are patched.
     */
    method ProcessSchema(doc: SharedDoc, selected: Option<seq<string>>) returns (layerId: Option<string>)
      modifies this
      ensures selected.None? ==> layerId.None? && schema == old(schema) && uiSchema == old(uiSchema)
      ensures selected.Some? ==> layerId == FirstStorySegment(doc.layers, selected.value)
      ensures selected.Some? ==> uiSchema == PatchedUiSchema(old(uiSchema)) && schema == WithoutOverrideStyle(old(schema))
    {
      if selected.None? {
        return None;
      }
      layerId := FindStorySegment(doc, selected.value);
      uiSchema := PatchedUiSchema(uiSchema);
      schema := WithoutOverrideStyle(schema);
    }
  }
}
