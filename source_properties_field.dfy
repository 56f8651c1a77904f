/**
 * The source-properties field of a story segment's layer override: which
 * override entry it edits, which layer and source that entry targets, and
 * the source type and schema the embedded source form is given.
 */
module SourcePropertiesField {
  import opened Wrappers
  import opened Json
  import opened SharedDocument
  import opened StorySegmentForm

  /** `v?.[i]`: undefined on undefined or null. */
  function OptAt(v: Value, i: int): (r: Value)
    ensures (v.Undefined? || v.Null?) ==> r == Undefined
    ensures !(v.Undefined? || v.Null?) ==> r == At(v, i)
  {
    if v.Undefined? || v.Null? then Undefined else At(v, i)
  }

  /**
   * The override entry's `sourceProperties`: defined only when the id names
   * an index and the form data has a truthy override entry there.
   */
  function SourceProperties(index: Option<nat>, formData: Value): (r: Value)
    ensures index.None? ==> r == Undefined
    ensures index.Some? && !Truthy(OptAt(OptProp(formData, "layerOverride"), index.value)) ==> r == Undefined
    ensures index.Some? && Truthy(OptAt(OptProp(formData, "layerOverride"), index.value)) ==>
      r == Prop(At(Prop(formData, "layerOverride"), index.value), "sourceProperties")
  {
    if index.Some? && Truthy(OptAt(OptProp(formData, "layerOverride"), index.value)) then
      Prop(At(Prop(formData, "layerOverride"), index.value), "sourceProperties")
    else Undefined
  }

  /** The `targetLayer` of override entry `index ?? 0`. */
  function TargetLayer(index: Option<nat>, formData: Value): Value {
    OptProp(OptAt(OptProp(formData, "layerOverride"), index.GetOr(0)), "targetLayer")
  }

  /** A lookup by a key that is not a string finds nothing. */
  function LayerById(doc: SharedDoc, id: Value): (r: Option<Layer>)
    reads doc
    ensures r.Some? <==> id.Str? && id.s in doc.layers
    ensures r.Some? ==> r.value == doc.layers[id.s]
  {
    if id.Str? then doc.GetLayer(id.s) else None
  }

  function SourceById(doc: SharedDoc, id: Value): (r: Option<Source>)
    reads doc
    ensures r.Some? <==> id.Str? && id.s in doc.sources
    ensures r.Some? ==> r.value == doc.sources[id.s]
  {
    if id.Str? then doc.GetSource(id.s) else None
  }

  /** The source of the override's target layer: `model?.getSource(layer?.parameters?.source)`. */
  function TargetSource(model: Option<SharedDoc>, index: Option<nat>, formData: Value): Option<Source>
    reads if model.Some? then {model.value} else {}
  {
    if model.None? then None
    else match LayerById(model.value, TargetLayer(index, formData))
      case None => None
      case Some(layer) => SourceById(model.value, OptProp(layer.parameters, "source"))
  }

  /** What the embedded source form is given. */
  datatype SourceFormProps = SourceFormProps(sourceData: Value, sourceType: string, schema: Value)

  /**
   * The field's props: the entry's source properties, the source's type with
   * `GeoJSONSource` as the default, and the registry's schema for that type
   * when the source has a type and there is a registry, in place of
   * `{sourceSchema: undefined}` otherwise.
   */
  function FieldProps(id: Option<string>, formData: Value, registry: Option<map<string, Value>>, model: Option<SharedDoc>)
    : (p: SourceFormProps)
    reads if model.Some? then {model.value} else {}
  {
    var index := ExtractLayerOverrideIndex(id);
    var source := TargetSource(model, index, formData);
    var sourceSchema :=
      if source.Some? && source.value.sourceType != "" && registry.Some? then
        (if source.value.sourceType in registry.value then registry.value[source.value.sourceType] else Undefined)
      else Undefined;
    var sourceType := if source.Some? then source.value.sourceType else "GeoJSONSource";
    SourceFormProps(
      SourceProperties(index, formData),
      sourceType,
      if Truthy(sourceSchema) then sourceSchema else Obj(map["sourceSchema" := sourceSchema]))
  }

  /**
   * Unknown sources get the `GeoJSONSource` form; a schema is looked up only
   * for a typed source with a registry; the entry's properties are read only
   * when the id names an index.
   */
  lemma FieldPropsSpec(id: Option<string>, formData: Value, registry: Option<map<string, Value>>, model: Option<SharedDoc>)
    ensures var p := FieldProps(id, formData, registry, model);
      var source := TargetSource(model, ExtractLayerOverrideIndex(id), formData);
      && (source.None? ==> p.sourceType == "GeoJSONSource")
      && (source.Some? ==> p.sourceType == source.value.sourceType)
      && ((source.None? || registry.None? || source.value.sourceType == "") ==>
            p.schema == Obj(map["sourceSchema" := Undefined]))
      && (source.Some? && source.value.sourceType != "" && registry.Some? && source.value.sourceType in registry.value
            && Truthy(registry.value[source.value.sourceType]) ==>
            p.schema == registry.value[source.value.sourceType])
      && (ExtractLayerOverrideIndex(id).None? ==> p.sourceData == Undefined)
  {
  }

  /** An id without an override index reads the target layer of entry 0. */
  lemma NoIndexReadsFirstEntry(formData: Value)
    ensures TargetLayer(ExtractLayerOverrideIndex(None), formData)
      == OptProp(OptAt(OptProp(formData, "layerOverride"), 0), "targetLayer")
    ensures SourceProperties(ExtractLayerOverrideIndex(None), formData) == Undefined
  {
    assert !MatchAt("", 0);
  }

  /** For an override list, field `root_layerOverride_<n>_…` edits entry `n`'s source properties when it is an object. */
  lemma FieldOfEntry(n: nat, rest: string, entries: seq<Value>)
    requires rest == [] || !IsDigit(rest[0])
    requires n < |entries| && entries[n].Obj?
    ensures SourceProperties(ExtractLayerOverrideIndex(Some("root_" + Marker + NatToString(n) + rest)),
        Obj(map["layerOverride" := Arr(entries)]))
      == Prop(entries[n], "sourceProperties")
    ensures TargetLayer(ExtractLayerOverrideIndex(Some("root_" + Marker + NatToString(n) + rest)),
        Obj(map["layerOverride" := Arr(entries)]))
      == Prop(entries[n], "targetLayer")
  {
    FieldIdRoundTrip(n, rest);
  }
}
