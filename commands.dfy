/**
 * The application commands: the form schemas prepared once for every
 * registered schema, the enabling rule of undo, redo and the layer browser,
 * and the selection-driven commands that remove or rename layers and groups.
 */
module Commands {
  import opened Wrappers
  import opened Json
  import opened LayerTree
  import opened SharedDocument
  import opened GisModel

  // ---------------------------------------------------------------------------
  // Form schemas
  // ---------------------------------------------------------------------------

  /** The `name` property every form schema gains. */
  function NameProperty(): Value {
    Obj(map["type" := Str("string"), "description" := Str("The name of the layer/source")])
  }

  /** `[...v]`: the elements of an array or the characters of a string; None where `v` is not iterable. */
  function SpreadItems(v: Value): (r: Option<seq<Value>>)
    ensures r.None? <==> !(v.Arr? || v.Str?)
    ensures v.Arr? ==> r == Some(v.items)
  {
    match v
    case Arr(items) => Some(items)
    case Str(s) => Some(seq(|s|, i requires 0 <= i < |s| => Str([s[i]])))
    case _ => None
  }

  /**
   * A registered schema as the form uses it: `'name'` put first in
   * `required`, and a `name` property added to `properties`, where the
   * schema's own `name` property wins; None when `required` cannot be
   * spread, which throws. Objects are maps here, so the position of the
   * `name` key among the properties is not represented.
   */
  function PatchSchema(schema: map<string, Value>): Option<map<string, Value>> {
    match SpreadItems(Prop(Obj(schema), "required"))
    case None => None
    case Some(required) =>
      var properties := map["name" := NameProperty()] + SpreadEntries(Prop(Obj(schema), "properties"));
      Some(schema["required" := Arr([Str("name")] + required)]["properties" := Obj(properties)])
  }

  /**
   * With an array `required`: `'name'` then the old entries; a `name`
   * property (the schema's own when it has one); every other key kept.
   */
  lemma PatchSchemaSpec(schema: map<string, Value>)
    requires Prop(Obj(schema), "required").Arr?
    ensures PatchSchema(schema).Some?
    ensures var p := PatchSchema(schema).value;
      && p.Keys == schema.Keys + {"required", "properties"}
      && p["required"] == Arr([Str("name")] + schema["required"].items)
      && p["properties"].Obj? && "name" in p["properties"].fields
      && (forall k :: k in schema && k !in {"required", "properties"} ==> p[k] == schema[k])
    ensures var p := PatchSchema(schema).value;
      var own := SpreadEntries(Prop(Obj(schema), "properties"));
      && (forall k :: k in own ==> k in p["properties"].fields && p["properties"].fields[k] == own[k])
      && ("name" !in own ==> p["properties"].fields["name"] == NameProperty())
  {
  }

  /** A schema without a `required` array throws. */
  lemma PatchSchemaThrows(schema: map<string, Value>)
    requires !Prop(Obj(schema), "required").Arr? && !Prop(Obj(schema), "required").Str?
    ensures PatchSchema(schema).None?
  {
  }

  /**
   * The store after patching the registry's schemas in order, and whether a
   * schema threw; the schema that throws has already been stored, unpatched.
   */
  function PatchAll(store: map<string, Value>, registry: seq<(string, map<string, Value>)>)
    : (map<string, Value>, bool)
    decreases |registry|
  {
    if registry == [] then (store, false)
    else
      var (key, schema) := registry[0];
      match PatchSchema(schema)
      case None => (store[key := Obj(schema)], true)
      case Some(p) => PatchAll(store[key := Obj(p)], registry[1..])
  }

  /** Without a throw, the keys stored are those of the store and the registry. */
  lemma {:induction false} PatchAllKeys(store: map<string, Value>, registry: seq<(string, map<string, Value>)>, k: string)
    ensures !PatchAll(store, registry).1 ==>
      (k in PatchAll(store, registry).0 <==> k in store || exists i :: 0 <= i < |registry| && registry[i].0 == k)
    decreases |registry|
  {
    if registry != [] {
      var (key, schema) := registry[0];
      if PatchSchema(schema).Some? {
        PatchAllKeys(store[key := Obj(PatchSchema(schema).value)], registry[1..], k);
        if exists i :: 0 <= i < |registry[1..]| && registry[1..][i].0 == k {
          var i :| 0 <= i < |registry[1..]| && registry[1..][i].0 == k;
          assert registry[i + 1].0 == k;
        }
        if exists i :: 0 <= i < |registry| && registry[i].0 == k {
          var i :| 0 <= i < |registry| && registry[i].0 == k;
          if i > 0 {
            assert registry[1..][i - 1].0 == k;
          }
        }
      }
    }
  }

  /** Without a throw, each registered schema is stored patched under its key (the last one when a key repeats). */
  lemma {:induction false} PatchAllValues(store: map<string, Value>, registry: seq<(string, map<string, Value>)>, i: int)
    requires 0 <= i < |registry|
    requires forall j :: i < j < |registry| ==> registry[j].0 != registry[i].0
    requires !PatchAll(store, registry).1
    ensures PatchSchema(registry[i].1).Some?
    ensures registry[i].0 in PatchAll(store, registry).0
    ensures PatchAll(store, registry).0[registry[i].0] == Obj(PatchSchema(registry[i].1).value)
    decreases |registry|
  {
    var (key, schema) := registry[0];
    var next := store[key := Obj(PatchSchema(schema).value)];
    if i == 0 {
      PatchAllKeeps(next, registry[1..], key);
    } else {
      forall j | i - 1 < j < |registry[1..]|
        ensures registry[1..][j].0 != registry[1..][i - 1].0
      {
        assert registry[1..][j] == registry[j + 1];
      }
      PatchAllValues(next, registry[1..], i - 1);
    }
  }

  /** A key the rest of the registry does not name keeps its stored value. */
  lemma {:induction false} PatchAllKeeps(store: map<string, Value>, registry: seq<(string, map<string, Value>)>, k: string)
    requires k in store
    requires forall j :: 0 <= j < |registry| ==> registry[j].0 != k
    ensures k in PatchAll(store, registry).0 && PatchAll(store, registry).0[k] == store[k]
    decreases |registry|
  {
    if registry != [] {
      var (key, schema) := registry[0];
      if PatchSchema(schema).Some? {
        PatchAllKeeps(store[key := Obj(PatchSchema(schema).value)], registry[1..], k);
      }
    }
  }

  /** `updateFormSchema`: nothing when the store already has entries, else every schema patched. */
  function UpdateFormSchema(store: map<string, Value>, registry: seq<(string, map<string, Value>)>)
    : (map<string, Value>, bool)
  {
    if |store| > 0 then (store, false) else PatchAll(store, registry)
  }

  /** A second call leaves the store as the first left it. */
  lemma UpdateFormSchemaTwice(store: map<string, Value>, registry: seq<(string, map<string, Value>)>)
    ensures UpdateFormSchema(UpdateFormSchema(store, registry).0, registry).0 == UpdateFormSchema(store, registry).0
    ensures !UpdateFormSchema(UpdateFormSchema(store, registry).0, registry).1
      || UpdateFormSchema(store, registry).0 == map[]
  {
    var once := UpdateFormSchema(store, registry).0;
    if |once| == 0 {
      assert once == map[];
      assert |store| == 0 ==> store == map[];
      if |store| == 0 {
        assert UpdateFormSchema(once, registry) == PatchAll(store, registry);
      }
    }
  }

  /** The module-level `FORM_SCHEMA` store. */
  class FormSchemaStore {
    var formSchema: map<string, Value>

    constructor ()
      ensures formSchema == map[]
    {
      formSchema := map[];
    }

    /** `updateFormSchema`, with the registry's `forEach` as a loop; `threw` when a schema throws. */
    method Update(registry: seq<(string, map<string, Value>)>) returns (threw: bool)
      modifies this
      ensures (formSchema, threw) == UpdateFormSchema(old(formSchema), registry)
    {
      if |formSchema| > 0 {
        return false;
      }
      var i := 0;
      while i < |registry|
        invariant 0 <= i <= |registry|
        invariant PatchAll(old(formSchema), registry) == PatchAll(formSchema, registry[i..])
      {
        assert registry[i..][1..] == registry[i + 1..];
        var (key, schema) := registry[i];
        var patched := PatchSchema(schema);
        if patched.None? {
          formSchema := formSchema[key := Obj(schema)];
          return true;
        }
        formSchema := formSchema[key := Obj(patched.value)];
        i := i + 1;
      }
      return false;
    }
  }

  // ---------------------------------------------------------------------------
  // Enabling
  // ---------------------------------------------------------------------------

  /** Undo, redo and the layer browser: enabled iff there is a current widget and its document is editable. */
  predicate IsEnabled(current: Option<SharedDoc>)
    reads if current.Some? then {current.value} else {}
  {
    current.Some? && current.value.editable
  }

  // ---------------------------------------------------------------------------
  // Selection-driven commands
  // ---------------------------------------------------------------------------

  /** A selected entry of the layer panel: its type and the id of its DOM node. */
  datatype Selection = Selection(selectionType: Option<string>, selectedNodeId: Option<string>)

  /** The keys of a selection. */
  function Keys(selected: seq<(string, Selection)>): (r: seq<string>)
    ensures |r| == |selected| && forall i :: 0 <= i < |selected| ==> r[i] == selected[i].0
  {
    if selected == [] then [] else [selected[0].0] + Keys(selected[1..])
  }

  /** The elements of a sequence, as a set. */
  function Elements(s: seq<string>): (r: set<string>)
    ensures forall x :: x in r <==> x in s
  {
    if s == [] then {} else Elements(s[..|s| - 1]) + {s[|s| - 1]}
  }

  /** `removeLayer`: each selected key is removed from the layer store; the tree is not touched. */
  method RemoveSelectedLayers(doc: SharedDoc, selected: Option<seq<(string, Selection)>>)
    modifies doc
    ensures selected.None? ==> doc.layers == old(doc.layers)
    ensures selected.Some? ==> doc.layers == old(doc.layers) - Elements(Keys(selected.value))
    ensures doc.layerTree == old(doc.layerTree) && doc.sources == old(doc.sources) && doc.options == old(doc.options)
  {
    if selected.None? {
      return;
    }
    var keys := Keys(selected.value);
    for i := 0 to |keys|
      invariant doc.layers == old(doc.layers) - Elements(keys[..i])
      invariant doc.layerTree == old(doc.layerTree) && doc.sources == old(doc.sources) && doc.options == old(doc.options)
    {
      assert keys[..i + 1][..i] == keys[..i];
      doc.RemoveLayer(keys[i]);
    }
    assert keys[..|keys|] == keys;
  }

  /** The tree after `removeGroup`: `removeLayerGroup` for each selected entry of type `group`, in order. */
  function RemoveSelectedGroups(tree: seq<LayerItem>, selected: seq<(string, Selection)>): seq<LayerItem>
    decreases |selected|
  {
    if selected == [] then tree
    else
      var (key, sel) := selected[0];
      RemoveSelectedGroups(if sel.selectionType == Some("group") then TreeAfterRemove(tree, key) else tree, selected[1..])
  }

  /** Entries that are not groups are passed over. */
  lemma {:induction false} RemoveSelectedGroupsSkips(tree: seq<LayerItem>, selected: seq<(string, Selection)>)
    requires forall i :: 0 <= i < |selected| ==> selected[i].1.selectionType != Some("group")
    ensures RemoveSelectedGroups(tree, selected) == tree
    decreases |selected|
  {
    if selected != [] {
      RemoveSelectedGroupsSkips(tree, selected[1..]);
    }
  }

  /** A single selected group is removed as `removeLayerGroup` removes it. */
  lemma RemoveSelectedGroupsOne(tree: seq<LayerItem>, key: string, sel: Selection)
    ensures RemoveSelectedGroups(tree, [(key, sel)]) ==
      if sel.selectionType == Some("group") then TreeAfterRemove(tree, key) else tree
  {
  }

  /** `removeGroup`: nothing without a selection; otherwise each selected group is removed in turn. */
  method RemoveGroups(model: JupyterGISModel, selected: Option<seq<(string, Selection)>>)
    modifies model.sharedModel
    ensures model.sharedModel.layerTree ==
      if selected.None? then old(model.sharedModel.layerTree)
      else RemoveSelectedGroups(old(model.sharedModel.layerTree), selected.value)
    ensures model.sharedModel.layers == old(model.sharedModel.layers)
    ensures model.sharedModel.sources == old(model.sharedModel.sources)
    ensures model.sharedModel.options == old(model.sharedModel.options)
  {
    if selected.None? {
      return;
    }
    var sels := selected.value;
    var doc := model.sharedModel;
    for i := 0 to |sels|
      invariant RemoveSelectedGroups(old(doc.layerTree), sels) == RemoveSelectedGroups(doc.layerTree, sels[i..])
      invariant doc.layers == old(doc.layers) && doc.sources == old(doc.sources) && doc.options == old(doc.options)
    {
      assert sels[i..][1..] == sels[i + 1..];
      var (key, sel) := sels[i];
      if sel.selectionType == Some("group") {
        model.RemoveLayerGroup(key);
      }
    }
  }

  /** JavaScript's white space and line terminators, which `trim` removes. */
  predicate IsWhiteSpace(c: char) {
    var n := c as int;
    n == 0x09 || n == 0x0A || n == 0x0B || n == 0x0C || n == 0x0D || n == 0x20 || n == 0xA0 || n == 0x1680
    || (0x2000 <= n <= 0x200A) || n == 0x2028 || n == 0x2029 || n == 0x202F || n == 0x205F || n == 0x3000
    || n == 0xFEFF
  }

  /** `s.trim() === ''`. */
  predicate Blank(s: string) {
    forall i :: 0 <= i < |s| ==> IsWhiteSpace(s[i])
  }

  /**
   * The name the user types for a selected entry: None when the entry has no
   * node id or its node is not in the page (both skipped); otherwise the
   * node's text, the original name, and the answer.
   */
  datatype Prompted = Prompted(originalName: string, newName: string)

  function Prompt(sel: Selection, nodes: map<string, string>, answer: string -> string): Option<Prompted> {
    match sel.selectedNodeId
    case None => None
    case Some(nodeId) =>
      if nodeId == "" || nodeId !in nodes then None else Some(Prompted(nodes[nodeId], answer(nodeId)))
  }

  /** Whether a prompt leads to a rename: a non-blank answer that differs from the original name. */
  predicate Renames(p: Option<Prompted>) {
    p.Some? && !Blank(p.value.newName) && p.value.newName != p.value.originalName
  }

  /** One step of `renameLayer`: an existing layer whose prompt renames it gets the new name. */
  function RenameLayerStep(layers: map<string, Layer>, key: string, p: Option<Prompted>): map<string, Layer> {
    if key in layers && Renames(p) then layers[key := layers[key].(name := p.value.newName)] else layers
  }

  /** The layers after `renameLayer` over the selection, in order. */
  function RenameSelectedLayers(layers: map<string, Layer>, selected: seq<(string, Selection)>,
                                nodes: map<string, string>, answer: string -> string): map<string, Layer>
    decreases |selected|
  {
    if selected == [] then layers
    else
      var (key, sel) := selected[0];
      RenameSelectedLayers(RenameLayerStep(layers, key, Prompt(sel, nodes, answer)), selected[1..], nodes, answer)
  }

  /**
   * Renaming layers keeps the set of layers and changes nothing but names:
   * every other field of every layer stays.
   */
  lemma {:induction false} RenameSelectedLayersOnlyNames(layers: map<string, Layer>, selected: seq<(string, Selection)>,
                                                         nodes: map<string, string>, answer: string -> string)
    ensures var r := RenameSelectedLayers(layers, selected, nodes, answer);
      && r.Keys == layers.Keys
      && forall k :: k in r ==> r[k] == layers[k].(name := r[k].name)
    decreases |selected|
  {
    if selected != [] {
      var (key, sel) := selected[0];
      var next := RenameLayerStep(layers, key, Prompt(sel, nodes, answer));
      RenameSelectedLayersOnlyNames(next, selected[1..], nodes, answer);
    }
  }

  /** A layer that is not selected keeps its name. */
  lemma {:induction false} RenameSelectedLayersUnselected(layers: map<string, Layer>, selected: seq<(string, Selection)>,
                                                          nodes: map<string, string>, answer: string -> string, k: string)
    requires k in layers
    requires forall i :: 0 <= i < |selected| ==> selected[i].0 != k
    ensures k in RenameSelectedLayers(layers, selected, nodes, answer)
    ensures RenameSelectedLayers(layers, selected, nodes, answer)[k] == layers[k]
    decreases |selected|
  {
    if selected != [] {
      var (key, sel) := selected[0];
      var next := RenameLayerStep(layers, key, Prompt(sel, nodes, answer));
      assert next[k] == layers[k];
      RenameSelectedLayersUnselected(next, selected[1..], nodes, answer, k);
    }
  }

  /** `renameLayer`: nothing without a selection; otherwise each selected layer is renamed as its prompt says. */
  method RenameLayers(doc: SharedDoc, selected: Option<seq<(string, Selection)>>,
                      nodes: map<string, string>, answer: string -> string)
    modifies doc
    ensures doc.layers ==
      if selected.None? then old(doc.layers) else RenameSelectedLayers(old(doc.layers), selected.value, nodes, answer)
    ensures doc.layerTree == old(doc.layerTree) && doc.sources == old(doc.sources) && doc.options == old(doc.options)
  {
    if selected.None? {
      return;
    }
    var sels := selected.value;
    for i := 0 to |sels|
      invariant RenameSelectedLayers(old(doc.layers), sels, nodes, answer)
        == RenameSelectedLayers(doc.layers, sels[i..], nodes, answer)
      invariant doc.layerTree == old(doc.layerTree) && doc.sources == old(doc.sources) && doc.options == old(doc.options)
    {
      assert sels[i..][1..] == sels[i + 1..];
      var (layerId, sel) := sels[i];
      var layer := doc.GetLayer(layerId);
      var nodeId := sel.selectedNodeId;
      if layer.None? || nodeId.None? || nodeId.value == "" {
        continue;
      }
      if nodeId.value !in nodes {
        continue;
      }
      var originalName := nodes[nodeId.value];
      var newName := answer(nodeId.value);
      if Blank(newName) {
        continue;
      }
      if newName != originalName {
        doc.UpdateLayer(layerId, layer.value.(name := newName));
      }
    }
  }

  /** The tree after `renameGroup` over the selection, in order. */
  function RenameSelectedGroups(tree: seq<LayerItem>, selected: seq<(string, Selection)>,
                                nodes: map<string, string>, answer: string -> string): seq<LayerItem>
    decreases |selected|
  {
    if selected == [] then tree
    else
      var (key, sel) := selected[0];
      var p := Prompt(sel, nodes, answer);
      RenameSelectedGroups(if Renames(p) then TreeAfterRename(tree, key, p.value.newName) else tree,
        selected[1..], nodes, answer)
  }

  /** Renaming groups never changes the render order of the layers. */
  lemma {:induction false} RenameSelectedGroupsFlatten(tree: seq<LayerItem>, selected: seq<(string, Selection)>,
                                                       nodes: map<string, string>, answer: string -> string)
    ensures Flatten(RenameSelectedGroups(tree, selected, nodes, answer)) == Flatten(tree)
    decreases |selected|
  {
    if selected != [] {
      var (key, sel) := selected[0];
      var p := Prompt(sel, nodes, answer);
      var next := if Renames(p) then TreeAfterRename(tree, key, p.value.newName) else tree;
      if Renames(p) {
        RenameSpec(tree, key, p.value.newName);
      }
      RenameSelectedGroupsFlatten(next, selected[1..], nodes, answer);
    }
  }

  /** A blank answer renames nothing. */
  lemma BlankAnswerSkips(tree: seq<LayerItem>, key: string, sel: Selection, nodes: map<string, string>, answer: string -> string)
    requires sel.selectedNodeId.Some? && Blank(answer(sel.selectedNodeId.value))
    ensures RenameSelectedGroups(tree, [(key, sel)], nodes, answer) == tree
  {
  }

  /** `renameGroup`: nothing without a selection; otherwise each selected group is renamed as its prompt says. */
  method RenameGroups(model: JupyterGISModel, selected: Option<seq<(string, Selection)>>,
                      nodes: map<string, string>, answer: string -> string)
    modifies model.sharedModel
    ensures model.sharedModel.layerTree ==
      if selected.None? then old(model.sharedModel.layerTree)
      else RenameSelectedGroups(old(model.sharedModel.layerTree), selected.value, nodes, answer)
    ensures model.sharedModel.layers == old(model.sharedModel.layers)
    ensures model.sharedModel.sources == old(model.sharedModel.sources)
    ensures model.sharedModel.options == old(model.sharedModel.options)
  {
    if selected.None? {
      return;
    }
    var sels := selected.value;
    var doc := model.sharedModel;
    for i := 0 to |sels|
      invariant RenameSelectedGroups(old(doc.layerTree), sels, nodes, answer)
        == RenameSelectedGroups(doc.layerTree, sels[i..], nodes, answer)
      invariant doc.layers == old(doc.layers) && doc.sources == old(doc.sources) && doc.options == old(doc.options)
    {
      assert sels[i..][1..] == sels[i + 1..];
      var (selection, sel) := sels[i];
      var nodeId := sel.selectedNodeId;
      if nodeId.None? || nodeId.value == "" {
        continue;
      }
      if nodeId.value !in nodes {
        continue;
      }
      var originalName := nodes[nodeId.value];
      var newName := answer(nodeId.value);
      if Blank(newName) {
        continue;
      }
      if newName != originalName {
        model.RenameLayerGroup(selection, newName);
      }
    }
  }
}
