/**
 * The shared JupyterGIS document, as a plain sequential store: a layer map,
 * a source map, the layer tree and the map options. Replication, change
 * events and awareness are not part of this model.
 */
module SharedDocument {
  import opened Wrappers
  import opened Json
  import opened LayerTree
  import JsArray

  /** A layer record: its type tag, display name, visibility and parameter object. */
  datatype Layer = Layer(layerType: string, name: string, visible: bool, parameters: Value)

  /** A source record: its type tag, display name and parameter object. */
  datatype Source = Source(sourceType: string, name: string, parameters: Value)

  /** The whole content of a document, as `getContent` hands it out. */
  datatype Content = Content(
    sources: map<string, Source>,
    layers: map<string, Layer>,
    layerTree: seq<LayerItem>,
    options: map<string, Value>)

  class SharedDoc {
    var layers: map<string, Layer>
    var sources: map<string, Source>
    var layerTree: seq<LayerItem>
    var options: map<string, Value>
    var editable: bool
    var isDisposed: bool

    constructor (editable: bool)
      ensures layers == map[] && sources == map[] && layerTree == [] && options == map[]
      ensures this.editable == editable && !isDisposed
    {
      layers := map[];
      sources := map[];
      layerTree := [];
      options := map[];
      this.editable := editable;
      isDisposed := false;
    }

    /** `getLayer`: the record under `id`, if any. */
    function GetLayer(id: string): (r: Option<Layer>)
      reads this
      ensures r.Some? <==> id in layers
      ensures r.Some? ==> r.value == layers[id]
    {
      if id in layers then Some(layers[id]) else None
    }

    /** `getSource`: the record under `id`, if any. */
    function GetSource(id: string): (r: Option<Source>)
      reads this
      ensures r.Some? <==> id in sources
      ensures r.Some? ==> r.value == sources[id]
    {
      if id in sources then Some(sources[id]) else None
    }

    /** `addLayer`: stores `value` under `id`. */
    method AddLayer(id: string, value: Layer)
      modifies this
      ensures layers == old(layers)[id := value]
      ensures sources == old(sources) && layerTree == old(layerTree) && options == old(options)
      ensures editable == old(editable) && isDisposed == old(isDisposed)
    {
      layers := layers[id := value];
    }

    /** `removeLayer`: forgets the record under `id`. */
    method RemoveLayer(id: string)
      modifies this
      ensures layers == old(layers) - {id}
      ensures sources == old(sources) && layerTree == old(layerTree) && options == old(options)
      ensures editable == old(editable) && isDisposed == old(isDisposed)
    {
      layers := layers - {id};
    }

    /** `updateLayer`: replaces the record under `id`. */
    method UpdateLayer(id: string, value: Layer)
      modifies this
      ensures layers == old(layers)[id := value]
      ensures sources == old(sources) && layerTree == old(layerTree) && options == old(options)
      ensures editable == old(editable) && isDisposed == old(isDisposed)
    {
      layers := layers[id := value];
    }

    /** `addLayerTreeItem`: inserts `item` at `index`, clamped as by `Array.prototype.splice`. */
    method AddLayerTreeItem(index: int, item: LayerItem)
      modifies this
      ensures layerTree == JsArray.Insert(old(layerTree), index, item)
      ensures layers == old(layers) && sources == old(sources) && options == old(options)
      ensures editable == old(editable) && isDisposed == old(isDisposed)
    {
      layerTree := JsArray.Insert(layerTree, index, item);
    }

    /**
     * `updateLayerTreeItem`: replaces top-level slot `index` by `item`; an
     * index outside the tree or an undefined item writes nothing.
     */
    method UpdateLayerTreeItem(index: int, item: Option<LayerItem>)
      modifies this
      ensures layerTree == WriteSlot(old(layerTree), index, item)
      ensures layers == old(layers) && sources == old(sources) && options == old(options)
      ensures editable == old(editable) && isDisposed == old(isDisposed)
    {
      layerTree := WriteSlot(layerTree, index, item);
    }

    /** Assigns the whole layer tree. */
    method SetLayerTree(tree: seq<LayerItem>)
      modifies this
      ensures layerTree == tree
      ensures layers == old(layers) && sources == old(sources) && options == old(options)
      ensures editable == old(editable) && isDisposed == old(isDisposed)
    {
      layerTree := tree;
    }

    /** Replaces the whole content in one transaction. */
    method SetContent(c: Content)
      modifies this
      ensures sources == c.sources && layers == c.layers
      ensures layerTree == c.layerTree && options == c.options
      ensures editable == old(editable) && isDisposed == old(isDisposed)
    {
      sources := c.sources;
      layers := c.layers;
      layerTree := c.layerTree;
      options := c.options;
    }

    method Dispose()
      modifies this
      ensures isDisposed
      ensures layers == old(layers) && sources == old(sources)
      ensures layerTree == old(layerTree) && options == old(options) && editable == old(editable)
    {
      isDisposed := true;
    }
  }

  /** The top-level list after `updateLayerTreeItem(index, item)`. */
  function WriteSlot(tree: seq<LayerItem>, index: int, item: Option<LayerItem>): (r: seq<LayerItem>)
    ensures |r| == |tree|
    ensures forall j :: 0 <= j < |tree| && j != index ==> r[j] == tree[j]
    ensures 0 <= index < |tree| ==> r[index] == item.GetOr(tree[index])
    ensures (index < 0 || index >= |tree| || item.None?) ==> r == tree
  {
    if 0 <= index < |tree| && item.Some? then tree[index := item.value] else tree
  }
}
