/**
 * The colour-expression dialog: reads the stop rows of the selected layer's
 * colour expression, lets rows be appended, and writes back an
 * `interpolate` expression over the NDVI of bands 2 and 1.
 */
module ColorExpressionDialog {
  import opened Wrappers
  import opened Json
  import opened StyleExpr
  import opened SharedDocument
  import opened SingleBandPseudoColor

  /** `['/', ['-', nir, red], ['+', nir, red]]` with `nir = ['band', 2]` and `red = ['band', 1]`. */
  function Ndvi(): Value {
    var nir := Arr([Str("band"), Num(2.0)]);
    var red := Arr([Str("band"), Num(1.0)]);
    Arr([Str("/"), Arr([Str("-"), nir, red]), Arr([Str("+"), nir, red])])
  }

  /**
   * The rows the parse step sets for the selected layer; None when it leaves
   * the rows as they were (no layer, a falsy colour, a string colour).
   */
  function ReadStopRows(layer: Option<Layer>): Option<seq<StopRow>> {
    match layer
    case None => None
    case Some(l) =>
      var color := OptProp(l.parameters, "color");
      if !Truthy(color) || color.Str? then None else Some(InterpolateRows(color, 3))
  }

  /** The parse step run when the selected layer changes. */
  method ParseSelectedLayer(doc: SharedDoc, selectedLayer: string) returns (rows: Option<seq<StopRow>>)
    ensures rows == ReadStopRows(doc.GetLayer(selectedLayer))
  {
    var layer := doc.GetLayer(selectedLayer);
    if layer.None? {
      return None;
    }
    var color := OptProp(layer.value.parameters, "color");
    if !Truthy(color) {
      return None;
    }
    if color.Str? {
      return None;
    }
    var pairedObjects: seq<StopRow> := [];
    var i := 3;
    while i < Len(color)
      invariant i >= 3
      invariant InterpolateRows(color, 3) == pairedObjects + InterpolateRows(color, i)
      decreases Len(color) - i
    {
      pairedObjects := pairedObjects + [StopRow(At(color, i), At(color, i + 1))];
      i := i + 2;
    }
    assert InterpolateRows(color, i) == [];
    assert pairedObjects == InterpolateRows(color, 3);
    assert ReadStopRows(layer) == Some(InterpolateRows(color, 3));
    return Some(pairedObjects);
  }

  /** The expression `handleOk` writes: `[fn, ['linear'], ndvi, v1, c1, v2, c2, ...]`. */
  function ExpressionOf(selectedFunction: string, rows: seq<StopRow>): Value {
    Arr([Str(selectedFunction), Arr([Str("linear")]), Ndvi()] + Interleave(LinearPairs(rows)))
  }

  /**
   * `handleOk`: the layer is looked up under `selectedLayer` and, when it
   * exists with parameters, written back with the new colour under
   * `selectedLayerRef`, after which the dialog closes.
   */
  method HandleOk(doc: SharedDoc, selectedLayer: string, selectedLayerRef: string, selectedFunction: string, rows: seq<StopRow>)
    returns (closed: bool)
    modifies doc
    ensures closed == (selectedLayer in old(doc.layers) && Truthy(old(doc.layers)[selectedLayer].parameters))
    ensures doc.layers == if closed
      then
        var layer := old(doc.layers)[selectedLayer];
        old(doc.layers)[selectedLayerRef := layer.(parameters := SetProp(layer.parameters, "color", ExpressionOf(selectedFunction, rows)))]
      else old(doc.layers)
    ensures doc.sources == old(doc.sources) && doc.layerTree == old(doc.layerTree) && doc.options == old(doc.options)
    ensures doc.editable == old(doc.editable) && doc.isDisposed == old(doc.isDisposed)
  {
    var layer := doc.GetLayer(selectedLayer);
    if layer.None? || !Truthy(layer.value.parameters) {
      return false;
    }
    var items := PushStops([Str(selectedFunction), Arr([Str("linear")]), Ndvi()], rows);
    var l := layer.value;
    doc.UpdateLayer(selectedLayerRef, l.(parameters := SetProp(l.parameters, "color", Arr(items))));
    return true;
  }

  /** Reading back the expression written into an object of parameters gives the rows that were written. */
  lemma ReadAfterOk(layer: Layer, selectedFunction: string, rows: seq<StopRow>)
    requires layer.parameters.Obj?
    ensures ReadStopRows(Some(layer.(parameters := SetProp(layer.parameters, "color", ExpressionOf(selectedFunction, rows)))))
      == Some(rows)
  {
    InterpolateRowsOfInterleave([Str(selectedFunction), Arr([Str("linear")]), Ndvi()], rows);
  }

  /** `addStopRow`: a black row at value 0 goes last. */
  function AddStopRow(rows: seq<StopRow>): (r: seq<StopRow>)
    ensures |r| == |rows| + 1 && r[..|rows|] == rows && r[|rows|] == StopRow(Num(0.0), Black())
  {
    rows + [StopRow(Num(0.0), Black())]
  }

  /** Writing after an added row writes the previous expression followed by `0, [0, 0, 0]`. */
  lemma ExpressionAfterAdd(selectedFunction: string, rows: seq<StopRow>)
    ensures ExpressionOf(selectedFunction, AddStopRow(rows)).items ==
      ExpressionOf(selectedFunction, rows).items + [Num(0.0), Black()]
  {
    var r := AddStopRow(rows);
    assert r[..|rows|] == rows;
    LinearPairsSnoc(r, |rows|);
    assert r[..|rows| + 1] == r;
    InterleaveSnoc(LinearPairs(rows), (Num(0.0), Black()));
  }

  /** What the dialog does when it is resolved with a button index. */
  datatype DialogAction = Close | EmitOk | Ignore

  /** `ZoomColorWidget.resolve`: 0 closes the dialog, 1 emits the ok signal, anything else does nothing. */
  function Resolve(index: Option<int>): (action: DialogAction)
    ensures action == Close <==> index == Some(0)
    ensures action == EmitOk <==> index == Some(1)
  {
    if index == Some(0) then Close
    else if index == Some(1) then EmitOk
    else Ignore
  }
}
