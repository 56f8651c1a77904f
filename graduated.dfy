/**
 * The graduated symbology of a vector layer: one feature property is mapped
 * through `interpolate` stops onto the fill, stroke or circle colour, or onto
 * the circle radius; the dialog's choices are kept in the state database.
 */
module Graduated {
  import opened Wrappers
  import opened Json
  import opened StyleExpr
  import opened SharedDocument
  import opened VectorUtils

  /** The state database the dialog saves its choices in, keyed by string. */
  class StateDb {
    var entries: map<string, Value>

    constructor ()
      ensures entries == map[]
    {
      entries := map[];
    }

    /** `fetch`: the value under `key`, undefined when there is none. */
    function Fetch(key: string): (v: Value)
      reads this
      ensures key in entries ==> v == entries[key]
      ensures key !in entries ==> v == Undefined
    {
      if key in entries then entries[key] else Undefined
    }

    /** `save`: stores `value` under `key`. */
    method Save(key: string, value: Value)
      modifies this
      ensures entries == old(entries)[key := value]
    {
      entries := entries[key := value];
    }
  }

  /** The state key of a layer, `jupytergis:<layerId>`. */
  function StateKey(layerId: string): string {
    "jupytergis:" + layerId
  }

  /** The saved state: the previous state spread, then the render type and the two choices. */
  function SavedState(layerState: Value, selectedValue: Value, selectedMethod: Value): (r: Value)
    ensures r.Obj?
    ensures Prop(r, "renderType") == Str("Graduated")
    ensures Prop(r, "graduatedValue") == selectedValue && Prop(r, "graduatedMethod") == selectedMethod
    ensures forall k :: k in SpreadEntries(layerState) && k !in {"renderType", "graduatedValue", "graduatedMethod"} ==>
      Prop(r, k) == SpreadEntries(layerState)[k]
  {
    Obj(SpreadEntries(layerState)["renderType" := Str("Graduated")]
      ["graduatedValue" := selectedValue]["graduatedMethod" := selectedMethod])
  }

  /** The method choices: circle layers add `radius` to whatever was offered. */
  function MethodOptions(parameters: Value, current: seq<string>): (r: seq<string>)
    ensures OptProp(parameters, "type") == Str("circle") ==> r == ["color", "radius"]
    ensures OptProp(parameters, "type") != Str("circle") ==> r == current
  {
    if OptProp(parameters, "type") == Str("circle") then ["color", "radius"] else current
  }

  /**
   * `populateOptions`: the saved value and method when a state was saved and
   * they are truthy; otherwise the first feature property and `color`.
   */
  function InitialSelection(layerState: Value, featureKeys: seq<string>): (selection: (Value, Value)) {
    var savedValue := if Truthy(layerState) then Prop(layerState, "graduatedValue") else Undefined;
    var savedMethod := if Truthy(layerState) then Prop(layerState, "graduatedMethod") else Undefined;
    (if Truthy(savedValue) then savedValue else if |featureKeys| > 0 then Str(featureKeys[0]) else Undefined,
     if Truthy(savedMethod) then savedMethod else Str("color"))
  }

  /** Re-opening the dialog after a save restores the choices, when they were truthy. */
  lemma SelectionRestored(layerState: Value, selectedValue: Value, selectedMethod: Value, featureKeys: seq<string>)
    ensures var (v, m) := InitialSelection(SavedState(layerState, selectedValue, selectedMethod), featureKeys);
      && (Truthy(selectedValue) ==> v == selectedValue)
      && (!Truthy(selectedValue) && |featureKeys| > 0 ==> v == Str(featureKeys[0]))
      && m == if Truthy(selectedMethod) then selectedMethod else Str("color")
  {
  }

  /** Without a saved state the dialog starts from the first feature property and `color`. */
  lemma SelectionWithoutState(featureKeys: seq<string>)
    requires |featureKeys| > 0
    ensures InitialSelection(Undefined, featureKeys) == (Str(featureKeys[0]), Str("color"))
  {
  }

  /** `['interpolate', ['linear'], ['get', value], s1, o1, s2, o2, ...]`. */
  function GraduatedExpression(selectedValue: Value, rows: seq<VectorStopRow>): Value {
    Arr([Str("interpolate"), Arr([Str("linear")]), Arr([Str("get"), selectedValue])] + Interleave(FromRows(rows)))
  }

  /**
   * The style key the expression goes to: with `color`, the fill, stroke or
   * circle fill by layer type; with `radius`, the circle radius of a circle
   * layer; otherwise none.
   */
  function StyleKey(selectedMethod: Value, layerType: Value): (key: Option<string>)
    ensures key.Some? <==>
      (selectedMethod == Str("color") && layerType in {Str("fill"), Str("line"), Str("circle")})
      || (selectedMethod == Str("radius") && layerType == Str("circle"))
    ensures selectedMethod == Str("color") && layerType == Str("circle") ==> key == Some("circle-fill-color")
    ensures selectedMethod == Str("color") && layerType == Str("fill") ==> key == Some("fill-color")
    ensures selectedMethod == Str("color") && layerType == Str("line") ==> key == Some("stroke-color")
    ensures selectedMethod == Str("radius") && layerType == Str("circle") ==> key == Some("circle-radius")
  {
    if selectedMethod == Str("color") then
      if layerType == Str("fill") then Some("fill-color")
      else if layerType == Str("line") then Some("stroke-color")
      else if layerType == Str("circle") then Some("circle-fill-color")
      else None
    else if selectedMethod == Str("radius") && layerType == Str("circle") then Some("circle-radius")
    else None
  }

  /** The new style: the old colour object spread, with the chosen key set to the expression. */
  function NewStyle(color: Value, key: Option<string>, expr: Value): (style: Value)
    ensures style.Obj?
    ensures key.Some? ==> Prop(style, key.value) == expr
    ensures forall k :: k in SpreadEntries(color) && key != Some(k) ==> Prop(style, k) == SpreadEntries(color)[k]
    ensures forall k :: k !in SpreadEntries(color) && key != Some(k) ==> Prop(style, k) == Undefined
  {
    match key
    case None => Obj(SpreadEntries(color))
    case Some(k) => Obj(SpreadEntries(color)[k := expr])
  }

  /** The layer `handleOk` writes. */
  function GraduatedLayer(layer: Layer, selectedValue: Value, selectedMethod: Value, rows: seq<VectorStopRow>): Layer {
    var p := layer.parameters;
    var key := StyleKey(selectedMethod, Prop(p, "type"));
    layer.(parameters := SetProp(p, "color", NewStyle(Prop(p, "color"), key, GraduatedExpression(selectedValue, rows))))
  }

  lemma FromRowsSnoc(rows: seq<VectorStopRow>, j: nat)
    requires j < |rows|
    ensures FromRows(rows[..j + 1]) == FromRows(rows[..j]) + [(rows[j].stop, rows[j].output)]
  {
    assert |FromRows(rows[..j + 1])| == j + 1;
  }

  /** The expression builder of `handleOk`, pushing each stop and then its output. */
  method BuildExpression(selectedValue: Value, stopRows: seq<VectorStopRow>) returns (colorExpr: Value)
    ensures colorExpr == GraduatedExpression(selectedValue, stopRows)
  {
    var header := [Str("interpolate"), Arr([Str("linear")]), Arr([Str("get"), selectedValue])];
    var items := header;
    for j := 0 to |stopRows|
      invariant items == header + Interleave(FromRows(stopRows[..j]))
    {
      FromRowsSnoc(stopRows, j);
      InterleaveSnoc(FromRows(stopRows[..j]), (stopRows[j].stop, stopRows[j].output));
      items := items + [stopRows[j].stop];
      items := items + [stopRows[j].output];
    }
    assert stopRows[..|stopRows|] == stopRows;
    colorExpr := Arr(items);
  }

  /**
   * `handleOk`: a layer without parameters is left alone; otherwise the
   * choices are saved under the layer's state key, the expression is built
   * and put under the chosen style key, the layer is written and the dialog
   * closes.
   */
  method HandleOk(doc: SharedDoc, db: StateDb, layerId: string, layer: Layer, layerState: Value,
                  selectedValue: Value, selectedMethod: Value, stopRows: seq<VectorStopRow>)
    returns (closed: bool)
    modifies doc, db
    ensures closed == Truthy(layer.parameters)
    ensures db.entries == if closed
      then old(db.entries)[StateKey(layerId) := SavedState(layerState, selectedValue, selectedMethod)]
      else old(db.entries)
    ensures doc.layers == if closed
      then old(doc.layers)[layerId := GraduatedLayer(layer, selectedValue, selectedMethod, stopRows)]
      else old(doc.layers)
    ensures doc.sources == old(doc.sources) && doc.layerTree == old(doc.layerTree) && doc.options == old(doc.options)
    ensures doc.editable == old(doc.editable) && doc.isDisposed == old(doc.isDisposed)
  {
    if !Truthy(layer.parameters) {
      return false;
    }
    db.Save(StateKey(layerId), SavedState(layerState, selectedValue, selectedMethod));
    var colorExpr := BuildExpression(selectedValue, stopRows);
    var p := layer.parameters;
    var newStyle := NewStyle(Prop(p, "color"), StyleKey(selectedMethod, Prop(p, "type")), colorExpr);
    doc.UpdateLayer(layerId, layer.(parameters := SetProp(p, "color", newStyle)));
    return true;
  }

  /**
   * Reading the stops back from a fill or circle layer written with the
   * colour method gives exactly the rows that were written.
   */
  lemma ColorRowsReadBack(layer: Layer, selectedValue: Value, rows: seq<VectorStopRow>)
    requires layer.parameters.Obj?
    requires Prop(layer.parameters, "type") in {Str("fill"), Str("circle")}
    ensures ColorInfo(GraduatedLayer(layer, selectedValue, Str("color"), rows).parameters) == rows
  {
    var p := layer.parameters;
    var q := GraduatedLayer(layer, selectedValue, Str("color"), rows).parameters;
    assert Prop(q, "type") == Prop(p, "type");
    assert FillColorKey(q) == StyleKey(Str("color"), Prop(p, "type")).value;
    ColorInfoReadsBack(q, [Str("interpolate"), Arr([Str("linear")]), Arr([Str("get"), selectedValue])], rows);
  }

  /**
   * A line layer's stops go to `stroke-color`, which the reader does not look
   * at: reading back gives the rows of the `fill-color` entry already in the
   * style, whatever was written.
   */
  lemma LineRowsNotReadBack(layer: Layer, selectedValue: Value, rows: seq<VectorStopRow>)
    requires layer.parameters.Obj?
    requires Prop(layer.parameters, "type") == Str("line")
    ensures ColorInfo(GraduatedLayer(layer, selectedValue, Str("color"), rows).parameters) ==
      ColorInfo(SetProp(layer.parameters, "color", Obj(SpreadEntries(Prop(layer.parameters, "color")))))
  {
    var p := layer.parameters;
    var c := Prop(p, "color");
    var expr := GraduatedExpression(selectedValue, rows);
    assert StyleKey(Str("color"), Str("line")) == Some("stroke-color");
    StrokeStyleKeepsFill(c, expr);
    ColorInfoSameFill(GraduatedLayer(layer, selectedValue, Str("color"), rows).parameters,
      SetProp(p, "color", Obj(SpreadEntries(c))));
  }

  /** Setting `stroke-color` leaves the spread `fill-color` entry as it was. */
  lemma StrokeStyleKeepsFill(c: Value, expr: Value)
    ensures Prop(NewStyle(c, Some("stroke-color"), expr), "fill-color") == Prop(Obj(SpreadEntries(c)), "fill-color")
  {
  }

  // ---------------------------------------------------------------------------
  // Classification
  // ---------------------------------------------------------------------------

  datatype Mode = Quantile | EqualInterval | Jenks | Pretty | Logarithmic

  /** The classification modes the dialog offers, by their labels. */
  function ModeOf(modeName: string): (m: Option<Mode>)
    ensures m.Some? <==> modeName in {"quantile", "equal interval", "jenks", "pretty", "logarithmic"}
    ensures m == Some(Quantile) <==> modeName == "quantile"
    ensures m == Some(EqualInterval) <==> modeName == "equal interval"
    ensures m == Some(Jenks) <==> modeName == "jenks"
    ensures m == Some(Pretty) <==> modeName == "pretty"
    ensures m == Some(Logarithmic) <==> modeName == "logarithmic"
  {
    if modeName == "quantile" then Some(Quantile)
    else if modeName == "equal interval" then Some(EqualInterval)
    else if modeName == "jenks" then Some(Jenks)
    else if modeName == "pretty" then Some(Pretty)
    else if modeName == "logarithmic" then Some(Logarithmic)
    else None
  }

  /** What `buildColorInfoFromClassification` does to the stop rows. */
  datatype Classification =
    | ClassifyThrew                          // `Array.from(undefined)`: the property has no values
    | NoModeSelected                         // an unknown mode: the rows stay as they were
    | Classified(rows: seq<VectorStopRow>)   // the rows are set to these

  /**
   * `buildColorInfoFromClassification`: the property's values are read
   * before the mode is looked at, so a property with no entry throws for
   * every mode; otherwise the breaks of the chosen mode over the values,
   * paired with the ramp's colours, or no change for an unknown mode. The
   * break computations and the ramp are given as functions.
   */
  function ClassifiedRows(
    modeName: string, featureProps: map<string, seq<Value>>, selectedValue: string, shades: int, ramp: string,
    breaks: (Mode, seq<Value>, int) -> seq<real>,
    valueColorPairs: (seq<real>, string, int) -> seq<VectorStopRow>): (c: Classification)
    ensures c.ClassifyThrew? <==> selectedValue !in featureProps
    ensures c.NoModeSelected? <==> selectedValue in featureProps && ModeOf(modeName).None?
    ensures c.Classified? ==>
      c.rows == valueColorPairs(breaks(ModeOf(modeName).value, featureProps[selectedValue], shades), ramp, shades)
  {
    if selectedValue !in featureProps then ClassifyThrew
    else
      var values := featureProps[selectedValue];
      match ModeOf(modeName)
      case None => NoModeSelected
      case Some(m) => Classified(valueColorPairs(breaks(m, values, shades), ramp, shades))
  }
}
