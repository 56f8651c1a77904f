/**
 * `VectorUtils.buildColorInfo`: reads the stop rows of a vector layer's fill
 * colour expression back out of its style object.
 */
module VectorUtils {
  import opened Json
  import opened StyleExpr
  import opened SharedDocument

  /** A stop row of a vector style: the stop value and the output it maps to. */
  datatype VectorStopRow = VectorStopRow(stop: Value, output: Value)

  function ToRows(pairs: seq<(Value, Value)>): (rows: seq<VectorStopRow>)
    ensures |rows| == |pairs|
    ensures forall j :: 0 <= j < |pairs| ==> rows[j] == VectorStopRow(pairs[j].0, pairs[j].1)
  {
    if pairs == [] then [] else [VectorStopRow(pairs[0].0, pairs[0].1)] + ToRows(pairs[1..])
  }

  function FromRows(rows: seq<VectorStopRow>): (pairs: seq<(Value, Value)>)
    ensures |pairs| == |rows|
    ensures forall j :: 0 <= j < |rows| ==> pairs[j] == (rows[j].stop, rows[j].output)
  {
    if rows == [] then [] else [(rows[0].stop, rows[0].output)] + FromRows(rows[1..])
  }

  lemma ToRowsFromRows(rows: seq<VectorStopRow>)
    ensures ToRows(FromRows(rows)) == rows
  {
    assert |ToRows(FromRows(rows))| == |rows|;
  }

  /** The style key holding the fill colour: `circle-fill-color` for circle layers. */
  function FillColorKey(parameters: Value): (key: string)
    ensures key == (if Prop(parameters, "type") == Str("circle") then "circle-fill-color" else "fill-color")
  {
    (if Prop(parameters, "type") == Str("circle") then "circle-" else "") + "fill-color"
  }

  /** The stop rows `buildColorInfo` returns for a layer with these parameters. */
  function ColorInfo(parameters: Value): seq<VectorStopRow> {
    var color := OptProp(parameters, "color");
    if !Truthy(color) || color.Str? then []
    else
      var expr := Prop(color, FillColorKey(parameters));
      if !Truthy(expr) || At(expr, 0) != Str("interpolate") then []
      else RowsFrom(expr, 3)
  }

  /** Two parameter objects of the same type whose colour objects agree on the fill-colour entry read the same rows. */
  lemma ColorInfoSameFill(p1: Value, p2: Value)
    requires OptProp(p1, "color").Obj? && OptProp(p2, "color").Obj?
    requires Prop(p1, "type") == Prop(p2, "type")
    requires Prop(OptProp(p1, "color"), FillColorKey(p1)) == Prop(OptProp(p2, "color"), FillColorKey(p2))
    ensures ColorInfo(p1) == ColorInfo(p2)
  {
  }

  /** The rows `(e[i], e[i + 1])` for `i = from, from + 2, ...` while `i < e.length`. */
  function RowsFrom(e: Value, from: nat): seq<VectorStopRow>
    decreases Len(e) - from
  {
    if from < Len(e) then [VectorStopRow(At(e, from), At(e, from + 1))] + RowsFrom(e, from + 2) else []
  }

  /** The rows are the generic stop/output pairs. */
  lemma {:induction false} RowsFromPairs(e: Value, from: nat)
    ensures RowsFrom(e, from) == ToRows(Pairs(e, from))
    decreases Len(e) - from
  {
    if from < Len(e) {
      RowsFromPairs(e, from + 2);
      ToRowsAppend([(At(e, from), At(e, from + 1))], Pairs(e, from + 2));
    }
  }

  /**
   * `buildColorInfo`: no colour, a string colour, a missing fill-colour entry
   * or a head other than `interpolate` give no rows; otherwise the rows are
   * the pairs from index 3 on.
   */
  method BuildColorInfo(layer: Layer) returns (valueColorPairs: seq<VectorStopRow>)
    ensures valueColorPairs == ColorInfo(layer.parameters)
  {
    var color := OptProp(layer.parameters, "color");
    if !Truthy(color) {
      return [];
    }
    if color.Str? {
      return [];
    }
    var prefix := if Prop(layer.parameters, "type") == Str("circle") then "circle-" else "";
    var expr := Prop(color, prefix + "fill-color");
    assert prefix + "fill-color" == FillColorKey(layer.parameters);
    if !Truthy(expr) {
      return [];
    }
    valueColorPairs := [];
    if At(expr, 0) == Str("interpolate") {
      var i := 3;
      while i < Len(expr)
        invariant i >= 3
        invariant RowsFrom(expr, 3) == valueColorPairs + RowsFrom(expr, i)
        decreases Len(expr) - i
      {
        valueColorPairs := valueColorPairs + [VectorStopRow(At(expr, i), At(expr, i + 1))];
        i := i + 2;
      }
    }
  }

  lemma {:induction false} ToRowsAppend(a: seq<(Value, Value)>, b: seq<(Value, Value)>)
    ensures ToRows(a + b) == ToRows(a) + ToRows(b)
  {
    assert |ToRows(a + b)| == |ToRows(a) + ToRows(b)|;
    forall j | 0 <= j < |a + b|
      ensures ToRows(a + b)[j] == (ToRows(a) + ToRows(b))[j]
    {
      if j >= |a| {
        assert (a + b)[j] == b[j - |a|];
      }
    }
  }

  /**
   * The cases where `buildColorInfo` returns nothing, and the rows it reads
   * otherwise: row j is `(e[3 + 2j], e[4 + 2j])`, and a well-formed expression
   * of length 3 + 2n gives n rows.
   */
  lemma ColorInfoSpec(parameters: Value)
    ensures var color := OptProp(parameters, "color");
      !Truthy(color) || color.Str? ==> ColorInfo(parameters) == []
    ensures var color := OptProp(parameters, "color");
      var e := Prop(color, FillColorKey(parameters));
      Truthy(color) && !color.Str? ==>
        && (!Truthy(e) || At(e, 0) != Str("interpolate") ==> ColorInfo(parameters) == [])
        && (Truthy(e) && At(e, 0) == Str("interpolate") ==>
              && |ColorInfo(parameters)| == (if Len(e) > 3 then (Len(e) - 2) / 2 else 0)
              && (forall j :: 0 <= j < |ColorInfo(parameters)| ==>
                    ColorInfo(parameters)[j] == VectorStopRow(At(e, 3 + 2 * j), At(e, 4 + 2 * j))))
  {
    var color := OptProp(parameters, "color");
    var e := Prop(color, FillColorKey(parameters));
    RowsFromPairs(e, 3);
  }

  /** Reading a fill-colour entry laid out as `[interpolate, _, _, s1, o1, ...]` returns exactly its rows. */
  lemma ColorInfoReadsBack(parameters: Value, header: seq<Value>, rows: seq<VectorStopRow>)
    requires |header| == 3 && header[0] == Str("interpolate")
    requires var color := OptProp(parameters, "color");
      color.Obj? && Prop(color, FillColorKey(parameters)) == Arr(header + Interleave(FromRows(rows)))
    ensures ColorInfo(parameters) == rows
  {
    var e := Arr(header + Interleave(FromRows(rows)));
    ColorInfoOfInterpolate(parameters, e);
    RowsFromPairs(e, 3);
    PairsOfInterleave(header, FromRows(rows));
    ToRowsFromRows(rows);
  }

  /** An `interpolate` entry in an object colour is read from index 3 on. */
  lemma ColorInfoOfInterpolate(parameters: Value, e: Value)
    requires OptProp(parameters, "color").Obj? && Prop(OptProp(parameters, "color"), FillColorKey(parameters)) == e
    requires e.Arr? && |e.items| > 0 && e.items[0] == Str("interpolate")
    ensures ColorInfo(parameters) == RowsFrom(e, 3)
  {
  }
}
