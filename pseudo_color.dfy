/**
 * The single-band pseudo-colour dialog: it reads the stop rows and the
 * interpolation function out of a raster layer's colour expression, edits the
 * rows, and writes a new expression back (`interpolate` for linear, `case`
 * with `<=` or `==` comparisons for discrete and exact).
 */
module SingleBandPseudoColor {
  import opened Wrappers
  import opened Json
  import opened StyleExpr
  import opened SharedDocument
  import JsArray

  /** A stop row: the band value and the colour assigned to it. */
  datatype StopRow = StopRow(value: Value, color: Value)

  datatype InterpolationType = Discrete | Linear | Exact

  /**
   * What the parse effect leaves behind: nothing (no colour or a string
   * colour), the function and rows it sets, or a TypeError it throws.
   */
  datatype ParseEffect = NoChange | Parsed(selectedFunction: InterpolationType, rows: seq<StopRow>) | Threw

  /** The fallback colour of a `case` expression, and the colour of a new row. */
  function Black(): Value {
    Arr([Num(0.0), Num(0.0), Num(0.0)])
  }

  // ---------------------------------------------------------------------------
  // Reading an expression
  // ---------------------------------------------------------------------------

  /** `interpolate` rows: `(e[i], e[i + 1])` for `i = from, from + 2, ...` while `i < e.length`. */
  function InterpolateRows(e: Value, from: nat): seq<StopRow>
    decreases Len(e) - from
  {
    if from < Len(e) then [StopRow(At(e, from), At(e, from + 1))] + InterpolateRows(e, from + 2) else []
  }

  /**
   * `case` rows: `(e[i][2], e[i + 1])` for `i = from, from + 2, ...` while
   * `i < e.length - 1`; a condition entry that is undefined or null throws.
   */
  function CaseRows(e: Value, from: nat): Option<seq<StopRow>>
    decreases Len(e) - from
  {
    if from + 1 < Len(e) then
      match Index(At(e, from), 2)
      case None => None
      case Some(v) =>
        match CaseRows(e, from + 2)
        case None => None
        case Some(rest) => Some([StopRow(v, At(e, from + 1))] + rest)
    else Some([])
  }

  /**
   * `setInitialFunction`: `interpolate` reads as linear; otherwise the
   * operator `color[1][0]` decides, `<=` for discrete and anything else for
   * exact; `color[1]` undefined or null throws (None).
   */
  function InitialFunction(color: Value): Option<InterpolationType> {
    if At(color, 0) == Str("interpolate") then Some(Linear)
    else
      match Index(At(color, 1), 0)
      case None => None
      case Some(op) => Some(if op == Str("<=") then Discrete else Exact)
  }

  /** The rows `prefix` in front of the rows of a read that did not throw. */
  function PrependRows(prefix: seq<StopRow>, rows: Option<seq<StopRow>>): (r: Option<seq<StopRow>>)
    ensures r.Some? <==> rows.Some?
    ensures r.Some? ==> r.value == prefix + rows.value
  {
    match rows
    case None => None
    case Some(rest) => Some(prefix + rest)
  }

  lemma PrependRowsEmpty(rows: Option<seq<StopRow>>)
    ensures PrependRows([], rows) == rows
  {
    if rows.Some? {
      assert [] + rows.value == rows.value;
    }
  }

  lemma PrependRowsTwice(a: seq<StopRow>, b: seq<StopRow>, rows: Option<seq<StopRow>>)
    ensures PrependRows(a, PrependRows(b, rows)) == PrependRows(a + b, rows)
  {
    if rows.Some? {
      assert a + (b + rows.value) == (a + b) + rows.value;
    }
  }

  /** The effect of the parse step on a colour value. */
  function ParseColor(color: Value): ParseEffect {
    if !Truthy(color) || color.Str? then NoChange
    else
      var rows :=
        if At(color, 0) == Str("interpolate") then Some(InterpolateRows(color, 3))
        else if At(color, 0) == Str("case") then CaseRows(color, 1)
        else Some([]);
      match rows
      case None => Threw
      case Some(r) =>
        match InitialFunction(color)
        case None => Threw
        case Some(f) => Parsed(f, r)
  }

  /** The parse step of the dialog on the layer's `parameters?.color`. */
  method ParseLayerColor(layer: Layer) returns (effect: ParseEffect)
    ensures effect == ParseColor(OptProp(layer.parameters, "color"))
  {
    var color := OptProp(layer.parameters, "color");
    if !Truthy(color) {
      return NoChange;
    }
    if color.Str? {
      return NoChange;
    }
    var pairedObjects: seq<StopRow> := [];
    if At(color, 0) == Str("interpolate") {
      var i := 3;
      while i < Len(color)
        invariant i >= 3
        invariant InterpolateRows(color, 3) == pairedObjects + InterpolateRows(color, i)
        decreases Len(color) - i
      {
        pairedObjects := pairedObjects + [StopRow(At(color, i), At(color, i + 1))];
        i := i + 2;
      }
    } else if At(color, 0) == Str("case") {
      var i := 1;
      PrependRowsEmpty(CaseRows(color, 1));
      while i < Len(color) - 1
        invariant i >= 1
        invariant CaseRows(color, 1) == PrependRows(pairedObjects, CaseRows(color, i))
        decreases Len(color) - i
      {
        var condition := At(color, i);
        if condition.Undefined? || condition.Null? {
          assert CaseRows(color, i).None?;
          return Threw;
        }
        var row := StopRow(At(condition, 2), At(color, i + 1));
        assert CaseRows(color, i) == PrependRows([row], CaseRows(color, i + 2));
        PrependRowsTwice(pairedObjects, [row], CaseRows(color, i + 2));
        pairedObjects := pairedObjects + [row];
        i := i + 2;
      }
    }
    if At(color, 0) == Str("interpolate") {
      return Parsed(Linear, pairedObjects);
    }
    var second := At(color, 1);
    if second.Undefined? || second.Null? {
      return Threw;
    }
    var operator := At(second, 0);
    return Parsed(if operator == Str("<=") then Discrete else Exact, pairedObjects);
  }

  // ---------------------------------------------------------------------------
  // Writing an expression
  // ---------------------------------------------------------------------------

  /** `['band', b]`. */
  function BandInput(band: Value): Value {
    Arr([Str("band"), band])
  }

  /** The flat pairs of a linear expression: each row's value then its colour. */
  function LinearPairs(rows: seq<StopRow>): (ps: seq<(Value, Value)>)
    ensures |ps| == |rows|
    ensures forall j :: 0 <= j < |rows| ==> ps[j] == (rows[j].value, rows[j].color)
  {
    if rows == [] then [] else [(rows[0].value, rows[0].color)] + LinearPairs(rows[1..])
  }

  /** The flat pairs of a case expression: `[op, ['band', b], value]` then the colour. */
  function CasePairs(op: string, band: Value, rows: seq<StopRow>): (ps: seq<(Value, Value)>)
    ensures |ps| == |rows|
    ensures forall j :: 0 <= j < |rows| ==>
      ps[j] == (Arr([Str(op), BandInput(band), rows[j].value]), rows[j].color)
  {
    if rows == [] then []
    else [(Arr([Str(op), BandInput(band), rows[0].value]), rows[0].color)] + CasePairs(op, band, rows[1..])
  }

  /** The comparison a case expression uses for each function. */
  function CaseOperator(f: InterpolationType): string
    requires f != Linear
  {
    if f == Discrete then "<=" else "=="
  }

  /**
   * The expression `handleOk` writes: linear gives
   * `['interpolate', ['linear'], ['band', b], v1, c1, ...]`, discrete and exact give
   * `['case', [op, ['band', b], v1], c1, ..., [0, 0, 0]]`, and no selected function `[]`.
   */
  function ColorExpr(f: Option<InterpolationType>, band: Value, rows: seq<StopRow>): Value {
    match f
    case None => Arr([])
    case Some(Linear) =>
      Arr([Str("interpolate"), Arr([Str("linear")]), BandInput(band)] + Interleave(LinearPairs(rows)))
    case Some(g) =>
      Arr([Str("case")] + Interleave(CasePairs(CaseOperator(g), band, rows)) + [Black()])
  }

  /** The builder of `handleOk`, pushing one entry at a time. */
  method BuildColorExpr(f: Option<InterpolationType>, band: Value, rows: seq<StopRow>) returns (colorExpr: Value)
    ensures colorExpr == ColorExpr(f, band, rows)
  {
    match f {
      case None =>
        colorExpr := Arr([]);
      case Some(Linear) =>
        colorExpr := BuildLinear(band, rows);
      case Some(g) =>
        colorExpr := BuildCase(CaseOperator(g), band, rows);
    }
  }

  /** The `interpolate` branch of the builder. */
  method BuildLinear(band: Value, rows: seq<StopRow>) returns (colorExpr: Value)
    ensures colorExpr == Arr([Str("interpolate"), Arr([Str("linear")]), BandInput(band)] + Interleave(LinearPairs(rows)))
  {
    var items := PushStops([Str("interpolate"), Arr([Str("linear")]), BandInput(band)], rows);
    colorExpr := Arr(items);
  }

  /** Pushes each row's value and then its colour after `header`. */
  method PushStops(header: seq<Value>, rows: seq<StopRow>) returns (items: seq<Value>)
    ensures items == header + Interleave(LinearPairs(rows))
  {
    items := header;
    for j := 0 to |rows|
      invariant items == header + Interleave(LinearPairs(rows[..j]))
    {
      LinearPairsSnoc(rows, j);
      InterleaveSnoc(LinearPairs(rows[..j]), (rows[j].value, rows[j].color));
      items := items + [rows[j].value];
      items := items + [rows[j].color];
    }
    assert rows[..|rows|] == rows;
  }

  /** The `case` branch of the builder, comparing with `op`. */
  method BuildCase(op: string, band: Value, rows: seq<StopRow>) returns (colorExpr: Value)
    ensures colorExpr == Arr([Str("case")] + Interleave(CasePairs(op, band, rows)) + [Black()])
  {
    var items := [Str("case")];
    for j := 0 to |rows|
      invariant items == [Str("case")] + Interleave(CasePairs(op, band, rows[..j]))
    {
      var condition := Arr([Str(op), BandInput(band), rows[j].value]);
      CaseStep(op, band, rows, j);
      items := items + [condition];
      items := items + [rows[j].color];
    }
    assert rows[..|rows|] == rows;
    items := items + [Black()];
    colorExpr := Arr(items);
  }

  lemma LinearPairsSnoc(rows: seq<StopRow>, j: nat)
    requires j < |rows|
    ensures LinearPairs(rows[..j + 1]) == LinearPairs(rows[..j]) + [(rows[j].value, rows[j].color)]
  {
    assert |LinearPairs(rows[..j + 1])| == j + 1;
  }

  lemma CasePairsSnoc(op: string, band: Value, rows: seq<StopRow>, j: nat)
    requires j < |rows|
    ensures CasePairs(op, band, rows[..j + 1]) ==
      CasePairs(op, band, rows[..j]) + [(Arr([Str(op), BandInput(band), rows[j].value]), rows[j].color)]
  {
    assert |CasePairs(op, band, rows[..j + 1])| == j + 1;
  }

  lemma CaseStep(op: string, band: Value, rows: seq<StopRow>, j: nat)
    requires j < |rows|
    ensures Interleave(CasePairs(op, band, rows[..j + 1])) ==
      Interleave(CasePairs(op, band, rows[..j])) + [Arr([Str(op), BandInput(band), rows[j].value]), rows[j].color]
  {
    CasePairsSnoc(op, band, rows, j);
    InterleaveSnoc(CasePairs(op, band, rows[..j]), (Arr([Str(op), BandInput(band), rows[j].value]), rows[j].color));
  }

  /**
   * `handleOk`: a layer without parameters is left alone; otherwise its
   * colour becomes the built expression, the layer is written to the document
   * and the dialog closes.
   */
  method HandleOk(doc: SharedDoc, layerId: string, layer: Layer, f: Option<InterpolationType>, band: Value, rows: seq<StopRow>)
    returns (closed: bool)
    modifies doc
    ensures closed == Truthy(layer.parameters)
    ensures doc.layers == if closed
      then old(doc.layers)[layerId := layer.(parameters := SetProp(layer.parameters, "color", ColorExpr(f, band, rows)))]
      else old(doc.layers)
    ensures doc.sources == old(doc.sources) && doc.layerTree == old(doc.layerTree) && doc.options == old(doc.options)
    ensures doc.editable == old(doc.editable) && doc.isDisposed == old(doc.isDisposed)
  {
    if !Truthy(layer.parameters) {
      return false;
    }
    var colorExpr := BuildColorExpr(f, band, rows);
    doc.UpdateLayer(layerId, layer.(parameters := SetProp(layer.parameters, "color", colorExpr)));
    return true;
  }

  // ---------------------------------------------------------------------------
  // Round trips
  // ---------------------------------------------------------------------------

  /** Reading the `interpolate` rows of an array laid out pair by pair from `from` to its end. */
  lemma {:induction false} InterpolateRowsFrom(e: Value, from: nat, rows: seq<StopRow>)
    requires e.Arr? && from + 2 * |rows| == |e.items|
    requires forall j :: 0 <= j < |rows| ==> e.items[from + 2 * j] == rows[j].value && e.items[from + 2 * j + 1] == rows[j].color
    ensures InterpolateRows(e, from) == rows
    decreases |rows|
  {
    if rows != [] {
      forall j | 0 <= j < |rows| - 1
        ensures e.items[from + 2 + 2 * j] == rows[1..][j].value && e.items[from + 2 + 2 * j + 1] == rows[1..][j].color
      {
        assert from + 2 + 2 * j == from + 2 * (j + 1);
      }
      InterpolateRowsFrom(e, from + 2, rows[1..]);
      assert rows == [StopRow(e.items[from], e.items[from + 1])] + rows[1..];
    }
  }

  /** Reading the `case` rows of an array laid out condition by condition from `from`, with one fallback entry last. */
  lemma {:induction false} CaseRowsFrom(e: Value, from: nat, rows: seq<StopRow>)
    requires e.Arr? && from + 2 * |rows| + 1 == |e.items|
    requires forall j :: 0 <= j < |rows| ==>
      Index(e.items[from + 2 * j], 2) == Some(rows[j].value) && e.items[from + 2 * j + 1] == rows[j].color
    ensures CaseRows(e, from) == Some(rows)
    decreases |rows|
  {
    if rows != [] {
      forall j | 0 <= j < |rows| - 1
        ensures Index(e.items[from + 2 + 2 * j], 2) == Some(rows[1..][j].value)
        ensures e.items[from + 2 + 2 * j + 1] == rows[1..][j].color
      {
        assert from + 2 + 2 * j == from + 2 * (j + 1);
      }
      CaseRowsFrom(e, from + 2, rows[1..]);
      assert Index(At(e, from), 2) == Some(rows[0].value);
      assert rows == [StopRow(rows[0].value, e.items[from + 1])] + rows[1..];
    }
  }

  /** Reading the `interpolate` rows after a header gives back the rows that were laid out. */
  lemma InterpolateRowsOfInterleave(header: seq<Value>, rows: seq<StopRow>)
    ensures InterpolateRows(Arr(header + Interleave(LinearPairs(rows))), |header|) == rows
  {
    var ps := LinearPairs(rows);
    var flat := Interleave(ps);
    var e := Arr(header + flat);
    forall j | 0 <= j < |rows|
      ensures e.items[|header| + 2 * j] == rows[j].value && e.items[|header| + 2 * j + 1] == rows[j].color
    {
      assert flat[2 * j] == ps[j].0 && flat[2 * j + 1] == ps[j].1;
    }
    InterpolateRowsFrom(e, |header|, rows);
  }

  /** Reading the `case` rows of a built `case` expression gives back its rows. */
  lemma CaseRowsOfInterleave(op: string, band: Value, rows: seq<StopRow>)
    ensures CaseRows(Arr([Str("case")] + Interleave(CasePairs(op, band, rows)) + [Black()]), 1) == Some(rows)
  {
    var ps := CasePairs(op, band, rows);
    var flat := Interleave(ps);
    var e := Arr([Str("case")] + flat + [Black()]);
    forall j | 0 <= j < |rows|
      ensures Index(e.items[1 + 2 * j], 2) == Some(rows[j].value)
      ensures e.items[1 + 2 * j + 1] == rows[j].color
    {
      assert flat[2 * j] == ps[j].0 && flat[2 * j + 1] == ps[j].1;
      assert e.items[1 + 2 * j] == Arr([Str(op), BandInput(band), rows[j].value]);
    }
    CaseRowsFrom(e, 1, rows);
  }

  /**
   * Reading back what `handleOk` wrote: a linear or exact expression gives
   * back its function and rows; a discrete one gives back its rows, and its
   * function only when there is at least one row (with none, `color[1]` is
   * the fallback `[0, 0, 0]`, so it reads as exact); an unselected function
   * writes `[]`, on which the parse throws.
   */
  lemma ParseAfterBuild(f: Option<InterpolationType>, band: Value, rows: seq<StopRow>)
    ensures f == Some(Linear) ==> ParseColor(ColorExpr(f, band, rows)) == Parsed(Linear, rows)
    ensures f == Some(Exact) ==> ParseColor(ColorExpr(f, band, rows)) == Parsed(Exact, rows)
    ensures f == Some(Discrete) ==>
      ParseColor(ColorExpr(f, band, rows)) == Parsed(if |rows| > 0 then Discrete else Exact, rows)
    ensures f == None ==> ParseColor(ColorExpr(f, band, rows)) == Threw
  {
    match f {
      case None =>
      case Some(Linear) => ParseLinearAfterBuild(band, rows);
      case Some(g) => ParseCaseAfterBuild(g, band, rows);
    }
  }

  /** The linear case of `ParseAfterBuild`. */
  lemma ParseLinearAfterBuild(band: Value, rows: seq<StopRow>)
    ensures ParseColor(ColorExpr(Some(Linear), band, rows)) == Parsed(Linear, rows)
  {
    var header := [Str("interpolate"), Arr([Str("linear")]), BandInput(band)];
    var e := ColorExpr(Some(Linear), band, rows);
    assert e == Arr(header + Interleave(LinearPairs(rows)));
    InterpolateRowsOfInterleave(header, rows);
    assert At(e, 0) == Str("interpolate");
  }

  /** The discrete and exact cases of `ParseAfterBuild`. */
  lemma ParseCaseAfterBuild(g: InterpolationType, band: Value, rows: seq<StopRow>)
    requires g != Linear
    ensures ParseColor(ColorExpr(Some(g), band, rows)) == Parsed(if g == Discrete && |rows| > 0 then Discrete else Exact, rows)
  {
    var op := CaseOperator(g);
    var e := ColorExpr(Some(g), band, rows);
    assert e == Arr([Str("case")] + Interleave(CasePairs(op, band, rows)) + [Black()]);
    CaseRowsOfInterleave(op, band, rows);
    assert At(e, 0) == Str("case");
    if |rows| > 0 {
      assert At(e, 1) == Arr([Str(op), BandInput(band), rows[0].value]);
    } else {
      assert At(e, 1) == Black();
    }
  }

  // ---------------------------------------------------------------------------
  // Editing the rows
  // ---------------------------------------------------------------------------

  /** `addStopRow`: a black row at value 0 goes first, the others follow in order. */
  function AddStopRow(rows: seq<StopRow>): (r: seq<StopRow>)
    ensures |r| == |rows| + 1 && r[0] == StopRow(Num(0.0), Black()) && r[1..] == rows
  {
    [StopRow(Num(0.0), Black())] + rows
  }

  /** `deleteStopRow`: `splice(index, 1)` on a copy. */
  function DeleteStopRow(rows: seq<StopRow>, index: int): (r: seq<StopRow>)
    ensures 0 <= index < |rows| ==> r == rows[..index] + rows[index + 1..]
    ensures index >= |rows| ==> r == rows
  {
    JsArray.Delete(rows, index)
  }

  /** Deleting the row just added restores the rows. */
  lemma DeleteAddedRow(rows: seq<StopRow>)
    ensures DeleteStopRow(AddStopRow(rows), 0) == rows
  {
    assert AddStopRow(rows)[1..] == rows;
  }
}
