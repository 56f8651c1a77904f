/**
 * The array-shaped style expressions the symbology dialogs write and read
 * back: a few leading operator entries followed by stop/output pairs laid out
 * flat, `[op, ..., v1, c1, v2, c2, ...]`.
 */
module StyleExpr {
  import opened Json

  /** The pairs `(e[i], e[i + 1])` for `i = from, from + 2, ...` while `i < e.length`. */
  function Pairs(e: Value, from: nat): (r: seq<(Value, Value)>)
    ensures |r| == if from < Len(e) then (Len(e) - from + 1) / 2 else 0
    ensures forall j :: 0 <= j < |r| ==> r[j] == (At(e, from + 2 * j), At(e, from + 2 * j + 1))
    decreases Len(e) - from
  {
    if from < Len(e) then [(At(e, from), At(e, from + 1))] + Pairs(e, from + 2) else []
  }

  /** Stop/output pairs laid out flat, as the builders push them. */
  function Interleave(rows: seq<(Value, Value)>): (r: seq<Value>)
    ensures |r| == 2 * |rows|
    ensures forall j :: 0 <= j < |rows| ==> r[2 * j] == rows[j].0 && r[2 * j + 1] == rows[j].1
  {
    if rows == [] then [] else [rows[0].0, rows[0].1] + Interleave(rows[1..])
  }

  /** Reading the pairs after a header gives back exactly the pairs that were laid out. */
  lemma PairsOfInterleave(header: seq<Value>, rows: seq<(Value, Value)>)
    ensures Pairs(Arr(header + Interleave(rows)), |header|) == rows
  {
    var items := header + Interleave(rows);
    forall j | 0 <= j < |rows|
      ensures items[|header| + 2 * j] == rows[j].0 && items[|header| + 2 * j + 1] == rows[j].1
    {
    }
    PairsOfItems(Arr(items), |header|, rows);
  }

  /** An array whose entries from `from` on are the pairs laid out flat reads back as those pairs. */
  lemma PairsOfItems(e: Value, from: nat, rows: seq<(Value, Value)>)
    requires e.Arr? && from + 2 * |rows| == |e.items|
    requires forall j :: 0 <= j < |rows| ==> e.items[from + 2 * j] == rows[j].0 && e.items[from + 2 * j + 1] == rows[j].1
    ensures Pairs(e, from) == rows
  {
    var r := Pairs(e, from);
    assert |r| == |rows|;
    forall j | 0 <= j < |rows|
      ensures r[j] == rows[j]
    {
      assert r[j] == (At(e, from + 2 * j), At(e, from + 2 * j + 1));
    }
  }

  /** Laying out one more pair appends its two entries. */
  lemma InterleaveSnoc(ps: seq<(Value, Value)>, p: (Value, Value))
    ensures Interleave(ps + [p]) == Interleave(ps) + [p.0, p.1]
  {
    var l, r := Interleave(ps + [p]), Interleave(ps) + [p.0, p.1];
    assert |l| == |r|;
    forall i | 0 <= i < |l|
      ensures l[i] == r[i]
    {
      var j := i / 2;
      assert (ps + [p])[j] == if j < |ps| then ps[j] else p;
      if i % 2 == 0 {
        assert i == 2 * j;
      } else {
        assert i == 2 * j + 1;
      }
    }
  }
}
