/**
 * JavaScript values as the dialogs, forms and STAC hooks handle them: style
 * expressions, schemas and query bodies are all JSON-shaped.  Numbers are
 * carried, never computed on, so `real` stands in for a JavaScript number.
 */
module Json {
  import opened Wrappers

  datatype Value =
    | Undefined
    | Null
    | Bool(b: bool)
    | Num(n: real)
    | Str(s: string)
    | Arr(items: seq<Value>)
    | Obj(fields: map<string, Value>)

  /** JavaScript truthiness (NaN is not modelled). */
  predicate Truthy(v: Value) {
    match v
    case Undefined => false
    case Null => false
    case Bool(b) => b
    case Num(n) => n != 0.0
    case Str(s) => s != ""
    case Arr(_) => true
    case Obj(_) => true
  }

  /**
   * `v[i]` for an integer index on a value that is neither undefined nor null:
   * an array element, a one-character string, an object's field under the
   * index's decimal text, otherwise undefined.
   */
  function At(v: Value, i: int): (r: Value)
    ensures v.Arr? && 0 <= i < |v.items| ==> r == v.items[i]
    ensures !v.Arr? && !v.Str? && !v.Obj? ==> r == Undefined
    ensures (v.Arr? || v.Str?) && (i < 0 || i >= Len(v)) ==> r == Undefined
    ensures v.Obj? ==> r == Prop(v, IntToString(i))
  {
    match v
    case Arr(items) => if 0 <= i < |items| then items[i] else Undefined
    case Str(s) => if 0 <= i < |s| then Str([s[i]]) else Undefined
    case Obj(_) => Prop(v, IntToString(i))
    case _ => Undefined
  }

  /** `v[i]` where undefined and null throw a TypeError (None). */
  function Index(v: Value, i: int): (r: Option<Value>)
    ensures r.None? <==> v.Undefined? || v.Null?
    ensures r.Some? ==> r.value == At(v, i)
  {
    if v.Undefined? || v.Null? then None else Some(At(v, i))
  }

  /** `v?.[key]`: undefined when `v` is undefined or null. */
  function OptProp(v: Value, key: string): (r: Value)
    ensures (v.Undefined? || v.Null?) ==> r == Undefined
    ensures !(v.Undefined? || v.Null?) ==> r == Prop(v, key)
  {
    if v.Undefined? || v.Null? then Undefined else Prop(v, key)
  }

  /** `v[key] = x` on an object; the model leaves every other value as it is. */
  function SetProp(v: Value, key: string, x: Value): (r: Value)
    ensures v.Obj? ==> r == Obj(v.fields[key := x])
    ensures !v.Obj? ==> r == v
  {
    if v.Obj? then Obj(v.fields[key := x]) else v
  }

  /** Decimal text of an integer, as `String(i)` writes it. */
  function IntToString(i: int): (s: string)
    ensures i >= 0 ==> s == NatToString(i)
    ensures i < 0 ==> s == "-" + NatToString(-i)
  {
    if i >= 0 then NatToString(i) else "-" + NatToString(-i)
  }

  /** `v.length` for arrays and strings (0 for the values the model never indexes). */
  function Len(v: Value): nat {
    match v
    case Arr(items) => |items|
    case Str(s) => |s|
    case _ => 0
  }

  /** `v[key]` for a string key on an object; undefined elsewhere. */
  function Prop(v: Value, key: string): (r: Value)
    ensures v.Obj? && key in v.fields ==> r == v.fields[key]
    ensures !(v.Obj? && key in v.fields) ==> r == Undefined
  {
    if v.Obj? && key in v.fields then v.fields[key] else Undefined
  }

  /** Decimal text of a natural number, as `String(n)` writes it. */
  function NatToString(n: nat): (s: string)
    ensures |s| >= 1
    ensures forall i :: 0 <= i < |s| ==> '0' <= s[i] <= '9'
    decreases n
  {
    if n < 10 then [DigitChar(n)] else NatToString(n / 10) + [DigitChar(n % 10)]
  }

  function DigitChar(d: nat): (c: char)
    requires d < 10
    ensures '0' <= c <= '9' && (c as int) - ('0' as int) == d
  {
    ((('0' as int) + d) as char)
  }

  /** The own enumerable entries that object spread `{...v}` copies. */
  function SpreadEntries(v: Value): (m: map<string, Value>)
    ensures v.Obj? ==> m == v.fields
    ensures !(v.Obj? || v.Arr? || v.Str?) ==> m == map[]
  {
    match v
    case Obj(fields) => fields
    case Arr(items) => IndexEntries(items)
    case Str(s) => IndexEntries(seq(|s|, i requires 0 <= i < |s| => Str([s[i]])))
    case _ => map[]
  }

  /** `{...[a, b, c]}` is `{"0": a, "1": b, "2": c}`. */
  function IndexEntries(items: seq<Value>): (m: map<string, Value>)
    ensures forall i :: 0 <= i < |items| ==> NatToString(i) in m && m[NatToString(i)] == items[i]
  {
    NatToStringInjective();
    map i | 0 <= i < |items| :: NatToString(i) := items[i]
  }

  /** Distinct numbers have distinct decimal texts. */
  lemma NatToStringInjective()
    ensures forall a: nat, b: nat :: NatToString(a) == NatToString(b) ==> a == b
  {
    forall a: nat, b: nat | NatToString(a) == NatToString(b)
      ensures a == b
    {
      NatToStringInjectiveAt(a, b);
    }
  }

  lemma {:induction false} NatToStringInjectiveAt(a: nat, b: nat)
    requires NatToString(a) == NatToString(b)
    ensures a == b
    decreases a
  {
    var sa, sb := NatToString(a), NatToString(b);
    if a < 10 && b < 10 {
      assert sa[0] == DigitChar(a) && sb[0] == DigitChar(b);
    } else if a < 10 {
      assert false;
    } else if b < 10 {
      assert false;
    } else {
      var pa, pb := NatToString(a / 10), NatToString(b / 10);
      assert sa == pa + [DigitChar(a % 10)] && sb == pb + [DigitChar(b % 10)];
      assert sa[..|sa| - 1] == pa && sb[..|sb| - 1] == pb;
      assert DigitChar(a % 10) == sa[|sa| - 1] == DigitChar(b % 10);
      NatToStringInjectiveAt(a / 10, b / 10);
    }
  }
}
