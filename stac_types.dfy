/**
 * The STAC browser's shared types: the filter operators and their textual
 * form, custom filters, the filter state and its persisted form, search
 * result items, and the layer a result becomes.
 */
module StacTypes {
  import opened Wrappers
  import opened Json
  import opened SharedDocument

  // ---------------------------------------------------------------------------
  // Operators
  // ---------------------------------------------------------------------------

  /** The operators offered to the user, by their symbols. */
  datatype StacFilterOperator =
    | Equal | NotEqual | Less | Greater | LessOrEqual | GreaterOrEqual
    | In | StartsWith | EndsWith | Contains

  /** The operator names the search API understands. */
  datatype StacFilterOperatorText =
    | EqText | NeqText | LtText | LteText | GtText | GteText
    | InText | StartsWithText | EndsWithText | ContainsText

  function SymbolString(op: StacFilterOperator): string {
    match op
    case Equal => "="
    case NotEqual => "!="
    case Less => "<"
    case Greater => ">"
    case LessOrEqual => "<="
    case GreaterOrEqual => ">="
    case In => "in"
    case StartsWith => "startsWith"
    case EndsWith => "endsWith"
    case Contains => "contains"
  }

  function TextString(t: StacFilterOperatorText): string {
    match t
    case EqText => "eq"
    case NeqText => "neq"
    case LtText => "lt"
    case LteText => "lte"
    case GtText => "gt"
    case GteText => "gte"
    case InText => "in"
    case StartsWithText => "startsWith"
    case EndsWithText => "endsWith"
    case ContainsText => "contains"
  }

  /** `OPERATOR_SYMBOL_TO_TEXT`. */
  function OperatorSymbolToText(op: StacFilterOperator): (t: StacFilterOperatorText)
    ensures op in {Equal, NotEqual, Less, LessOrEqual, Greater, GreaterOrEqual} ==>
      TextString(t) == (match op
        case Equal => "eq" case NotEqual => "neq" case Less => "lt"
        case LessOrEqual => "lte" case Greater => "gt" case _ => "gte")
    ensures op in {In, StartsWith, EndsWith, Contains} ==> TextString(t) == SymbolString(op)
  {
    match op
    case Equal => EqText
    case NotEqual => NeqText
    case Less => LtText
    case Greater => GtText
    case LessOrEqual => LteText
    case GreaterOrEqual => GteText
    case In => InText
    case StartsWith => StartsWithText
    case EndsWith => EndsWithText
    case Contains => ContainsText
  }

  /** The operator a text stands for: the inverse of the table. */
  function TextToSymbol(t: StacFilterOperatorText): StacFilterOperator {
    match t
    case EqText => Equal
    case NeqText => NotEqual
    case LtText => Less
    case GtText => Greater
    case LteText => LessOrEqual
    case GteText => GreaterOrEqual
    case InText => In
    case StartsWithText => StartsWith
    case EndsWithText => EndsWith
    case ContainsText => Contains
  }

  /** The table is a bijection between the ten operators and the ten texts. */
  lemma OperatorTableBijective()
    ensures forall op :: TextToSymbol(OperatorSymbolToText(op)) == op
    ensures forall t :: OperatorSymbolToText(TextToSymbol(t)) == t
    ensures forall a, b :: OperatorSymbolToText(a) == OperatorSymbolToText(b) ==> a == b
  {
    forall a, b | OperatorSymbolToText(a) == OperatorSymbolToText(b)
      ensures a == b
    {
      assert TextToSymbol(OperatorSymbolToText(a)) == a;
      assert TextToSymbol(OperatorSymbolToText(b)) == b;
    }
  }

  /** The textual forms are pairwise distinct, so the table on strings is injective as well. */
  lemma TextStringsDistinct(a: StacFilterOperatorText, b: StacFilterOperatorText)
    requires TextString(a) == TextString(b)
    ensures a == b
  {
    assert TextString(a)[0] == TextString(b)[0];
    if |TextString(a)| > 1 {
      assert TextString(a)[1] == TextString(b)[1];
    }
  }

  // ---------------------------------------------------------------------------
  // Filters and the filter state
  // ---------------------------------------------------------------------------

  /** `ICustomFilter`: a property, an operator text and a value, all as entered. */
  datatype CustomFilter = CustomFilter(property: string, operator: string, value: string)

  /**
   * `StacFilterState`. Each JavaScript `Set` is its elements in insertion
   * order, without repetition.
   */
  datatype FilterState = FilterState(
    collections: seq<string>,
    datasets: seq<string>,
    platforms: seq<string>,
    products: seq<string>,
    custom: seq<CustomFilter>)

  function EmptyFilterState(): FilterState {
    FilterState([], [], [], [], [])
  }

  predicate Distinct(s: seq<string>) {
    forall i, j :: 0 <= i < j < |s| ==> s[i] != s[j]
  }

  predicate WellFormed(fs: FilterState) {
    Distinct(fs.collections) && Distinct(fs.datasets) && Distinct(fs.platforms) && Distinct(fs.products)
  }

  /** `Set.add` for each of `xs` in turn, on a set holding `acc`. */
  function AddAll(acc: seq<string>, xs: seq<string>): (r: seq<string>)
    ensures forall x :: x in r <==> x in acc || x in xs
    ensures |acc| <= |r| && r[..|acc|] == acc
    decreases |xs|
  {
    if xs == [] then acc
    else AddAll(if xs[0] in acc then acc else acc + [xs[0]], xs[1..])
  }

  /** A set built from `acc` and `xs` has no repeated elements when `acc` had none. */
  lemma {:induction false} AddAllDistinct(acc: seq<string>, xs: seq<string>)
    requires Distinct(acc)
    ensures Distinct(AddAll(acc, xs))
    decreases |xs|
  {
    if xs != [] {
      var next := if xs[0] in acc then acc else acc + [xs[0]];
      assert Distinct(next);
      AddAllDistinct(next, xs[1..]);
    }
  }

  /** Adding elements that are all new keeps them in order: `new Set(a)` of a repetition-free `a` is `a`. */
  lemma {:induction false} AddAllFresh(acc: seq<string>, xs: seq<string>)
    requires Distinct(acc + xs)
    ensures AddAll(acc, xs) == acc + xs
    decreases |xs|
  {
    if xs != [] {
      forall i | 0 <= i < |acc|
        ensures acc[i] != xs[0]
      {
        assert (acc + xs)[i] == acc[i] && (acc + xs)[|acc|] == xs[0];
      }
      assert xs[0] !in acc;
      assert acc + xs == (acc + [xs[0]]) + xs[1..];
      AddAllFresh(acc + [xs[0]], xs[1..]);
    }
  }

  /** `new Set(xs)`. */
  function NewSet(xs: seq<string>): seq<string> {
    AddAll([], xs)
  }

  /**
   * The stored form of the filter state (`StacFilterStateStateDb`), as read
   * back from the state database: nothing usable (a missing entry, or a
   * value that is not a non-array object), or an object whose fields may
   * each be missing. Present fields are taken to have the declared types.
   */
  datatype SavedFilterState =
    | NotAnObject
    | SavedObject(
        collections: Option<seq<string>>,
        datasets: Option<seq<string>>,
        platforms: Option<seq<string>>,
        products: Option<seq<string>>,
        custom: Option<seq<CustomFilter>>)

  /** `loadStacStateFromDb`: every set from its array, `?? []`, and `custom` as stored. */
  function LoadFilterState(saved: SavedFilterState): (fs: FilterState)
    ensures WellFormed(fs)
    ensures saved.NotAnObject? ==> fs == EmptyFilterState()
  {
    AddAllDistinct([], []);
    match saved
    case NotAnObject => EmptyFilterState()
    case SavedObject(c, d, p, pr, cu) =>
      var collections := c.GetOr([]);
      var datasets := d.GetOr([]);
      var platforms := p.GetOr([]);
      var products := pr.GetOr([]);
      AddAllDistinct([], collections);
      AddAllDistinct([], datasets);
      AddAllDistinct([], platforms);
      AddAllDistinct([], products);
      FilterState(NewSet(collections), NewSet(datasets), NewSet(platforms), NewSet(products), cu.GetOr([]))
  }

  /** `saveStacFilterStateToDb`: each set as an array, `custom` as it is. */
  function SaveFilterState(fs: FilterState): SavedFilterState {
    SavedObject(Some(fs.collections), Some(fs.datasets), Some(fs.platforms), Some(fs.products), Some(fs.custom))
  }

  /** Loading what was saved gives back the filter state. */
  lemma LoadAfterSave(fs: FilterState)
    requires WellFormed(fs)
    ensures LoadFilterState(SaveFilterState(fs)) == fs
  {
    assert [] + fs.collections == fs.collections;
    assert [] + fs.datasets == fs.datasets;
    assert [] + fs.platforms == fs.platforms;
    assert [] + fs.products == fs.products;
    AddAllFresh([], fs.collections);
    AddAllFresh([], fs.datasets);
    AddAllFresh([], fs.platforms);
    AddAllFresh([], fs.products);
  }

  // ---------------------------------------------------------------------------
  // Results
  // ---------------------------------------------------------------------------

  /**
   * A search result item: its id, its `properties.title` (None when
   * undefined or null) and its assets (None when absent).
   */
  datatype StacItem = StacItem(id: string, title: Option<string>, assets: Option<map<string, Value>>)

  /** The item as a JSON value, for a layer's `parameters.data`. */
  function ItemValue(item: StacItem): Value {
    Obj(map[
      "id" := Str(item.id),
      "properties" := Obj(if item.title.Some? then map["title" := Str(item.title.value)] else map[]),
      "assets" := if item.assets.Some? then Obj(item.assets.value) else Undefined])
  }

  /** `formatResult`: `properties.title ?? id`. */
  function FormatResult(item: StacItem): (s: string)
    ensures item.title.Some? ==> s == item.title.value
    ensures item.title.None? ==> s == item.id
  {
    item.title.GetOr(item.id)
  }

  /** The visible `StacLayer` a result becomes, named as it is displayed. */
  function StacLayer(item: StacItem): (l: Layer)
    ensures l.layerType == "StacLayer" && l.visible && l.name == FormatResult(item)
    ensures Prop(l.parameters, "data") == ItemValue(item)
  {
    Layer("StacLayer", FormatResult(item), true, Obj(map["data" := ItemValue(item)]))
  }
}
