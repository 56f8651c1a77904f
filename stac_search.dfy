/**
 * The STAC search hook: the filter state and its persistence, the query body
 * sent to the search API, the bookkeeping of results and pages, and turning
 * a clicked result into a layer.
 */
module StacSearch {
  import opened Wrappers
  import opened Json
  import opened SharedDocument
  import opened StacTypes
  import opened GisModel
  import opened LayerTree

  // ---------------------------------------------------------------------------
  // Product filters
  // ---------------------------------------------------------------------------

  /**
   * An entry of the product catalogue: its code, its processing level (empty
   * when it has none) and its product types (None when it has none).
   */
  datatype Product = Product(productCode: string, processingLevel: string, productType: Option<seq<string>>)

  /** The catalogue entries with this code, in catalogue order. */
  function Matching(code: string, catalog: seq<Product>): (r: seq<Product>)
    ensures forall p :: p in r <==> p in catalog && p.productCode == code
  {
    if catalog == [] then []
    else
      var last := catalog[|catalog| - 1];
      Matching(code, catalog[..|catalog| - 1]) + (if last.productCode == code then [last] else [])
  }

  /** The processing levels the products contribute, in order. */
  function LevelsOf(ps: seq<Product>): seq<string> {
    if ps == [] then []
    else LevelsOf(ps[..|ps| - 1]) + (var p := ps[|ps| - 1]; if p.processingLevel != "" then [p.processingLevel] else [])
  }

  /** The product types the products contribute, in order. */
  function TypesOf(ps: seq<Product>): seq<string> {
    if ps == [] then [] else TypesOf(ps[..|ps| - 1]) + ps[|ps| - 1].productType.GetOr([])
  }

  /** The processing levels of all selected product codes, in order. */
  function Levels(codes: seq<string>, catalog: seq<Product>): seq<string> {
    if codes == [] then [] else Levels(codes[..|codes| - 1], catalog) + LevelsOf(Matching(codes[|codes| - 1], catalog))
  }

  /** The product types of all selected product codes, in order. */
  function Types(codes: seq<string>, catalog: seq<Product>): seq<string> {
    if codes == [] then [] else Types(codes[..|codes| - 1], catalog) + TypesOf(Matching(codes[|codes| - 1], catalog))
  }

  lemma {:induction false} AddAllAppend(acc: seq<string>, a: seq<string>, b: seq<string>)
    ensures AddAll(acc, a + b) == AddAll(AddAll(acc, a), b)
    decreases |a|
  {
    if a != [] {
      assert (a + b)[0] == a[0] && (a + b)[1..] == a[1..] + b;
      AddAllAppend(if a[0] in acc then acc else acc + [a[0]], a[1..], b);
    } else {
      assert a + b == b;
    }
  }

  /** `forEach(x => set.add(x))`. */
  method AddEach(s: seq<string>, xs: seq<string>) returns (r: seq<string>)
    ensures r == AddAll(s, xs)
  {
    r := s;
    var k := 0;
    while k < |xs|
      invariant 0 <= k <= |xs|
      invariant AddAll(s, xs) == AddAll(r, xs[k..])
    {
      assert xs[k..][0] == xs[k] && xs[k..][1..] == xs[k + 1..];
      if xs[k] !in r {
        r := r + [xs[k]];
      }
      k := k + 1;
    }
  }

  /** The inner loop over the catalogue entries of one product code. */
  method AddProducts(levels0: seq<string>, types0: seq<string>, ms: seq<Product>)
    returns (levels: seq<string>, types: seq<string>)
    ensures levels == AddAll(levels0, LevelsOf(ms))
    ensures types == AddAll(types0, TypesOf(ms))
  {
    levels, types := levels0, types0;
    assert ms[..0] == [];
    for j := 0 to |ms|
      invariant levels == AddAll(levels0, LevelsOf(ms[..j]))
      invariant types == AddAll(types0, TypesOf(ms[..j]))
    {
      var product := ms[j];
      var level := if product.processingLevel != "" then [product.processingLevel] else [];
      assert ms[..j + 1][..j] == ms[..j];
      assert LevelsOf(ms[..j + 1]) == LevelsOf(ms[..j]) + level;
      assert TypesOf(ms[..j + 1]) == TypesOf(ms[..j]) + product.productType.GetOr([]);
      AddAllAppend(levels0, LevelsOf(ms[..j]), level);
      AddAllAppend(types0, TypesOf(ms[..j]), product.productType.GetOr([]));
      if product.processingLevel != "" {
        levels := AddEach(levels, [product.processingLevel]);
      }
      if product.productType.Some? {
        types := AddEach(types, product.productType.value);
      }
    }
    assert ms[..|ms|] == ms;
  }

  /**
   * The processing levels and product types of the selected products, each
   * gathered into a set in the order the loops meet them.
   */
  method CollectProductFilters(selected: seq<string>, catalog: seq<Product>)
    returns (processingLevel: seq<string>, productType: seq<string>)
    ensures processingLevel == NewSet(Levels(selected, catalog))
    ensures productType == NewSet(Types(selected, catalog))
  {
    processingLevel, productType := [], [];
    for i := 0 to |selected|
      invariant processingLevel == AddAll([], Levels(selected[..i], catalog))
      invariant productType == AddAll([], Types(selected[..i], catalog))
    {
      var ms := Matching(selected[i], catalog);
      AddAllAppend([], Levels(selected[..i], catalog), LevelsOf(ms));
      AddAllAppend([], Types(selected[..i], catalog), TypesOf(ms));
      assert selected[..i + 1][..i] == selected[..i];
      processingLevel, productType := AddProducts(processingLevel, productType, ms);
    }
    assert selected[..|selected|] == selected;
  }

  /** A processing level is gathered iff some catalogue entry of a selected code has it. */
  lemma {:induction false} LevelsMember(codes: seq<string>, catalog: seq<Product>, x: string)
    ensures x in Levels(codes, catalog) <==>
      x != "" && exists p :: p in catalog && p.productCode in codes && p.processingLevel == x
  {
    if codes != [] {
      var init, last := codes[..|codes| - 1], codes[|codes| - 1];
      LevelsMember(init, catalog, x);
      LevelsOfMember(Matching(last, catalog), x);
      assert codes == init + [last];
      if x in Levels(codes, catalog) {
        if x in Levels(init, catalog) {
          var p :| p in catalog && p.productCode in init && p.processingLevel == x;
          assert p.productCode in codes;
        }
      }
      if x != "" && exists p :: p in catalog && p.productCode in codes && p.processingLevel == x {
        var p :| p in catalog && p.productCode in codes && p.processingLevel == x;
        if p.productCode != last {
          assert p.productCode in init;
        }
      }
    }
  }

  lemma {:induction false} LevelsOfMember(ps: seq<Product>, x: string)
    ensures x in LevelsOf(ps) <==> x != "" && exists p :: p in ps && p.processingLevel == x
  {
    if ps != [] {
      var init := ps[..|ps| - 1];
      LevelsOfMember(init, x);
      assert ps == init + [ps[|ps| - 1]];
    }
  }

  // ---------------------------------------------------------------------------
  // The query body
  // ---------------------------------------------------------------------------

  function Strs(xs: seq<string>): (r: seq<Value>)
    ensures |r| == |xs| && forall i :: 0 <= i < |xs| ==> r[i] == Str(xs[i])
  {
    if xs == [] then [] else [Str(xs[0])] + Strs(xs[1..])
  }

  function Nums(xs: seq<real>): (r: seq<Value>)
    ensures |r| == |xs| && forall i :: 0 <= i < |xs| ==> r[i] == Num(xs[i])
  {
    if xs == [] then [] else [Num(xs[0])] + Nums(xs[1..])
  }

  /** `{in: [...]}`. */
  function InFilter(xs: seq<string>): Value {
    Obj(map["in" := Arr(Strs(xs))])
  }

  /** A custom filter counts only when its property, operator and value are all non-empty. */
  predicate Complete(f: CustomFilter) {
    f.property != "" && f.operator != "" && f.value != ""
  }

  /** The value sent for a custom filter: its number when it reads as one, else the text. */
  function ParsedValue(value: string, asNumber: string -> Option<real>): Value {
    match asNumber(value)
    case Some(n) => Num(n)
    case None => Str(value)
  }

  /** `Object.fromEntries` over the complete custom filters: `property -> {operator: value}`, later ones winning. */
  function CustomEntries(custom: seq<CustomFilter>, asNumber: string -> Option<real>): map<string, Value> {
    if custom == [] then map[]
    else
      var m := CustomEntries(custom[..|custom| - 1], asNumber);
      var f := custom[|custom| - 1];
      if Complete(f) then m[f.property := Obj(map[f.operator := ParsedValue(f.value, asNumber)])] else m
  }

  /** Filter `i` is complete and no later complete filter names the same property. */
  predicate LastComplete(custom: seq<CustomFilter>, i: int) {
    && 0 <= i < |custom| && Complete(custom[i])
    && forall j :: i < j < |custom| && Complete(custom[j]) ==> custom[j].property != custom[i].property
  }

  /** A property has an entry iff some complete filter names it. */
  lemma {:induction false} CustomEntriesKeys(custom: seq<CustomFilter>, asNumber: string -> Option<real>, k: string)
    ensures k in CustomEntries(custom, asNumber) <==>
      exists i :: 0 <= i < |custom| && Complete(custom[i]) && custom[i].property == k
  {
    if custom != [] {
      var n := |custom| - 1;
      var init := custom[..n];
      CustomEntriesKeys(init, asNumber, k);
      if exists i :: 0 <= i < |custom| && Complete(custom[i]) && custom[i].property == k {
        var i :| 0 <= i < |custom| && Complete(custom[i]) && custom[i].property == k;
        if i < n {
          assert init[i] == custom[i];
        }
      }
      if k in CustomEntries(init, asNumber) {
        var i :| 0 <= i < |init| && Complete(init[i]) && init[i].property == k;
        assert custom[i] == init[i];
      }
    }
  }

  /** The entry of a property is that of the last complete filter naming it. */
  lemma {:induction false} CustomEntriesLast(custom: seq<CustomFilter>, asNumber: string -> Option<real>, i: int)
    requires LastComplete(custom, i)
    ensures custom[i].property in CustomEntries(custom, asNumber)
    ensures CustomEntries(custom, asNumber)[custom[i].property]
      == Obj(map[custom[i].operator := ParsedValue(custom[i].value, asNumber)])
  {
    var n := |custom| - 1;
    var init := custom[..n];
    if i < n {
      assert init[i] == custom[i];
      assert LastComplete(init, i) by {
        forall j | i < j < |init| && Complete(init[j])
          ensures init[j].property != init[i].property
        {
          assert init[j] == custom[j];
        }
      }
      CustomEntriesLast(init, asNumber, i);
    }
  }

  /** `m` with `k` set to `v` when `cond` holds. */
  function PutIf(m: map<string, Value>, cond: bool, k: string, v: Value): map<string, Value> {
    if cond then m[k := v] else m
  }

  /** The criteria of the query before the custom entries are spread over them, in the order they are written. */
  function FixedQuery(
    fs: FilterState, startTime: Option<string>, yesterday: string, endTime: Option<string>,
    processingLevel: seq<string>, productType: seq<string>): map<string, Value>
  {
    var m := map["latest" := Obj(map["eq" := Bool(true)])];
    var m := PutIf(m, |fs.datasets| > 0, "dataset", InFilter(fs.datasets));
    var m := m["end_datetime" := Obj(map["gte" := Str(startTime.GetOr(yesterday))])];
    var m := PutIf(m, endTime.Some?, "start_datetime", Obj(map["lte" := Str(endTime.GetOr(""))]));
    var m := PutIf(m, |fs.platforms| > 0, "platform", InFilter(fs.platforms));
    var m := PutIf(m, |processingLevel| > 0, "processing:level", InFilter(processingLevel));
    PutIf(m, |productType| > 0, "product:type", InFilter(productType))
  }

  /**
   * The fixed criteria: `latest` and `end_datetime` always; `dataset`,
   * `platform`, `processing:level` and `product:type` exactly when their sets
   * are non-empty; `start_datetime` exactly when an end time is set.
   */
  lemma FixedQuerySpec(
    fs: FilterState, startTime: Option<string>, yesterday: string, endTime: Option<string>,
    processingLevel: seq<string>, productType: seq<string>)
    ensures var q := FixedQuery(fs, startTime, yesterday, endTime, processingLevel, productType);
      && q.Keys <= {"latest", "dataset", "end_datetime", "start_datetime", "platform", "processing:level", "product:type"}
      && "latest" in q && q["latest"] == Obj(map["eq" := Bool(true)])
      && "end_datetime" in q && q["end_datetime"] == Obj(map["gte" := Str(startTime.GetOr(yesterday))])
      && ("dataset" in q <==> |fs.datasets| > 0)
      && ("dataset" in q ==> q["dataset"] == InFilter(fs.datasets))
      && ("start_datetime" in q <==> endTime.Some?)
      && (endTime.Some? ==> q["start_datetime"] == Obj(map["lte" := Str(endTime.value)]))
      && ("platform" in q <==> |fs.platforms| > 0)
      && ("platform" in q ==> q["platform"] == InFilter(fs.platforms))
      && ("processing:level" in q <==> |processingLevel| > 0)
      && ("processing:level" in q ==> q["processing:level"] == InFilter(processingLevel))
      && ("product:type" in q <==> |productType| > 0)
      && ("product:type" in q ==> q["product:type"] == InFilter(productType))
  {
    FixedQueryKeys(fs, startTime, yesterday, endTime, processingLevel, productType);
    FixedQueryAlways(fs, startTime, yesterday, endTime, processingLevel, productType);
    FixedQueryDatasetAndEnd(fs, startTime, yesterday, endTime, processingLevel, productType);
    FixedQueryPlatformAndLevels(fs, startTime, yesterday, endTime, processingLevel, productType);
  }

  lemma FixedQueryKeys(
    fs: FilterState, startTime: Option<string>, yesterday: string, endTime: Option<string>,
    processingLevel: seq<string>, productType: seq<string>)
    ensures FixedQuery(fs, startTime, yesterday, endTime, processingLevel, productType).Keys
      <= {"latest", "dataset", "end_datetime", "start_datetime", "platform", "processing:level", "product:type"}
  {
  }

  lemma FixedQueryAlways(
    fs: FilterState, startTime: Option<string>, yesterday: string, endTime: Option<string>,
    processingLevel: seq<string>, productType: seq<string>)
    ensures var q := FixedQuery(fs, startTime, yesterday, endTime, processingLevel, productType);
      && "latest" in q && q["latest"] == Obj(map["eq" := Bool(true)])
      && "end_datetime" in q && q["end_datetime"] == Obj(map["gte" := Str(startTime.GetOr(yesterday))])
  {
  }

  lemma FixedQueryDatasetAndEnd(
    fs: FilterState, startTime: Option<string>, yesterday: string, endTime: Option<string>,
    processingLevel: seq<string>, productType: seq<string>)
    ensures var q := FixedQuery(fs, startTime, yesterday, endTime, processingLevel, productType);
      && ("dataset" in q <==> |fs.datasets| > 0)
      && ("dataset" in q ==> q["dataset"] == InFilter(fs.datasets))
      && ("start_datetime" in q <==> endTime.Some?)
      && (endTime.Some? ==> q["start_datetime"] == Obj(map["lte" := Str(endTime.value)]))
  {
  }

  lemma FixedQueryPlatformAndLevels(
    fs: FilterState, startTime: Option<string>, yesterday: string, endTime: Option<string>,
    processingLevel: seq<string>, productType: seq<string>)
    ensures var q := FixedQuery(fs, startTime, yesterday, endTime, processingLevel, productType);
      && ("platform" in q <==> |fs.platforms| > 0)
      && ("platform" in q ==> q["platform"] == InFilter(fs.platforms))
      && ("processing:level" in q <==> |processingLevel| > 0)
      && ("processing:level" in q ==> q["processing:level"] == InFilter(processingLevel))
      && ("product:type" in q <==> |productType| > 0)
      && ("product:type" in q ==> q["product:type"] == InFilter(productType))
  {
  }

  /** The query: the fixed criteria with the custom entries spread over them. */
  function Query(
    fs: FilterState, startTime: Option<string>, yesterday: string, endTime: Option<string>,
    processingLevel: seq<string>, productType: seq<string>, asNumber: string -> Option<real>): map<string, Value>
  {
    FixedQuery(fs, startTime, yesterday, endTime, processingLevel, productType) + CustomEntries(fs.custom, asNumber)
  }

  /** The page size of a search. */
  const PageSize: int := 12

  /** The body `fetchResults` posts. */
  function QueryBody(
    bbox: seq<real>, page: int, fs: FilterState, startTime: Option<string>, yesterday: string,
    endTime: Option<string>, processingLevel: seq<string>, productType: seq<string>,
    asNumber: string -> Option<real>): Value
  {
    Obj(map[
      "bbox" := Arr(Nums(bbox)),
      "limit" := Num(PageSize as real),
      "page" := Num(page as real),
      "query" := Obj(Query(fs, startTime, yesterday, endTime, processingLevel, productType, asNumber)),
      "sortBy" := Arr([Obj(map["direction" := Str("desc"), "field" := Str("start_datetime")])])])
  }

  /**
   * A property is in the query iff it is a fixed criterion or a complete
   * custom filter names it; the last such filter's entry wins over the fixed
   * criterion.
   */
  lemma QuerySpec(
    fs: FilterState, startTime: Option<string>, yesterday: string, endTime: Option<string>,
    processingLevel: seq<string>, productType: seq<string>, asNumber: string -> Option<real>, k: string)
    ensures var q := Query(fs, startTime, yesterday, endTime, processingLevel, productType, asNumber);
      var fixed := FixedQuery(fs, startTime, yesterday, endTime, processingLevel, productType);
      && (k in q <==> k in fixed || exists i :: 0 <= i < |fs.custom| && Complete(fs.custom[i]) && fs.custom[i].property == k)
      && ((k in fixed && forall i :: 0 <= i < |fs.custom| && Complete(fs.custom[i]) ==> fs.custom[i].property != k) ==>
            q[k] == fixed[k])
      && (forall i :: LastComplete(fs.custom, i) && fs.custom[i].property == k ==>
            q[k] == Obj(map[fs.custom[i].operator := ParsedValue(fs.custom[i].value, asNumber)]))
  {
    CustomEntriesKeys(fs.custom, asNumber, k);
    forall i | LastComplete(fs.custom, i) && fs.custom[i].property == k
      ensures k in CustomEntries(fs.custom, asNumber)
      ensures CustomEntries(fs.custom, asNumber)[k] == Obj(map[fs.custom[i].operator := ParsedValue(fs.custom[i].value, asNumber)])
    {
      CustomEntriesLast(fs.custom, asNumber, i);
    }
  }

  // ---------------------------------------------------------------------------
  // Pages
  // ---------------------------------------------------------------------------

  /** `Math.ceil(a / b)` for a non-zero divisor. */
  function CeilDiv(a: int, b: int): int
    requires b != 0
  {
    if b > 0 then -((-a) / b) else -(a / (-b))
  }

  /** The rounded-up quotient is the least multiple count that covers `a`. */
  lemma CeilDivSpec(a: int, b: int)
    requires b > 0
    ensures (CeilDiv(a, b) - 1) * b < a <= CeilDiv(a, b) * b
  {
    var q, m := (-a) / b, (-a) % b;
    assert -a == b * q + m && 0 <= m < b;
    assert CeilDiv(a, b) == -q;
    assert (-q - 1) * b == -(b * q) - b;
    assert -q * b == -(b * q);
  }

  /** `Math.ceil(matched / limit)`; None for a zero limit, where the quotient is not finite. */
  function PageCount(matched: int, limit: int): Option<int> {
    if limit == 0 then None else Some(CeilDiv(matched, limit))
  }

  /** What a search request comes back with. */
  datatype FetchOutcome = NoData | Failed | Data(features: seq<StacItem>, matched: int, limit: int)

  /** Item `i` is the first with this id. */
  predicate FirstWithId(results: seq<StacItem>, id: string, i: int) {
    && 0 <= i < |results| && results[i].id == id
    && forall j :: 0 <= j < i ==> results[j].id != id
  }

  /** `results.find(item => item.id === id)`. */
  function FindItem(results: seq<StacItem>, id: string): (r: Option<StacItem>)
    ensures r.None? <==> forall i :: 0 <= i < |results| ==> results[i].id != id
    ensures r.Some? ==> exists i :: FirstWithId(results, id, i) && results[i] == r.value
  {
    if results == [] then None
    else if results[0].id == id then Some(results[0])
    else
      var r := FindItem(results[1..], id);
      assert forall i :: 1 <= i < |results| ==> results[i] == results[1..][i - 1];
      if r.Some? then
        assert exists i :: FirstWithId(results, id, i) && results[i] == r.value by {
          var i :| FirstWithId(results[1..], id, i) && results[1..][i] == r.value;
          assert results[i + 1] == r.value;
          forall j | 0 <= j < i + 1
            ensures results[j].id != id
          {
            if j > 0 {
              assert results[j] == results[1..][j - 1];
            }
          }
        }
        r
      else r
  }

  /** The key the filter state is saved under. */
  const StacFiltersKey: string := "jupytergis:stac-filters"

  const WorldBBox: seq<real> := [-180.0, -90.0, 180.0, 90.0]

  /** The hook's state. */
  class StacSearchState {
    var results: seq<StacItem>
    var isLoading: bool
    /** None stands for a page count that is not a finite number. */
    var totalPages: Option<int>
    var currentPage: int
    var totalResults: int
    var startTime: Option<string>
    var endTime: Option<string>
    var currentBBox: seq<real>
    var filterState: FilterState
    /** The state-database entry under `StacFiltersKey`; None when there is none. */
    var savedFilters: Option<SavedFilterState>

    constructor (saved: Option<SavedFilterState>)
      ensures results == [] && !isLoading && totalPages == Some(1) && currentPage == 1 && totalResults == 0
      ensures startTime == None && endTime == None && currentBBox == WorldBBox
      ensures filterState == EmptyFilterState() && savedFilters == saved
    {
      results := [];
      isLoading := false;
      totalPages := Some(1);
      currentPage := 1;
      totalResults := 0;
      startTime := None;
      endTime := None;
      currentBBox := WorldBBox;
      filterState := EmptyFilterState();
      savedFilters := saved;
    }

    /** `loadStacStateFromDb`: a missing entry loads as the empty state. */
    method LoadFromDb()
      modifies this
      ensures filterState == LoadFilterState(old(savedFilters).GetOr(NotAnObject))
      ensures savedFilters == old(savedFilters) && results == old(results) && currentPage == old(currentPage)
      ensures totalPages == old(totalPages) && totalResults == old(totalResults) && isLoading == old(isLoading)
      ensures startTime == old(startTime) && endTime == old(endTime) && currentBBox == old(currentBBox)
    {
      filterState := LoadFilterState(savedFilters.GetOr(NotAnObject));
    }

    /** `saveStacFilterStateToDb`. */
    method SaveToDb()
      modifies this
      ensures savedFilters == Some(SaveFilterState(filterState))
      ensures filterState == old(filterState) && results == old(results) && currentPage == old(currentPage)
      ensures totalPages == old(totalPages) && totalResults == old(totalResults) && isLoading == old(isLoading)
      ensures startTime == old(startTime) && endTime == old(endTime) && currentBBox == old(currentBBox)
    {
      savedFilters := Some(SaveFilterState(filterState));
    }

    /**
     * The bookkeeping after a request: data sets the results, the page count
     * and the total; no data or an error resets them to `[]`, 1 and 0.
     */
    method ApplyOutcome(outcome: FetchOutcome)
      modifies this
      ensures results == (if outcome.Data? then outcome.features else [])
      ensures totalPages == (if outcome.Data? then PageCount(outcome.matched, outcome.limit) else Some(1))
      ensures totalResults == (if outcome.Data? then outcome.matched else 0)
      ensures !isLoading
      ensures currentPage == old(currentPage) && filterState == old(filterState) && savedFilters == old(savedFilters)
      ensures startTime == old(startTime) && endTime == old(endTime) && currentBBox == old(currentBBox)
    {
      match outcome {
        case NoData =>
          results, totalPages, totalResults := [], Some(1), 0;
        case Failed =>
          results, totalPages, totalResults := [], Some(1), 0;
        case Data(features, matched, limit) =>
          results := features;
          totalPages := PageCount(matched, limit);
          totalResults := matched;
      }
      isLoading := false;
    }

    /**
     * `fetchResults(page)`: builds the body from the current state; without
     * a model nothing is sent and only the loading flag is cleared.
     */
    method FetchResults(page: int, hasModel: bool, outcome: FetchOutcome, yesterday: string,
                        catalog: seq<Product>, asNumber: string -> Option<real>)
      returns (body: Value)
      modifies this
      ensures body == QueryBody(old(currentBBox), page, old(filterState), old(startTime), yesterday, old(endTime),
        NewSet(Levels(old(filterState).products, catalog)), NewSet(Types(old(filterState).products, catalog)), asNumber)
      ensures results == (if !hasModel then old(results) else if outcome.Data? then outcome.features else [])
      ensures totalPages == (if !hasModel then old(totalPages)
        else if outcome.Data? then PageCount(outcome.matched, outcome.limit) else Some(1))
      ensures totalResults == (if !hasModel then old(totalResults) else if outcome.Data? then outcome.matched else 0)
      ensures !isLoading
      ensures currentPage == old(currentPage) && filterState == old(filterState) && savedFilters == old(savedFilters)
      ensures startTime == old(startTime) && endTime == old(endTime) && currentBBox == old(currentBBox)
    {
      var processingLevel, productType := CollectProductFilters(filterState.products, catalog);
      body := QueryBody(currentBBox, page, filterState, startTime, yesterday, endTime,
        processingLevel, productType, asNumber);
      isLoading := true;
      if !hasModel {
        isLoading := false;
        return;
      }
      ApplyOutcome(outcome);
    }

    /** A change of filters or times goes back to page 1 and searches again, except on the first render. */
    method OnFiltersChanged(isFirstRender: bool, hasModel: bool, outcome: FetchOutcome, yesterday: string,
                            catalog: seq<Product>, asNumber: string -> Option<real>)
      returns (body: Option<Value>)
      modifies this
      ensures body == if isFirstRender then None
        else Some(QueryBody(old(currentBBox), 1, old(filterState), old(startTime), yesterday, old(endTime),
          NewSet(Levels(old(filterState).products, catalog)), NewSet(Types(old(filterState).products, catalog)), asNumber))
      ensures currentPage == if isFirstRender then old(currentPage) else 1
      ensures isFirstRender ==> results == old(results) && totalPages == old(totalPages) && totalResults == old(totalResults)
      ensures !isFirstRender ==>
        && results == (if !hasModel then old(results) else if outcome.Data? then outcome.features else [])
        && totalPages == (if !hasModel then old(totalPages)
             else if outcome.Data? then PageCount(outcome.matched, outcome.limit) else Some(1))
        && totalResults == (if !hasModel then old(totalResults) else if outcome.Data? then outcome.matched else 0)
      ensures isLoading == if isFirstRender then old(isLoading) else false
      ensures filterState == old(filterState) && savedFilters == old(savedFilters)
      ensures startTime == old(startTime) && endTime == old(endTime) && currentBBox == old(currentBBox)
    {
      body := None;
      if !isFirstRender {
        currentPage := 1;
        var b := FetchResults(1, hasModel, outcome, yesterday, catalog, asNumber);
        body := Some(b);
      }
    }

    /** `handlePaginationClick`: moves to the page, then searches it when there is a model. */
    method HandlePaginationClick(page: int, hasModel: bool, outcome: FetchOutcome, yesterday: string,
                                 catalog: seq<Product>, asNumber: string -> Option<real>)
      returns (body: Option<Value>)
      modifies this
      ensures body == if !hasModel then None
        else Some(QueryBody(old(currentBBox), page, old(filterState), old(startTime), yesterday, old(endTime),
          NewSet(Levels(old(filterState).products, catalog)), NewSet(Types(old(filterState).products, catalog)), asNumber))
      ensures currentPage == page
      ensures isLoading == if hasModel then false else old(isLoading)
      ensures results == (if !hasModel then old(results) else if outcome.Data? then outcome.features else [])
      ensures totalPages == (if !hasModel then old(totalPages)
        else if outcome.Data? then PageCount(outcome.matched, outcome.limit) else Some(1))
      ensures totalResults == (if !hasModel then old(totalResults) else if outcome.Data? then outcome.matched else 0)
      ensures filterState == old(filterState) && savedFilters == old(savedFilters)
      ensures startTime == old(startTime) && endTime == old(endTime) && currentBBox == old(currentBBox)
    {
      currentPage := page;
      body := None;
      if hasModel {
        var b := FetchResults(page, hasModel, outcome, yesterday, catalog, asNumber);
        body := Some(b);
      }
    }

    /**
     * `handleAddCustomFilter`: drops the saved entry and appends one filter
     * with the operator's text; everything else in the filter state stays.
     */
    method HandleAddCustomFilter(property: string, op: StacFilterOperator, value: string)
      modifies this
      ensures savedFilters == None
      ensures filterState == old(filterState).(custom := old(filterState).custom
        + [CustomFilter(property, TextString(OperatorSymbolToText(op)), value)])
      ensures results == old(results) && currentPage == old(currentPage) && totalPages == old(totalPages)
      ensures totalResults == old(totalResults) && isLoading == old(isLoading)
      ensures startTime == old(startTime) && endTime == old(endTime) && currentBBox == old(currentBBox)
    {
      savedFilters := None;
      var textOperator := TextString(OperatorSymbolToText(op));
      filterState := filterState.(custom := filterState.custom + [CustomFilter(property, textOperator, value)]);
    }

    /** The map's resolution signal sets the bounding box. */
    method OnResolutionChanged(bbox: seq<real>)
      modifies this
      ensures currentBBox == bbox
      ensures filterState == old(filterState) && savedFilters == old(savedFilters) && results == old(results)
      ensures currentPage == old(currentPage) && totalPages == old(totalPages) && totalResults == old(totalResults)
      ensures isLoading == old(isLoading) && startTime == old(startTime) && endTime == old(endTime)
    {
      currentBBox := bbox;
    }

    /**
     * `handleResultClick`: an id that is not among the results adds nothing;
     * otherwise the result is added to the model, when there is one, as a
     * visible `StacLayer` under the fresh id `layerId`.
     */
    method HandleResultClick(model: Option<JupyterGISModel>, layerId: string, id: string)
      modifies if model.Some? then {model.value.sharedModel} else {}
      ensures model.Some? ==> var doc := model.value.sharedModel;
        && doc.layers == LayersAfterClick(old(doc.layers), results, id, layerId)
        && doc.layerTree == TreeAfterClick(old(doc.layerTree), results, id, layerId)
        && doc.sources == old(doc.sources) && doc.options == old(doc.options)
    {
      var stacData := FindItem(results, id);
      if stacData.None? {
        return;
      }
      if model.Some? {
        model.value.AddLayer(layerId, StacLayer(stacData.value), None, None);
      }
    }
  }

  /** The layer store after a click on result `id` under the fresh id `layerId`. */
  function LayersAfterClick(layers: map<string, Layer>, results: seq<StacItem>, id: string, layerId: string)
    : map<string, Layer>
  {
    match FindItem(results, id)
    case None => layers
    case Some(item) => if layerId in layers then layers else layers[layerId := StacLayer(item)]
  }

  /** The layer tree after a click on result `id` under the fresh id `layerId`. */
  function TreeAfterClick(tree: seq<LayerItem>, results: seq<StacItem>, id: string, layerId: string): seq<LayerItem> {
    if FindItem(results, id).None? then tree else TreeAfterAdd(tree, Leaf(layerId), None, None)
  }

  /** A layer added at the root goes last in the render order. */
  lemma AddRootLeafLast(tree: seq<LayerItem>, layerId: string)
    ensures Flatten(TreeAfterAdd(tree, Leaf(layerId), None, None)) == Flatten(tree) + [layerId]
  {
    var r := TreeAfterAdd(tree, Leaf(layerId), None, None);
    assert r == tree + [Leaf(layerId)];
    FlattenAppend(tree, [Leaf(layerId)]);
    FlattenOne(Leaf(layerId));
  }

  /**
   * A result clicked twice under two fresh ids is added twice: two layers
   * with the same content, both named by `formatResult`; no other layer changes.
   */
  lemma ClickedResultTwice(results: seq<StacItem>, id: string, layers: map<string, Layer>, l1: string, l2: string)
    requires FindItem(results, id).Some? && l1 != l2 && l1 !in layers && l2 !in layers
    ensures var item := FindItem(results, id).value;
      var after := LayersAfterClick(LayersAfterClick(layers, results, id, l1), results, id, l2);
      && after.Keys == layers.Keys + {l1, l2}
      && after[l1] == StacLayer(item) && after[l2] == StacLayer(item)
      && after[l1].name == FormatResult(item) && item.id == id
      && (forall k :: k in layers ==> after[k] == layers[k])
  {
    var item := FindItem(results, id).value;
    var mid := LayersAfterClick(layers, results, id, l1);
    assert mid == layers[l1 := StacLayer(item)];
  }

  /** Both clicks put their ids last in the render order, in click order. */
  lemma ClickedResultTwiceOrder(results: seq<StacItem>, id: string, tree: seq<LayerItem>, l1: string, l2: string)
    requires FindItem(results, id).Some?
    ensures Flatten(TreeAfterClick(TreeAfterClick(tree, results, id, l1), results, id, l2)) == Flatten(tree) + [l1, l2]
  {
    var t1 := TreeAfterClick(tree, results, id, l1);
    AddRootLeafLast(tree, l1);
    AddRootLeafLast(t1, l2);
    assert Flatten(tree) + [l1] + [l2] == Flatten(tree) + [l1, l2];
  }
}
