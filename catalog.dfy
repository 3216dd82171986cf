/**
 * The configuration catalog (`configurationData`): one record per engine+trim combination of a
 * car model, as loaded once per page, and the option lists both configurator pages derive from
 * it.
 *
 * JSON `null` and a missing field are both `None`. A `null` list (`year_obj`,
 * `accessories_id`, `_colors`) behaves like an empty one wherever the pages read it, so lists
 * are plain sequences; `color_options` is the exception, since an empty list there is truthy
 * and is treated differently from a missing one.
 */
module Catalog {
  import opened Wrappers
  import opened Seqs
  import opened Dedup
  import opened StableSort

  datatype Engine = Engine(id: int, name: string, priceAdjustment: Option<int>)
  datatype Trim = Trim(id: int, name: string, priceAdjustment: Option<int>)
  datatype YearObj = YearObj(year: int, yearCode: string, price: Option<int>)
  datatype ColorOption = ColorOption(colorName: string, code: Option<string>,
                                     priceAdjustment: Option<int>, isActive: bool)
  datatype Accessory = Accessory(id: int, name: string, priceAdjustment: Option<int>)
  /** An entry of a combination's `_colors` list. */
  datatype Colour = Colour(id: int, name: string)

  datatype Combination = Combination(
    engines: seq<Engine>,
    trims: seq<Trim>,
    trimPrice: int,
    yearObj: seq<YearObj>,
    colorOptions: Option<seq<ColorOption>>,
    accessoriesId: seq<seq<Accessory>>,
    colors: seq<Colour>)

  /** `x || 0` for an optional price: a missing adjustment counts as 0. */
  function Adj(o: Option<int>): (r: int)
    ensures o.None? ==> r == 0
    ensures o.Some? ==> r == o.value
  {
    match o
    case None => 0
    case Some(v) => v
  }

  /** JavaScript truthiness of an optional id or year: `null` and `0` are falsy. */
  predicate Truthy(o: Option<int>) {
    o.Some? && o.value != 0
  }

  function EngineId(e: Engine): int { e.id }
  function TrimId(t: Trim): int { t.id }
  function ColourId(c: Colour): int { c.id }

  /** `config._engines.some(engine => engine.id === id)`. */
  predicate HasEngine(c: Combination, id: int) {
    exists e :: e in c.engines && e.id == id
  }

  predicate HasTrim(c: Combination, id: int) {
    exists t :: t in c.trims && t.id == id
  }

  /**
   * The same test against a selection field, which is parsed with `parseInt` first: a `null`
   * selection parses to `NaN` and matches nothing.
   */
  predicate MatchesEngine(c: Combination, sel: Option<int>) {
    sel.Some? && HasEngine(c, sel.value)
  }

  predicate MatchesTrim(c: Combination, sel: Option<int>) {
    sel.Some? && HasTrim(c, sel.value)
  }

  predicate HasYear(c: Combination, year: Option<int>) {
    exists y :: y in c.yearObj && Some(y.year) == year
  }

  // ---------------------------------------------------------------- engines

  function EngineGroups(data: seq<Combination>): (r: seq<seq<Engine>>)
    ensures |r| == |data|
    ensures forall i :: 0 <= i < |data| ==> r[i] == data[i].engines
  {
    if data == [] then [] else EngineGroups(data[..|data| - 1]) + [data[|data| - 1].engines]
  }

  /** Every engine of every combination, combination by combination. */
  function AllEngines(data: seq<Combination>): seq<Engine> {
    Concat(EngineGroups(data))
  }

  /** The engine radio list: the engines of the catalog de-duplicated by id, first seen first. */
  function EngineOptions(data: seq<Combination>): seq<Engine> {
    UniqueBy(AllEngines(data), EngineId)
  }

  lemma AllEnginesMember(data: seq<Combination>, e: Engine)
    ensures e in AllEngines(data) <==> exists k :: 0 <= k < |data| && e in data[k].engines
  {
    if e in AllEngines(data) {
      ConcatMember(EngineGroups(data), e);
    }
    if k :| 0 <= k < |data| && e in data[k].engines {
      ConcatIncludes(EngineGroups(data), k, e);
    }
  }

  /** The engine options have pairwise distinct ids and keep first-seen order. */
  lemma EngineOptionsDistinct(data: seq<Combination>)
    ensures forall i, j :: 0 <= i < j < |EngineOptions(data)| ==>
              EngineOptions(data)[i].id != EngineOptions(data)[j].id
    ensures KeySet(EngineOptions(data), EngineId) == KeySet(AllEngines(data), EngineId)
    ensures FirstSeen(AllEngines(data), EngineOptions(data), EngineId)
  {
    UniqueByDistinct(AllEngines(data), EngineId);
    UniqueByFirstSeen(AllEngines(data), EngineId);
  }

  /** Every engine option is an engine of some combination. */
  lemma EngineOptionsSound(data: seq<Combination>, o: Engine)
    requires o in EngineOptions(data)
    ensures exists k :: 0 <= k < |data| && o in data[k].engines
  {
    UniqueBySubset(AllEngines(data), EngineId, o);
    AllEnginesMember(data, o);
  }

  /** Every engine of every combination has its id among the engine options. */
  lemma EngineOptionsComplete(data: seq<Combination>, k: nat, e: Engine)
    requires k < |data| && e in data[k].engines
    ensures exists o :: o in EngineOptions(data) && o.id == e.id
  {
    var all, r := AllEngines(data), EngineOptions(data);
    UniqueByKeys(all, EngineId);
    AllEnginesMember(data, e);
    var i :| 0 <= i < |all| && all[i] == e;
    assert EngineId(all[i]) in KeySet(all, EngineId);
    var j :| 0 <= j < |r| && EngineId(r[j]) == e.id;
    assert r[j] in r;
  }

  // ---------------------------------------------------------------- trims

  function TrimGroups(data: seq<Combination>): (r: seq<seq<Trim>>)
    ensures |r| == |data|
    ensures forall i :: 0 <= i < |data| ==> r[i] == data[i].trims
  {
    if data == [] then [] else TrimGroups(data[..|data| - 1]) + [data[|data| - 1].trims]
  }

  /** The combinations offering engine `engineId`, in catalog order. */
  function EngineCombinations(data: seq<Combination>, engineId: int): seq<Combination> {
    Filter(data, c => HasEngine(c, engineId))
  }

  function TrimsOfEngine(data: seq<Combination>, engineId: int): seq<Trim> {
    Concat(TrimGroups(EngineCombinations(data, engineId)))
  }

  /** `getTrimsForEngine`: the trims of the engine's combinations, de-duplicated by id. */
  function TrimsForEngine(data: seq<Combination>, engineId: int): seq<Trim> {
    UniqueBy(TrimsOfEngine(data, engineId), TrimId)
  }

  lemma TrimsOfEngineMember(data: seq<Combination>, engineId: int, t: Trim)
    ensures t in TrimsOfEngine(data, engineId) <==>
              exists k :: 0 <= k < |data| && HasEngine(data[k], engineId) && t in data[k].trims
  {
    var rel := EngineCombinations(data, engineId);
    if t in TrimsOfEngine(data, engineId) {
      ConcatMember(TrimGroups(rel), t);
      var g :| 0 <= g < |rel| && t in TrimGroups(rel)[g];
      assert rel[g] in rel;
      var k :| 0 <= k < |data| && data[k] == rel[g];
    }
    if k :| 0 <= k < |data| && HasEngine(data[k], engineId) && t in data[k].trims {
      assert data[k] in data;
      var g :| 0 <= g < |rel| && rel[g] == data[k];
      ConcatIncludes(TrimGroups(rel), g, t);
    }
  }

  /** The trim options of an engine have pairwise distinct ids and keep first-seen order. */
  lemma TrimsForEngineDistinct(data: seq<Combination>, engineId: int)
    ensures forall i, j :: 0 <= i < j < |TrimsForEngine(data, engineId)| ==>
              TrimsForEngine(data, engineId)[i].id != TrimsForEngine(data, engineId)[j].id
    ensures KeySet(TrimsForEngine(data, engineId), TrimId) == KeySet(TrimsOfEngine(data, engineId), TrimId)
    ensures FirstSeen(TrimsOfEngine(data, engineId), TrimsForEngine(data, engineId), TrimId)
  {
    UniqueByDistinct(TrimsOfEngine(data, engineId), TrimId);
    UniqueByFirstSeen(TrimsOfEngine(data, engineId), TrimId);
  }

  /** Every trim option of an engine comes from a combination that offers the engine. */
  lemma TrimsForEngineScoped(data: seq<Combination>, engineId: int, t: Trim)
    requires t in TrimsForEngine(data, engineId)
    ensures exists k :: 0 <= k < |data| && HasEngine(data[k], engineId) && t in data[k].trims
  {
    UniqueBySubset(TrimsOfEngine(data, engineId), TrimId, t);
    TrimsOfEngineMember(data, engineId, t);
  }

  /** Every trim of a combination offering the engine has its id among the engine's options. */
  lemma TrimsForEngineComplete(data: seq<Combination>, engineId: int, k: nat, t: Trim)
    requires k < |data| && HasEngine(data[k], engineId) && t in data[k].trims
    ensures exists o :: o in TrimsForEngine(data, engineId) && o.id == t.id
  {
    var all, r := TrimsOfEngine(data, engineId), TrimsForEngine(data, engineId);
    UniqueByKeys(all, TrimId);
    TrimsOfEngineMember(data, engineId, t);
    var i :| 0 <= i < |all| && all[i] == t;
    assert TrimId(all[i]) in KeySet(all, TrimId);
    var j :| 0 <= j < |r| && TrimId(r[j]) == t.id;
    assert r[j] in r;
  }

  /** An engine that no combination offers has no trims. */
  lemma {:induction false} TrimsForUnknownEngine(data: seq<Combination>, engineId: int)
    requires forall k :: 0 <= k < |data| ==> !HasEngine(data[k], engineId)
    ensures TrimsForEngine(data, engineId) == []
  {
    var rel := EngineCombinations(data, engineId);
    FilterNone(data, c => HasEngine(c, engineId));
    assert TrimGroups(rel) == [];
  }

  /**
   * The price shown on a trim's radio: `trim_price` of the first combination in the catalog that
   * contains the trim, whatever its engine; 0 when none does.
   */
  function TrimPrice(data: seq<Combination>, trimId: int): (r: int)
    ensures (forall k :: 0 <= k < |data| ==> !HasTrim(data[k], trimId)) ==> r == 0
    ensures forall k :: (0 <= k < |data| && HasTrim(data[k], trimId) &&
                         (forall j :: 0 <= j < k ==> !HasTrim(data[j], trimId)))
                        ==> r == data[k].trimPrice
  {
    match FirstWhere(data, c => HasTrim(c, trimId))
    case None => 0
    case Some(k) => data[k].trimPrice
  }

  // ---------------------------------------------------------------- combination lookups

  /** The first combination offering the selected engine and trim. */
  function EngineTrimCombination(data: seq<Combination>, engine: Option<int>, trim: Option<int>)
    : (r: Option<nat>)
    ensures r.Some? ==> r.value < |data| && MatchesEngine(data[r.value], engine)
                        && MatchesTrim(data[r.value], trim)
    ensures r.Some? ==> forall j :: 0 <= j < r.value ==>
                          !(MatchesEngine(data[j], engine) && MatchesTrim(data[j], trim))
    ensures r.None? ==> forall j :: 0 <= j < |data| ==>
                          !(MatchesEngine(data[j], engine) && MatchesTrim(data[j], trim))
  {
    FirstWhere(data, c => MatchesEngine(c, engine) && MatchesTrim(c, trim))
  }

  /** The first combination offering the selected engine and trim whose `year_obj` is non-empty. */
  function YearCombination(data: seq<Combination>, engine: Option<int>, trim: Option<int>)
    : (r: Option<nat>)
    ensures r.Some? ==> r.value < |data| && MatchesEngine(data[r.value], engine)
                        && MatchesTrim(data[r.value], trim) && |data[r.value].yearObj| > 0
    ensures r.Some? ==> forall j :: 0 <= j < r.value ==>
                          !(MatchesEngine(data[j], engine) && MatchesTrim(data[j], trim)
                            && |data[j].yearObj| > 0)
    ensures r.None? ==> forall j :: 0 <= j < |data| ==>
                          !(MatchesEngine(data[j], engine) && MatchesTrim(data[j], trim)
                            && |data[j].yearObj| > 0)
  {
    FirstWhere(data, c => MatchesEngine(c, engine) && MatchesTrim(c, trim) && |c.yearObj| > 0)
  }

  /** The first combination offering the selected engine and trim in the given model year. */
  function YearEditionCombination(data: seq<Combination>, engine: Option<int>, trim: Option<int>,
                                  year: Option<int>): (r: Option<nat>)
    ensures r.Some? ==> r.value < |data| && MatchesEngine(data[r.value], engine)
                        && MatchesTrim(data[r.value], trim) && HasYear(data[r.value], year)
    ensures r.Some? ==> forall j :: 0 <= j < r.value ==>
                          !(MatchesEngine(data[j], engine) && MatchesTrim(data[j], trim)
                            && HasYear(data[j], year))
    ensures r.None? ==> forall j :: 0 <= j < |data| ==>
                          !(MatchesEngine(data[j], engine) && MatchesTrim(data[j], trim)
                            && HasYear(data[j], year))
  {
    FirstWhere(data, c => MatchesEngine(c, engine) && MatchesTrim(c, trim) && HasYear(c, year))
  }

  /**
   * `b` is the catalog `a` with, at most, the `year_obj` lists of some combinations put in
   * another order: what sorting them in place leaves.
   */
  predicate SameCatalog(a: seq<Combination>, b: seq<Combination>) {
    |a| == |b| && (a != [] ==> YearsReordered(a[0], b[0]) && SameCatalog(a[1..], b[1..]))
  }

  /** Combination by combination: each one is the same but for the order of its years. */
  lemma {:induction false} SameCatalogAt(a: seq<Combination>, b: seq<Combination>, k: nat)
    requires SameCatalog(a, b) && k < |a|
    ensures |b| == |a| && YearsReordered(a[k], b[k])
  {
    if k > 0 {
      SameCatalogAt(a[1..], b[1..], k - 1);
    }
  }

  lemma SameCatalogRefl(a: seq<Combination>)
    ensures SameCatalog(a, a)
  {
    if a != [] {
      SameCatalogRefl(a[1..]);
    }
  }

  /** Reordering the years of one combination leaves the same catalog. */
  lemma {:induction false} SameCatalogUpdate(a: seq<Combination>, k: nat, c: Combination)
    requires k < |a| && YearsReordered(a[k], c)
    ensures SameCatalog(a, a[k := c])
  {
    if k == 0 {
      assert a[k := c][1..] == a[1..];
      SameCatalogRefl(a[1..]);
    } else {
      assert a[k := c][1..] == a[1..][k - 1 := c];
      SameCatalogUpdate(a[1..], k - 1, c);
    }
  }

  /** `d` is `c` with its `year_obj` list in some order. */
  predicate YearsReordered(c: Combination, d: Combination) {
    && d.engines == c.engines && d.trims == c.trims && d.trimPrice == c.trimPrice
    && d.colorOptions == c.colorOptions && d.accessoriesId == c.accessoriesId
    && d.colors == c.colors && multiset(d.yearObj) == multiset(c.yearObj)
  }

  /** `accessories_id?.[0] || []` of an optional combination. */
  function FirstAccessoryList(data: seq<Combination>, k: Option<nat>): (r: seq<Accessory>)
    requires k.Some? ==> k.value < |data|
    ensures k.None? ==> r == []
    ensures k.Some? && |data[k.value].accessoriesId| > 0 ==> r == data[k.value].accessoriesId[0]
    ensures k.Some? && |data[k.value].accessoriesId| == 0 ==> r == []
  {
    if k.Some? && |data[k.value].accessoriesId| > 0 then data[k.value].accessoriesId[0] else []
  }

  // ---------------------------------------------------------------- colours

  function IsActive(c: ColorOption): bool { c.isActive }

  /** `color_options.filter(color => color.is_active)`: catalog order, inactive ones dropped. */
  function ActiveColours(opts: seq<ColorOption>): seq<ColorOption> {
    Filter(opts, IsActive)
  }

  /** The colour comparator `(a.price_adjustment || 0) - (b.price_adjustment || 0)`, as "a may precede b". */
  function ColourLe(a: ColorOption, b: ColorOption): bool {
    Adj(a.priceAdjustment) <= Adj(b.priceAdjustment)
  }

  /** The active colours, stably sorted by ascending price adjustment. */
  function SortedActiveColours(opts: seq<ColorOption>): seq<ColorOption> {
    Sort(ActiveColours(opts), ColourLe)
  }

  lemma ColourLeTotalPreorder()
    ensures TotalPreorder(ColourLe)
  {
  }

  /**
   * The sorted colour list holds exactly the active colours (as a multiset), in ascending
   * order of adjustment, and colours with equal adjustments stay in catalog order.
   */
  lemma SortedActiveColoursSpec(opts: seq<ColorOption>)
    ensures multiset(SortedActiveColours(opts)) == multiset(ActiveColours(opts))
    ensures forall c :: c in SortedActiveColours(opts) ==> c in opts && c.isActive
    ensures forall c :: c in opts && c.isActive ==> c in SortedActiveColours(opts)
    ensures forall i, j :: 0 <= i < j < |SortedActiveColours(opts)| ==>
              Adj(SortedActiveColours(opts)[i].priceAdjustment)
              <= Adj(SortedActiveColours(opts)[j].priceAdjustment)
    ensures forall k :: Ties(SortedActiveColours(opts), k, ColourLe)
                        == Ties(ActiveColours(opts), k, ColourLe)
  {
    var act := ActiveColours(opts);
    SortPermutes(act, ColourLe);
    ColourLeTotalPreorder();
    SortSorted(act, ColourLe);
    forall k ensures Ties(Sort(act, ColourLe), k, ColourLe) == Ties(act, k, ColourLe) {
      SortStable(act, k, ColourLe);
    }
    forall c | c in SortedActiveColours(opts) ensures c in opts && c.isActive {
      assert c in multiset(act);
    }
    forall c | c in opts && c.isActive ensures c in SortedActiveColours(opts) {
      assert c in multiset(SortedActiveColours(opts));
    }
  }

  // ---------------------------------------------------------------- years

  /**
   * String order by UTF-16 code unit, standing in for `localeCompare`: `StrLe(a, b)` when `a`
   * sorts before or equal to `b`.
   */
  predicate StrLe(a: string, b: string) {
    if a == [] then true
    else if b == [] then false
    else if a[0] != b[0] then a[0] < b[0]
    else StrLe(a[1..], b[1..])
  }

  lemma {:induction false} StrLeTotal(a: string, b: string)
    ensures StrLe(a, b) || StrLe(b, a)
  {
    if a != [] && b != [] && a[0] == b[0] {
      StrLeTotal(a[1..], b[1..]);
    }
  }

  lemma {:induction false} StrLeTransitive(a: string, b: string, c: string)
    requires StrLe(a, b) && StrLe(b, c)
    ensures StrLe(a, c)
  {
    if a != [] && b != [] && c != [] && a[0] == b[0] && b[0] == c[0] {
      StrLeTransitive(a[1..], b[1..], c[1..]);
    }
  }

  lemma {:induction false} StrLeAntisymmetric(a: string, b: string)
    requires StrLe(a, b) && StrLe(b, a)
    ensures a == b
  {
    if a != [] && b != [] {
      StrLeAntisymmetric(a[1..], b[1..]);
      assert a == [a[0]] + a[1..] && b == [b[0]] + b[1..];
    }
  }

  /** The year comparator `b.year_code.localeCompare(a.year_code)`: newest code first. */
  function YearLe(a: YearObj, b: YearObj): bool {
    StrLe(b.yearCode, a.yearCode)
  }

  lemma YearLeTotalPreorder()
    ensures TotalPreorder(YearLe)
  {
    forall a: YearObj, b: YearObj ensures YearLe(a, b) || YearLe(b, a) {
      StrLeTotal(a.yearCode, b.yearCode);
    }
    forall a: YearObj, b: YearObj, c: YearObj | YearLe(a, b) && YearLe(b, c)
      ensures YearLe(a, c)
    {
      StrLeTransitive(c.yearCode, b.yearCode, a.yearCode);
    }
  }

  /** The year options: a `year_obj` list sorted by descending `year_code`. */
  function YearsDescending(ys: seq<YearObj>): seq<YearObj> {
    Sort(ys, YearLe)
  }

  /**
   * The sorted years are the same year objects, ordered by descending code; years sharing a
   * code keep their catalog order.
   */
  lemma YearsDescendingSpec(ys: seq<YearObj>)
    ensures multiset(YearsDescending(ys)) == multiset(ys)
    ensures forall i, j :: 0 <= i < j < |YearsDescending(ys)| ==>
              StrLe(YearsDescending(ys)[j].yearCode, YearsDescending(ys)[i].yearCode)
    ensures forall k :: Ties(YearsDescending(ys), k, YearLe) == Ties(ys, k, YearLe)
  {
    SortPermutes(ys, YearLe);
    YearLeTotalPreorder();
    SortSorted(ys, YearLe);
    forall k ensures Ties(Sort(ys, YearLe), k, YearLe) == Ties(ys, k, YearLe) {
      SortStable(ys, k, YearLe);
    }
  }

  /** Sorting the years of an already sorted list gives the same list. */
  lemma YearsDescendingIdempotent(ys: seq<YearObj>)
    ensures YearsDescending(YearsDescending(ys)) == YearsDescending(ys)
  {
    YearLeTotalPreorder();
    SortIdempotent(ys, YearLe);
  }

  // ---------------------------------------------------------------- `_colors`

  function ColourGroups(data: seq<Combination>): (r: seq<seq<Colour>>)
    ensures |r| == |data|
    ensures forall i :: 0 <= i < |data| ==> r[i] == data[i].colors
  {
    if data == [] then [] else ColourGroups(data[..|data| - 1]) + [data[|data| - 1].colors]
  }

  /** The combinations offering both the selected engine and the trim `trimId`. */
  function EngineTrimCombinations(data: seq<Combination>, engine: Option<int>, trimId: int)
    : seq<Combination>
  {
    Filter(data, c => MatchesEngine(c, engine) && HasTrim(c, trimId))
  }

  function ColoursOfTrim(data: seq<Combination>, engine: Option<int>, trimId: int): seq<Colour> {
    Concat(ColourGroups(EngineTrimCombinations(data, engine, trimId)))
  }

  /** `getColorsForTrim`: the `_colors` of every engine+trim combination, de-duplicated by id. */
  function ColoursForTrim(data: seq<Combination>, engine: Option<int>, trimId: int): seq<Colour> {
    UniqueBy(ColoursOfTrim(data, engine, trimId), ColourId)
  }

  /** The colours of a trim have pairwise distinct ids and keep first-seen order. */
  lemma ColoursForTrimDistinct(data: seq<Combination>, engine: Option<int>, trimId: int)
    ensures forall i, j :: 0 <= i < j < |ColoursForTrim(data, engine, trimId)| ==>
              ColoursForTrim(data, engine, trimId)[i].id
              != ColoursForTrim(data, engine, trimId)[j].id
    ensures KeySet(ColoursForTrim(data, engine, trimId), ColourId)
         == KeySet(ColoursOfTrim(data, engine, trimId), ColourId)
    ensures FirstSeen(ColoursOfTrim(data, engine, trimId), ColoursForTrim(data, engine, trimId),
                      ColourId)
  {
    UniqueByDistinct(ColoursOfTrim(data, engine, trimId), ColourId);
    UniqueByFirstSeen(ColoursOfTrim(data, engine, trimId), ColourId);
  }

  /** Each colour of a trim is a `_colors` entry of a combination offering the engine and trim. */
  lemma ColoursForTrimSound(data: seq<Combination>, engine: Option<int>, trimId: int, c: Colour)
    requires c in ColoursForTrim(data, engine, trimId)
    ensures exists k :: 0 <= k < |data| && MatchesEngine(data[k], engine)
                        && HasTrim(data[k], trimId) && c in data[k].colors
  {
    var rel := EngineTrimCombinations(data, engine, trimId);
    UniqueBySubset(ColoursOfTrim(data, engine, trimId), ColourId, c);
    ConcatMember(ColourGroups(rel), c);
    var g :| 0 <= g < |rel| && c in ColourGroups(rel)[g];
    assert rel[g] in rel;
    var k :| 0 <= k < |data| && data[k] == rel[g];
  }

  /** Every `_colors` entry of an engine+trim combination has its id among the trim's colours. */
  lemma ColoursForTrimComplete(data: seq<Combination>, engine: Option<int>, trimId: int,
                               k: nat, c: Colour)
    requires k < |data| && MatchesEngine(data[k], engine) && HasTrim(data[k], trimId)
    requires c in data[k].colors
    ensures exists o :: o in ColoursForTrim(data, engine, trimId) && o.id == c.id
  {
    var rel := EngineTrimCombinations(data, engine, trimId);
    var all, r := ColoursOfTrim(data, engine, trimId), ColoursForTrim(data, engine, trimId);
    UniqueByKeys(all, ColourId);
    assert data[k] in data;
    var g :| 0 <= g < |rel| && rel[g] == data[k];
    ConcatIncludes(ColourGroups(rel), g, c);
    var i :| 0 <= i < |all| && all[i] == c;
    assert ColourId(all[i]) in KeySet(all, ColourId);
    var j :| 0 <= j < |r| && ColourId(r[j]) == c.id;
    assert r[j] in r;
  }
}
