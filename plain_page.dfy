/**
 * The state of the plain configurator page (no model year, no stock list) and what each of
 * its handlers does to it, as pure step functions. The class in PlainConfigurator performs
 * the same steps in place and is proved equal to these functions.
 */
module PlainPage {
  import opened Wrappers
  import opened Seqs
  import opened Catalog
  import opened Pricing
  import opened Lookup
  import opened Dealers

  /** `currentConfig` of the plain page. */
  datatype Config = Config(
    model: Option<Model>,
    engine: Option<int>,
    trim: Option<int>,
    color: Option<string>,
    retail: Option<int>)

  /**
   * The rendered option groups, the index of the checked input of each radio group, and the
   * total written into the price displays by the last `updatePriceDisplays` (`None` before
   * the first one).
   */
  datatype Form = Form(
    engines: seq<Engine>, engineChecked: Option<nat>,
    trims: seq<Trim>, trimChecked: Option<nat>,
    colours: seq<ColorOption>, colourChecked: Option<nat>,
    accessories: seq<Accessory>, accessoriesChecked: set<nat>,
    shownTotal: Option<int>)

  /** The dealer pickers: the brand's dealers, the area choices and the dealer radios. */
  datatype Shop = Shop(
    dealers: seq<BrandDealer>,
    areas: seq<string>,
    dealerOptions: seq<BrandDealer>,
    dealerChecked: Option<nat>)

  datatype Page = Page(data: seq<Combination>, config: Config, form: Form, shop: Shop)

  const EmptyConfig := Config(None, None, None, None, None)
  const EmptyForm := Form([], None, [], None, [], None, [], {}, None)
  const EmptyShop := Shop([], [], [], None)

  /** The page as the constructor leaves it. */
  const InitialPage := Page([], EmptyConfig, EmptyForm, EmptyShop)

  predicate InRange(checked: Option<nat>, n: nat) {
    checked.Some? ==> checked.value < n
  }

  /**
   * The page's invariant: every checked radio is a rendered one, the checked engine, trim and
   * dealer are the ones the selection record names, and the checked accessories are rendered.
   * The checked swatch is NOT tied to the selected colour: rendering the swatches checks the
   * first one without selecting its colour.
   */
  predicate WellFormed(p: Page) {
    && InRange(p.form.engineChecked, |p.form.engines|)
    && (p.form.engineChecked.Some? ==>
          p.config.engine == Some(p.form.engines[p.form.engineChecked.value].id))
    && InRange(p.form.trimChecked, |p.form.trims|)
    && (p.form.trimChecked.Some? ==>
          p.config.trim == Some(p.form.trims[p.form.trimChecked.value].id))
    && InRange(p.form.colourChecked, |p.form.colours|)
    && (forall i :: i in p.form.accessoriesChecked ==> i < |p.form.accessories|)
    && InRange(p.shop.dealerChecked, |p.shop.dealerOptions|)
    && (p.shop.dealerChecked.Some? ==>
          p.config.retail == Some(p.shop.dealerOptions[p.shop.dealerChecked.value].dealersId))
  }

  lemma InitialPageWellFormed()
    ensures WellFormed(InitialPage)
  {
  }

  /** The dealer part, the model and the retail choice are untouched. */
  predicate SameDealerPart(p: Page, q: Page) {
    q.shop == p.shop && q.config.model == p.config.model && q.config.retail == p.config.retail
  }

  /** ... and so are the engine radios and the catalog. */
  predicate SameEnginePart(p: Page, q: Page) {
    SameDealerPart(p, q) && q.data == p.data && q.form.engines == p.form.engines
    && q.form.engineChecked == p.form.engineChecked
  }

  // ---------------------------------------------------------------- colours

  /**
   * The swatches `renderColorOptions` shows, whatever list it is handed: the active colour
   * options of the first combination with the selected engine and trim, in catalog order and
   * with their multiplicity: the j-th swatch is the option at the j-th active position.
   */
  function RenderedColours(data: seq<Combination>, engine: Option<int>, trim: Option<int>)
    : (r: seq<ColorOption>)
    ensures forall c :: c in r ==> c.isActive
    ensures EngineTrimCombination(data, engine, trim).None? ==> r == []
    ensures var k := EngineTrimCombination(data, engine, trim);
            k.Some? ==>
              (data[k.value].colorOptions.None? ==> r == [])
              && (data[k.value].colorOptions.Some? ==>
                    var opts := data[k.value].colorOptions.value;
                    var pos := Positions(opts, IsActive);
                    && (forall c :: c in r <==> c in opts && c.isActive)
                    && |r| == |pos| && forall j :: 0 <= j < |r| ==> r[j] == opts[pos[j]])
  {
    match EngineTrimCombination(data, engine, trim)
    case None => []
    case Some(k) =>
      match data[k].colorOptions
      case None => []
      case Some(opts) =>
        FilterPositions(opts, IsActive);
        ActiveColours(opts)
  }

  /**
   * `renderColorOptions`: the swatches are rebuilt and the first one is checked, but no
   * listener runs, so the selected colour is left as it was.
   */
  function RenderColourOptions(p: Page): (q: Page)
    ensures q.form.colours == RenderedColours(p.data, p.config.engine, p.config.trim)
    ensures q.form.colours != [] <==> q.form.colourChecked == Some(0)
    ensures q.form.colours == [] <==> q.form.colourChecked.None?
    ensures q.config == p.config
    ensures q == p.(form := p.form.(colours := q.form.colours, colourChecked := q.form.colourChecked))
  {
    var cs := RenderedColours(p.data, p.config.engine, p.config.trim);
    p.(form := p.form.(colours := cs, colourChecked := if cs != [] then Some(0) else None))
  }

  /** The user picks swatch `i`: its colour becomes the selection and the prices are refreshed. */
  function ColourSelected(p: Page, i: nat): (q: Page)
    requires i < |p.form.colours|
    ensures q.config.color == Some(p.form.colours[i].colorName)
    ensures q.form.colourChecked == Some(i)
    ensures q.form.shownTotal == Some(TotalPrice(q))
    ensures q == p.(config := p.config.(color := q.config.color),
                    form := p.form.(colourChecked := Some(i), shownTotal := q.form.shownTotal))
    ensures WellFormed(p) ==> WellFormed(q)
  {
    RefreshPrices(p.(config := p.config.(color := Some(p.form.colours[i].colorName)),
                     form := p.form.(colourChecked := Some(i))))
  }

  // ---------------------------------------------------------------- accessories

  /**
   * The accessories `renderAccessoryOptions` shows: `accessories_id[0]` of the first
   * combination with the selected engine and trim, rendered unchecked.
   */
  function RenderAccessoryOptions(p: Page): (q: Page)
    ensures q.form.accessories
         == FirstAccessoryList(p.data, EngineTrimCombination(p.data, p.config.engine, p.config.trim))
    ensures q.form.accessoriesChecked == {}
    ensures q == p.(form := p.form.(accessories := q.form.accessories, accessoriesChecked := {}))
  {
    var accs := FirstAccessoryList(p.data, EngineTrimCombination(p.data, p.config.engine,
                                                                 p.config.trim));
    p.(form := p.form.(accessories := accs, accessoriesChecked := {}))
  }

  /** The user ticks or unticks accessory checkbox `i`; the prices are refreshed. */
  function ToggleAccessory(p: Page, i: nat): (q: Page)
    requires i < |p.form.accessories|
    ensures i in q.form.accessoriesChecked <==> i !in p.form.accessoriesChecked
    ensures forall j :: j != i ==>
              (j in q.form.accessoriesChecked <==> j in p.form.accessoriesChecked)
    ensures q.form.shownTotal == Some(TotalPrice(q))
    ensures q == p.(form := p.form.(accessoriesChecked := q.form.accessoriesChecked,
                                    shownTotal := q.form.shownTotal))
    ensures WellFormed(p) ==> WellFormed(q)
  {
    var c := p.form.accessoriesChecked;
    RefreshPrices(p.(form := p.form.(accessoriesChecked := if i in c then c - {i} else c + {i})))
  }

  // ---------------------------------------------------------------- trims

  /**
   * `handleTrimChange(trimId)`: the trim becomes the selection and the swatches and
   * accessories of the engine and trim are rendered. The selected colour is not cleared: it
   * keeps naming the colour chosen under the previous trim while the first new swatch is
   * checked. The prices are not refreshed: the displays keep the total computed before.
   */
  function TrimChange(p: Page, trimId: int): (q: Page)
    ensures q.config == p.config.(trim := Some(trimId))
    ensures q.config.color == p.config.color
    ensures q.form.colours == RenderedColours(p.data, p.config.engine, Some(trimId))
    ensures q.form.colours != [] ==> q.form.colourChecked == Some(0)
    ensures q.form.accessories
         == FirstAccessoryList(p.data, EngineTrimCombination(p.data, p.config.engine, Some(trimId)))
    ensures q.form.accessoriesChecked == {}
    ensures SameEnginePart(p, q)
    ensures q.form.trims == p.form.trims && q.form.trimChecked == p.form.trimChecked
    ensures q.form.shownTotal == p.form.shownTotal
    ensures WellFormed(p.(config := p.config.(trim := Some(trimId)))) ==> WellFormed(q)
  {
    var r := p.(config := p.config.(trim := Some(trimId)));
    RenderAccessoryOptions(RenderColourOptions(r))
  }

  /**
   * The change listener of trim radio `i`, once it is checked: the trim is selected, the
   * prices are refreshed, and `handleTrimChange` runs.
   */
  function TrimSelected(p: Page, i: nat): (q: Page)
    requires i < |p.form.trims|
    ensures q.config.trim == Some(p.form.trims[i].id) && q.form.trimChecked == Some(i)
    ensures q.config.engine == p.config.engine && SameEnginePart(p, q)
    ensures WellFormed(p) ==> WellFormed(q)
  {
    TrimChange(TrimPicked(p, i), p.form.trims[i].id)
  }

  /** What the trim listener does before `handleTrimChange`: select trim `i` and refresh the prices. */
  function TrimPicked(p: Page, i: nat): (r: Page)
    requires i < |p.form.trims|
    ensures r.config == p.config.(trim := Some(p.form.trims[i].id))
    ensures r.form.trimChecked == Some(i)
    ensures r.form.shownTotal == Some(TotalPrice(r))
    ensures r == p.(config := r.config, form := p.form.(trimChecked := Some(i),
                                                        shownTotal := r.form.shownTotal))
    ensures WellFormed(p) ==> WellFormed(r)
  {
    RefreshPrices(p.(config := p.config.(trim := Some(p.form.trims[i].id)),
                     form := p.form.(trimChecked := Some(i))))
  }

  /**
   * After the trim listener the displays show the total of the moment before the swatches
   * and accessories were re-rendered: with the colour adjustment of the swatch checked
   * before and the accessories ticked before, where the page's checked inputs now hold the
   * first new swatch and no accessory.
   */
  lemma TrimSelectedShownTotal(p: Page, i: nat)
    requires i < |p.form.trims|
    ensures var q := TrimSelected(p, i);
            q.form.shownTotal
            == Some(TotalPrice(q) - ColourAdjustment(q.form) + ColourAdjustment(p.form)
                    + CheckedSum(p.form.accessories, p.form.accessoriesChecked))
  {
    var r := TrimPicked(p, i);
    var q := TrimSelected(p, i);
    CheckedSumNone(q.form.accessories);
    assert q.config == r.config && q.form.engines == r.form.engines;
    assert q.form.engineChecked == r.form.engineChecked && q.data == r.data;
    assert q.form.trims == r.form.trims && q.form.trimChecked == r.form.trimChecked;
  }

  /**
   * Whenever the swatch and accessory terms of the total before the change differ from the
   * first new swatch's term, the total shown after the trim listener is not the total of the
   * checked inputs.
   */
  lemma StaleTotalAfterTrimSelected(p: Page, i: nat)
    requires i < |p.form.trims|
    requires ColourAdjustment(p.form) + CheckedSum(p.form.accessories, p.form.accessoriesChecked)
             != ColourAdjustment(TrimSelected(p, i).form)
    ensures TrimSelected(p, i).form.shownTotal != Some(TotalPrice(TrimSelected(p, i)))
  {
    TrimSelectedShownTotal(p, i);
  }

  /**
   * The trim listener with the prices refreshed once more after the swatches and accessories
   * are re-rendered: the displayed total is the total of the checked inputs, which counts the
   * first new swatch and no accessory.
   */
  function TrimSelectedRefreshed(p: Page, i: nat): (q: Page)
    requires i < |p.form.trims|
    ensures q.form.shownTotal == Some(TotalPrice(q))
    ensures q.form.accessoriesChecked == {}
    ensures TotalPrice(q) == ModelPrice(q.config) + EngineAdjustment(q.form)
                             + TrimAdjustment(q.data, q.form)
                             + (if q.form.colours == [] then 0
                                else Adj(q.form.colours[0].priceAdjustment))
    ensures WellFormed(p) ==> WellFormed(q)
  {
    var q := RefreshPrices(TrimSelected(p, i));
    CheckedSumNone(q.form.accessories);
    q
  }

  /** `renderTrimOptions(trims)`: the trim radios are rebuilt and the first one is selected. */
  function RenderTrimOptions(p: Page, trims: seq<Trim>): (q: Page)
    ensures q.form.trims == trims
    ensures trims == [] ==> q == p.(form := p.form.(trims := [], trimChecked := None))
    ensures trims != [] ==> q.form.trimChecked == Some(0) && q.config.trim == Some(trims[0].id)
    ensures SameEnginePart(p, q) && q.config.engine == p.config.engine
    ensures WellFormed(p) && p.config.trim.None? ==> WellFormed(q)
  {
    var r := p.(form := p.form.(trims := trims, trimChecked := None));
    if trims != [] then TrimSelected(r, 0) else r
  }

  // ---------------------------------------------------------------- engines

  /**
   * `handleEngineChange(engineId)`: the engine becomes the selection, the trim is cleared and
   * the engine's trims are rendered, the first one selected. With no trim for the engine the
   * selection has no trim and everything else stays: the swatches and accessories of the
   * previous choice stay on screen, checked as they were.
   */
  function EngineChange(p: Page, engineId: int): (q: Page)
    ensures q.config.engine == Some(engineId)
    ensures q.form.trims == TrimsForEngine(p.data, engineId)
    ensures q.form.trims == [] ==>
              q == p.(config := p.config.(engine := Some(engineId), trim := None),
                      form := p.form.(trims := [], trimChecked := None))
    ensures q.form.trims != [] ==>
              q.config.trim == Some(q.form.trims[0].id) && q.form.trimChecked == Some(0)
    ensures SameEnginePart(p, q)
    ensures WellFormed(p.(config := p.config.(engine := Some(engineId)))) ==> WellFormed(q)
  {
    var trims := TrimsForEngine(p.data, engineId);
    var r := p.(config := p.config.(engine := Some(engineId), trim := None));
    RenderTrimOptions(r, trims)
  }

  /**
   * The change listener of engine radio `i`, once it is checked: the engine is selected, the
   * prices are refreshed, and `handleEngineChange` runs.
   */
  function EngineSelected(p: Page, i: nat): (q: Page)
    requires i < |p.form.engines|
    ensures q.config.engine == Some(p.form.engines[i].id) && q.form.engineChecked == Some(i)
    ensures q.form.trims == TrimsForEngine(p.data, p.form.engines[i].id)
    ensures SameDealerPart(p, q) && q.data == p.data
    ensures WellFormed(p) ==> WellFormed(q)
  {
    var r := RefreshPrices(p.(config := p.config.(engine := Some(p.form.engines[i].id)),
                              form := p.form.(engineChecked := Some(i))));
    EngineChange(r, p.form.engines[i].id)
  }

  /**
   * `updateEngineOptions`: with a model chosen, the engine radios are the catalog's distinct
   * engines in first-seen order and the first one is selected, which selects its first trim.
   */
  function UpdateEngineOptions(p: Page): (q: Page)
    ensures p.config.model.None? ==> q == p
    ensures p.config.model.Some? ==> q.form.engines == EngineOptions(p.data)
    ensures p.config.model.Some? && q.form.engines != [] ==>
              && q.form.engineChecked == Some(0)
              && q.config.engine == Some(q.form.engines[0].id)
              && q.form.trims == TrimsForEngine(p.data, q.form.engines[0].id)
              && (q.form.trims != [] ==> q.config.trim == Some(q.form.trims[0].id))
    ensures p.config.model.Some? && q.form.engines == [] ==> q.form.shownTotal == p.form.shownTotal
    ensures SameDealerPart(p, q) && q.data == p.data
    ensures WellFormed(p) ==> WellFormed(q)
  {
    if p.config.model.None? then p
    else
      var engines := EngineOptions(p.data);
      var r := p.(form := p.form.(engines := engines, engineChecked := None));
      if engines != [] then EngineSelected(r, 0) else r
  }

  // ---------------------------------------------------------------- prices

  function EngineAdjustment(f: Form): int {
    if f.engineChecked.Some? && f.engineChecked.value < |f.engines|
    then Adj(f.engines[f.engineChecked.value].priceAdjustment) else 0
  }

  /** The checked trim radio carries the trim price of the catalog. */
  function TrimAdjustment(data: seq<Combination>, f: Form): int {
    if f.trimChecked.Some? && f.trimChecked.value < |f.trims|
    then TrimPrice(data, f.trims[f.trimChecked.value].id) else 0
  }

  function ColourAdjustment(f: Form): int {
    if f.colourChecked.Some? && f.colourChecked.value < |f.colours|
    then Adj(f.colours[f.colourChecked.value].priceAdjustment) else 0
  }

  function ModelPrice(c: Config): int {
    if c.model.Some? then Adj(c.model.value.price) else 0
  }

  /**
   * The total `updatePriceDisplays` computes: the model price plus the prices of the checked
   * engine, trim and colour radios and of the checked accessories; the plain page has no year
   * term.
   */
  function TotalPrice(p: Page): int {
    ModelPrice(p.config) + EngineAdjustment(p.form) + TrimAdjustment(p.data, p.form)
    + ColourAdjustment(p.form) + CheckedSum(p.form.accessories, p.form.accessoriesChecked)
  }

  /** `updatePriceDisplays`: the total is written into the price displays; nothing else changes. */
  function RefreshPrices(p: Page): (q: Page)
    ensures q.form.shownTotal == Some(TotalPrice(p)) && TotalPrice(q) == TotalPrice(p)
    ensures q == p.(form := p.form.(shownTotal := q.form.shownTotal))
    ensures WellFormed(p) ==> WellFormed(q)
  {
    p.(form := p.form.(shownTotal := Some(TotalPrice(p))))
  }

  /**
   * Ticking an accessory raises the total by exactly its adjustment and unticking it lowers
   * the total by the same amount.
   */
  lemma TotalPriceToggle(p: Page, i: nat)
    requires i < |p.form.accessories|
    ensures var a := Adj(p.form.accessories[i].priceAdjustment);
            TotalPrice(ToggleAccessory(p, i))
            == TotalPrice(p) + (if i in p.form.accessoriesChecked then -a else a)
  {
    var c := p.form.accessoriesChecked;
    if i in c {
      CheckedSumToggle(p.form.accessories, c - {i}, i);
      assert c - {i} + {i} == c;
    } else {
      CheckedSumToggle(p.form.accessories, c, i);
    }
  }

  /**
   * After a trim change the total of the checked inputs, which the next refresh shows, counts
   * the first swatch of the new trim and no accessory, whatever was checked before.
   */
  lemma TotalAfterTrimChange(p: Page, trimId: int)
    ensures var q := TrimChange(p, trimId);
            TotalPrice(q)
            == ModelPrice(p.config) + EngineAdjustment(p.form) + TrimAdjustment(p.data, p.form)
               + (if q.form.colours == [] then 0 else Adj(q.form.colours[0].priceAdjustment))
  {
    var q := TrimChange(p, trimId);
    CheckedSumNone(q.form.accessories);
  }

  // ---------------------------------------------------------------- dealers

  /**
   * `loadAreaOptions` after the dealer request: the brand's dealers with details, by
   * ascending id, and their distinct areas. A failed request changes nothing.
   */
  function LoadAreaOptions(p: Page, brandSlug: string, fetched: Option<seq<BrandDealer>>)
    : (q: Page)
    ensures fetched.None? ==> q == p
    ensures fetched.Some? ==>
              q == p.(shop := p.shop.(dealers := BrandDealers(fetched.value,
                                                              BrandIdFromSlug(brandSlug)),
                                      areas := q.shop.areas))
    ensures fetched.Some? ==>
              forall a :: a in q.shop.areas <==>
                a != [] && exists d :: d in q.shop.dealers && InfoArea(d) == Some(a)
  {
    match fetched
    case None => p
    case Some(ds) =>
      var dealers := BrandDealers(ds, BrandIdFromSlug(brandSlug));
      AreaChoicesSpec(BrandDealerAreas(dealers));
      AreasOfBrandDealers(dealers);
      p.(shop := p.shop.(dealers := dealers, areas := AreaChoices(BrandDealerAreas(dealers))))
  }

  lemma AreasOfBrandDealers(ds: seq<BrandDealer>)
    ensures forall a :: Some(a) in BrandDealerAreas(ds) <==>
              exists d :: d in ds && InfoArea(d) == Some(a)
  {
    forall a ensures Some(a) in BrandDealerAreas(ds) <==>
                     exists d :: d in ds && InfoArea(d) == Some(a) {
      if Some(a) in BrandDealerAreas(ds) {
        var i :| 0 <= i < |ds| && BrandDealerAreas(ds)[i] == Some(a);
        assert ds[i] in ds;
      }
      if exists d :: d in ds && InfoArea(d) == Some(a) {
        var d :| d in ds && InfoArea(d) == Some(a);
        var i :| 0 <= i < |ds| && ds[i] == d;
        assert BrandDealerAreas(ds)[i] == Some(a);
      }
    }
  }

  /**
   * `handleAreaChange(area)`: the dealer radios of the area are rendered with none checked;
   * the empty choice shows none. The retail choice is left as it was.
   */
  function HandleAreaChange(p: Page, area: string): (q: Page)
    ensures area == [] ==> q.shop.dealerOptions == []
    ensures area != [] ==> q.shop.dealerOptions == BrandDealersInArea(p.shop.dealers, area)
    ensures q.shop.dealerChecked.None?
    ensures q == p.(shop := p.shop.(dealerOptions := q.shop.dealerOptions, dealerChecked := None))
    ensures WellFormed(p) ==> WellFormed(q)
  {
    if area == [] then p.(shop := p.shop.(dealerOptions := [], dealerChecked := None))
    else p.(shop := p.shop.(dealerOptions := BrandDealersInArea(p.shop.dealers, area),
                            dealerChecked := None))
  }

  /**
   * The change listener of dealer radio `i`: the dealer's `dealers_id` becomes the retail id;
   * nothing else changes.
   */
  function DealerSelected(p: Page, i: nat): (q: Page)
    requires i < |p.shop.dealerOptions|
    ensures q.config.retail == Some(p.shop.dealerOptions[i].dealersId)
    ensures q.shop.dealerChecked == Some(i)
    ensures q == p.(config := p.config.(retail := q.config.retail),
                    shop := p.shop.(dealerChecked := Some(i)))
    ensures WellFormed(p) ==> WellFormed(q)
  {
    p.(config := p.config.(retail := Some(p.shop.dealerOptions[i].dealersId)),
       shop := p.shop.(dealerChecked := Some(i)))
  }

  // ---------------------------------------------------------------- start-up

  /**
   * `init` with the `model` query parameter `slug`, the first path segment `brandSlug` and the
   * three responses (`None` for a request that fails).
   */
  function Init(slug: string, brandSlug: string, modelResp: Option<ModelResponse>,
                dealers: Option<seq<BrandDealer>>, catalog: Option<seq<Combination>>): Page
  {
    if slug == [] || modelResp.None? then InitialPage
    else
      match FindModelBySlug(modelResp.value, slug)
      case None => InitialPage
      case Some(m) =>
        var shown := InitialPage.(config := EmptyConfig.(model := Some(m)),
                                  form := InitialPage.form.(shownTotal := Some(Adj(m.price))));
        var p := LoadAreaOptions(shown, brandSlug, dealers);
        match catalog
        case None => p
        case Some(data) => UpdateEngineOptions(p.(data := data))
  }

  /**
   * What `init` leaves behind: a well-formed page, empty without a slug or a model response,
   * with the model found by its slug, the brand's dealers and their areas loaded, the catalog
   * loaded as it came and its engines rendered, the first one selected. Without an engine to
   * select, the price shown is still the model's own, as `updateModelInfo` wrote it.
   */
  lemma InitSpec(slug: string, brandSlug: string, modelResp: Option<ModelResponse>,
                 dealers: Option<seq<BrandDealer>>, catalog: Option<seq<Combination>>)
    ensures var q := Init(slug, brandSlug, modelResp, dealers, catalog);
      && WellFormed(q)
      && (slug == [] || modelResp.None? ==> q == InitialPage)
      && (slug != [] && modelResp.Some? ==> q.config.model == FindModelBySlug(modelResp.value, slug))
      && (q.config.model.Some? ==>
            && q.shop.dealers == (if dealers.Some?
                                  then BrandDealers(dealers.value, BrandIdFromSlug(brandSlug))
                                  else [])
            && q.shop.areas == AreaChoices(BrandDealerAreas(q.shop.dealers)))
      && (q.config.model.Some? && catalog.Some? ==>
            && q.data == catalog.value
            && q.form.engines == EngineOptions(catalog.value)
            && (q.form.engines != [] ==> q.config.engine == Some(q.form.engines[0].id)))
      && (catalog.None? ==> q.data == [])
      && (q.config.model.Some? && q.form.engines == [] ==>
            q.form.shownTotal == Some(Adj(q.config.model.value.price)))
  {
    InitialPageWellFormed();
    assert BrandDealerAreas([]) == [];
    assert AreaChoices([]) == [];
  }
}
