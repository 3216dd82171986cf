/**
 * The state of the stock configurator page and what each of its handlers does to it, as pure
 * step functions on that state. The class in StockConfigurator performs the same steps in
 * place and is proved equal to these functions.
 *
 * The page's state is the selection record (`currentConfig`), the radio and checkbox groups
 * it has rendered together with which input of each group is checked, the catalog of
 * combinations (whose `year_obj` lists the page sorts in place), and the dealer and stock
 * part. The total is computed from the checked inputs, as the page does, and the price
 * displays hold the total of the last time it was computed.
 */
module StockPage {
  import opened Wrappers
  import opened Seqs
  import opened Catalog
  import opened Pricing
  import opened Lookup
  import opened Dealers
  import opened StockMatch

  /** `currentConfig`; `year_code` and `year_price` start out absent. */
  datatype Config = Config(
    model: Option<Model>,
    engine: Option<int>,
    trim: Option<int>,
    year: Option<int>,
    yearCode: Option<string>,
    yearPrice: Option<int>,
    color: Option<string>,
    retail: Option<int>)

  /**
   * The rendered option groups, the index of the checked input of each radio group, and the
   * total written into the price displays by the last `updatePriceDisplays` (`None` before
   * the first one).
   */
  datatype Form = Form(
    engines: seq<Engine>, engineChecked: Option<nat>,
    trims: seq<Trim>, trimChecked: Option<nat>,
    years: seq<YearObj>, yearChecked: Option<nat>,
    colours: seq<ColorOption>, colourChecked: Option<nat>,
    accessories: seq<Accessory>, accessoriesChecked: set<nat>,
    shownTotal: Option<int>)

  /** The dealer pickers and the stock list. */
  datatype Shop = Shop(
    dealers: seq<Dealer>,
    areas: seq<string>,
    dealerOptions: seq<Dealer>,
    dealerChecked: Option<nat>,
    dealerName: Option<string>,
    stockData: seq<StockUnit>,
    cards: seq<StockCard>,
    stockVisible: bool)

  datatype Page = Page(data: seq<Combination>, config: Config, form: Form, shop: Shop)

  const EmptyConfig := Config(None, None, None, None, None, None, None, None)
  const EmptyForm := Form([], None, [], None, [], None, [], None, [], {}, None)
  const EmptyShop := Shop([], [], [], None, None, [], [], false)

  /** The page as the constructor leaves it: nothing selected, nothing loaded. */
  const InitialPage := Page([], EmptyConfig, EmptyForm, EmptyShop)

  // ---------------------------------------------------------------- invariants

  predicate InRange(checked: Option<nat>, n: nat) {
    checked.Some? ==> checked.value < n
  }

  /**
   * The page's invariant: every checked radio is one of the rendered inputs, the checked
   * engine, trim, colour and dealer are the ones the selection record names, the checked
   * accessories are rendered ones, and a chosen year always comes with its code and price.
   */
  predicate WellFormed(p: Page) {
    && InRange(p.form.engineChecked, |p.form.engines|)
    && (p.form.engineChecked.Some? ==>
          p.config.engine == Some(p.form.engines[p.form.engineChecked.value].id))
    && InRange(p.form.trimChecked, |p.form.trims|)
    && (p.form.trimChecked.Some? ==>
          p.config.trim == Some(p.form.trims[p.form.trimChecked.value].id))
    && InRange(p.form.yearChecked, |p.form.years|)
    && InRange(p.form.colourChecked, |p.form.colours|)
    && (p.form.colourChecked.Some? ==>
          p.config.color == Some(p.form.colours[p.form.colourChecked.value].colorName))
    && (forall i :: i in p.form.accessoriesChecked ==> i < |p.form.accessories|)
    && InRange(p.shop.dealerChecked, |p.shop.dealerOptions|)
    && (p.shop.dealerChecked.Some? ==>
          var d := p.shop.dealerOptions[p.shop.dealerChecked.value];
          p.config.retail == Some(d.id) && p.shop.dealerName == d.name)
    && (p.config.year.Some? ==> p.config.yearCode.Some? && p.config.yearPrice.Some?)
  }

  lemma InitialPageWellFormed()
    ensures WellFormed(InitialPage)
  {
  }

  // ---------------------------------------------------------------- frames

  /** The dealer part, the model and the retail choice are untouched. */
  predicate SameDealerPart(p: Page, q: Page) {
    q.shop == p.shop && q.config.model == p.config.model && q.config.retail == p.config.retail
  }

  /** ... and so are the engine radios. */
  predicate SameEnginePart(p: Page, q: Page) {
    SameDealerPart(p, q) && q.form.engines == p.form.engines
    && q.form.engineChecked == p.form.engineChecked
  }

  /** ... and so are the selected engine and trim and the trim radios. */
  predicate SameTrimPart(p: Page, q: Page) {
    SameEnginePart(p, q) && q.config.engine == p.config.engine && q.config.trim == p.config.trim
    && q.form.trims == p.form.trims && q.form.trimChecked == p.form.trimChecked
  }

  /** The catalog and the accessory checkboxes are untouched. */
  predicate SameAccessories(p: Page, q: Page) {
    q.data == p.data && q.form.accessories == p.form.accessories
    && q.form.accessoriesChecked == p.form.accessoriesChecked
  }

  /** The year radios and the year fields of the selection are untouched. */
  predicate SameYearPart(p: Page, q: Page) {
    q.form.years == p.form.years && q.form.yearChecked == p.form.yearChecked
    && q.config.year == p.config.year && q.config.yearCode == p.config.yearCode
    && q.config.yearPrice == p.config.yearPrice
  }

  /** Only the colour swatches, the checked swatch and the selected colour may differ. */
  predicate ColourStep(p: Page, q: Page) {
    SameTrimPart(p, q) && SameAccessories(p, q) && SameYearPart(p, q)
  }

  // ---------------------------------------------------------------- colours

  /** `resetColorDisplay`: no swatch checked and no colour selected. */
  function ResetColourDisplay(p: Page): Page {
    p.(config := p.config.(color := None), form := p.form.(colourChecked := None))
  }

  /** The change listener of swatch `i`, once the swatch is checked: the colour, then the prices. */
  function ColourChange(p: Page, i: nat): Page
    requires i < |p.form.colours|
  {
    RefreshPrices(p.(config := p.config.(color := Some(p.form.colours[i].colorName)),
                     form := p.form.(colourChecked := Some(i))))
  }

  /**
   * The swatches `renderColorOptions` shows, whatever list it is handed: the active colour
   * options of the first combination with the selected engine and trim, by ascending price
   * adjustment; none when there is no such combination or it has no colour options.
   */
  function RenderedColours(data: seq<Combination>, engine: Option<int>, trim: Option<int>)
    : (r: seq<ColorOption>)
    ensures forall c :: c in r ==> c.isActive
    ensures forall i, j :: 0 <= i < j < |r| ==>
              Adj(r[i].priceAdjustment) <= Adj(r[j].priceAdjustment)
    ensures EngineTrimCombination(data, engine, trim).None? ==> r == []
    ensures var k := EngineTrimCombination(data, engine, trim);
            k.Some? ==>
              (data[k.value].colorOptions.None? ==> r == [])
              && (data[k.value].colorOptions.Some? ==>
                    multiset(r) == multiset(ActiveColours(data[k.value].colorOptions.value)))
  {
    match EngineTrimCombination(data, engine, trim)
    case None => []
    case Some(k) =>
      match data[k].colorOptions
      case None => []
      case Some(opts) =>
        SortedActiveColoursSpec(opts);
        SortedActiveColours(opts)
  }

  /**
   * `renderColorOptions`: the swatch group is rebuilt from RenderedColours; the first swatch,
   * if any, is checked and its listener selects its colour. With no swatch the selected colour
   * is left as it was.
   */
  function RenderColourOptions(p: Page): (q: Page)
    ensures q.form.colours == RenderedColours(p.data, p.config.engine, p.config.trim)
    ensures q.form.colours != [] ==>
              q.form.colourChecked == Some(0) && q.config.color == Some(q.form.colours[0].colorName)
    ensures q.form.colours == [] ==> q.form.colourChecked.None? && q.config.color == p.config.color
    ensures q.form.colours != [] ==> q.form.shownTotal == Some(TotalPrice(q))
    ensures q.form.colours == [] ==> q.form.shownTotal == p.form.shownTotal
    ensures ColourStep(p, q)
  {
    var cs := RenderedColours(p.data, p.config.engine, p.config.trim);
    var r := p.(form := p.form.(colours := cs, colourChecked := None));
    if cs != [] then ColourChange(r, 0) else r
  }

  /**
   * Whether `updateColorOptionsForYear(year)` gets past its guards: engine, trim and year are
   * truthy and the first combination of that engine, trim and model year has colour options.
   */
  predicate YearHasColours(p: Page, year: int) {
    Truthy(p.config.engine) && Truthy(p.config.trim) && year != 0
    && var k := YearEditionCombination(p.data, p.config.engine, p.config.trim, Some(year));
       k.Some? && p.data[k.value].colorOptions.Some?
  }

  /**
   * The colour part of `q` is what `updateColorOptionsForYear(year)` makes of `p`: untouched
   * when a guard fails, otherwise the swatches of RenderedColours with the first one selected,
   * or no colour at all.
   */
  predicate ColoursFollowYear(p: Page, year: int, q: Page) {
    if YearHasColours(p, year) then
      q.form.colours == RenderedColours(p.data, p.config.engine, p.config.trim)
      && (if q.form.colours == [] then q.form.colourChecked.None? && q.config.color.None?
          else q.form.colourChecked == Some(0)
               && q.config.color == Some(q.form.colours[0].colorName))
    else
      q.form.colours == p.form.colours && q.form.colourChecked == p.form.colourChecked
      && q.config.color == p.config.color
  }

  /**
   * `updateColorOptionsForYear`: past its guards it clears the colour selection and re-renders
   * the swatches. The year-specific combination it finds decides only whether the swatches
   * are re-rendered; what they show comes from the engine+trim combination.
   */
  function ColoursForYear(p: Page, year: int): (q: Page)
    ensures ColoursFollowYear(p, year, q)
    ensures ColourStep(p, q)
    ensures WellFormed(p) ==> WellFormed(q)
  {
    if YearHasColours(p, year) then RenderColourOptions(ResetColourDisplay(p)) else p
  }

  /** The user picks swatch `i`. */
  function ColourSelected(p: Page, i: nat): (q: Page)
    requires i < |p.form.colours|
    ensures q.config.color == Some(p.form.colours[i].colorName)
    ensures q.form.colourChecked == Some(i)
    ensures q.form.shownTotal == Some(TotalPrice(q))
    ensures ColourStep(p, q) && q.form.colours == p.form.colours
    ensures WellFormed(p) ==> WellFormed(q)
  {
    ColourChange(p, i)
  }

  // ---------------------------------------------------------------- years

  /**
   * The change listener of year radio `i`: the year, its code and its price (`price || 0`)
   * become the selection, the colours follow the year, and the prices are refreshed.
   */
  function YearChange(p: Page, i: nat): (q: Page)
    requires i < |p.form.years|
    ensures q.config.year == Some(p.form.years[i].year)
    ensures q.config.yearCode == Some(p.form.years[i].yearCode)
    ensures q.config.yearPrice == Some(Adj(p.form.years[i].price))
    ensures q.form.yearChecked == Some(i)
    ensures ColoursFollowYear(p, p.form.years[i].year, q)
    ensures q.form.shownTotal == Some(TotalPrice(q))
    ensures SameTrimPart(p, q) && SameAccessories(p, q) && q.form.years == p.form.years
    ensures WellFormed(p) ==> WellFormed(q)
  {
    var y := p.form.years[i];
    var r := p.(config := p.config.(year := Some(y.year), yearCode := Some(y.yearCode),
                                    yearPrice := Some(Adj(y.price))),
                form := p.form.(yearChecked := Some(i)));
    RefreshPrices(ColoursForYear(r, y.year))
  }

  /**
   * A catalog where engine 1 with trim 1 comes in two combinations: model year 2023 in white
   * and model year 2024 in blue. Picking 2024 re-renders the swatches, but they show the
   * white of the first engine+trim combination, not the blue of the 2024 combination.
   */
  lemma YearColoursComeFromEngineTrim()
    ensures var white := ColorOption("white", Some("W"), None, true);
            var blue := ColorOption("blue", Some("B"), None, true);
            var engine := Engine(1, "1.2", None);
            var trim := Trim(1, "Allure", None);
            var y2023 := YearObj(2023, "23", None);
            var y2024 := YearObj(2024, "24", None);
            var c2023 := Combination([engine], [trim], 0, [y2023], Some([white]), [], []);
            var c2024 := Combination([engine], [trim], 0, [y2024], Some([blue]), [], []);
            var p := InitialPage.(
              data := [c2023, c2024],
              config := EmptyConfig.(engine := Some(1), trim := Some(1)),
              form := EmptyForm.(years := [y2024]));
            YearHasColours(p, 2024)
            && YearEditionCombination(p.data, Some(1), Some(1), Some(2024)) == Some(1)
            && YearChange(p, 0).form.colours == [white]
            && YearChange(p, 0).config.color == Some("white")
  {
    var white := ColorOption("white", Some("W"), None, true);
    var blue := ColorOption("blue", Some("B"), None, true);
    var engine := Engine(1, "1.2", None);
    var trim := Trim(1, "Allure", None);
    var y2023 := YearObj(2023, "23", None);
    var y2024 := YearObj(2024, "24", None);
    var c2023 := Combination([engine], [trim], 0, [y2023], Some([white]), [], []);
    var c2024 := Combination([engine], [trim], 0, [y2024], Some([blue]), [], []);
    var data := [c2023, c2024];
    assert MatchesEngine(c2023, Some(1)) && MatchesTrim(c2023, Some(1)) by {
      assert engine in c2023.engines && trim in c2023.trims;
    }
    assert MatchesEngine(c2024, Some(1)) && MatchesTrim(c2024, Some(1)) by {
      assert engine in c2024.engines && trim in c2024.trims;
    }
    assert HasYear(c2024, Some(2024)) by {
      assert y2024 in c2024.yearObj;
    }
    assert !HasYear(c2023, Some(2024));
    assert data[0] == c2023 && data[1] == c2024;
    assert YearEditionCombination(data, Some(1), Some(1), Some(2024)) == Some(1);
    assert EngineTrimCombination(data, Some(1), Some(1)) == Some(0);
    assert ActiveColours([white]) == [white];
    assert SortedActiveColours([white]) == [white];
  }

  /**
   * Whether `updateYearOptions` returns before rendering: no model, a falsy engine or trim,
   * or no combination of the engine and trim with a non-empty `year_obj`.
   */
  predicate YearsSkipped(p: Page) {
    p.config.model.None? || !Truthy(p.config.engine) || !Truthy(p.config.trim)
    || YearCombination(p.data, p.config.engine, p.config.trim).None?
  }

  /**
   * `updateYearOptions`: the `year_obj` list of the first engine+trim combination that has
   * one is sorted by descending year code IN the catalog, rendered, and its first year is
   * checked and selected. When the page returns early, nothing changes: the year radios of an
   * earlier trim stay on screen.
   */
  function UpdateYearOptions(p: Page): (q: Page)
    ensures YearsSkipped(p) ==> q == p
    ensures !YearsSkipped(p) ==>
              var k := YearCombination(p.data, p.config.engine, p.config.trim).value;
              var sorted := YearsDescending(p.data[k].yearObj);
              && q.data == p.data[k := p.data[k].(yearObj := sorted)]
              && q.form.years == sorted && |sorted| > 0
              && q.form.yearChecked == Some(0)
              && q.config.year == Some(sorted[0].year)
              && q.config.yearCode == Some(sorted[0].yearCode)
              && q.config.yearPrice == Some(Adj(sorted[0].price))
              && ColoursFollowYear(p.(data := q.data), sorted[0].year, q)
    ensures !YearsSkipped(p) ==> q.form.shownTotal == Some(TotalPrice(q))
    ensures SameCatalog(p.data, q.data)
    ensures SameTrimPart(p, q)
    ensures q.form.accessories == p.form.accessories
    ensures q.form.accessoriesChecked == p.form.accessoriesChecked
    ensures WellFormed(p) ==> WellFormed(q)
  {
    if YearsSkipped(p) then SameCatalogRefl(p.data); p
    else
      var k := YearCombination(p.data, p.config.engine, p.config.trim).value;
      var ys := p.data[k].yearObj;
      YearsDescendingSpec(ys);
      assert |multiset(YearsDescending(ys))| == |multiset(ys)|;
      var sorted := YearsDescending(ys);
      SameCatalogUpdate(p.data, k, p.data[k].(yearObj := sorted));
      var r := p.(data := p.data[k := p.data[k].(yearObj := sorted)],
                  form := p.form.(years := sorted, yearChecked := Some(0)));
      YearChange(r, 0)
  }

  /**
   * The in-place sort is harmless to repeat: running `updateYearOptions` again on the page it
   * produced finds the same combination, renders the same years and leaves the catalog as it
   * is.
   */
  lemma YearWriteBackIdempotent(p: Page)
    requires !YearsSkipped(p)
    ensures var q := UpdateYearOptions(p);
            !YearsSkipped(q) && UpdateYearOptions(q).data == q.data
            && UpdateYearOptions(q).form.years == q.form.years
  {
    var q := UpdateYearOptions(p);
    var e, t := p.config.engine, p.config.trim;
    var k := YearCombination(p.data, e, t).value;
    var ys := p.data[k].yearObj;
    YearsDescendingSpec(ys);
    assert |multiset(YearsDescending(ys))| == |multiset(ys)|;
    assert q.data[k].engines == p.data[k].engines && q.data[k].trims == p.data[k].trims;
    assert MatchesEngine(q.data[k], e) && MatchesTrim(q.data[k], t) && |q.data[k].yearObj| > 0;
    var k' := YearCombination(q.data, e, t);
    assert k'.Some?;
    assert k'.value == k;
    YearsDescendingIdempotent(ys);
  }

  // ---------------------------------------------------------------- accessories

  /**
   * The accessories `renderAccessoryOptions` shows: `accessories_id[0]` of the first
   * combination offering the selected engine and trim in the selected model year, none when
   * there is no such combination; they are rendered unchecked.
   */
  function RenderAccessoryOptions(p: Page): (q: Page)
    ensures q.form.accessories
         == FirstAccessoryList(p.data, YearEditionCombination(p.data, p.config.engine,
                                                               p.config.trim, p.config.year))
    ensures q.form.accessoriesChecked == {}
    ensures q == p.(form := p.form.(accessories := q.form.accessories, accessoriesChecked := {}))
  {
    var accs := FirstAccessoryList(p.data, YearEditionCombination(p.data, p.config.engine,
                                                                  p.config.trim, p.config.year));
    p.(form := p.form.(accessories := accs, accessoriesChecked := {}))
  }

  /** The user ticks or unticks accessory checkbox `i`; the prices are refreshed. */
  function ToggleAccessory(p: Page, i: nat): (q: Page)
    requires i < |p.form.accessories|
    ensures i in q.form.accessoriesChecked <==> i !in p.form.accessoriesChecked
    ensures forall j :: j != i ==>
              (j in q.form.accessoriesChecked <==> j in p.form.accessoriesChecked)
    ensures q.form.shownTotal == Some(TotalPrice(q))
    ensures q == p.(form := p.form.(accessoriesChecked := q.form.accessoriesChecked,
                                    shownTotal := q.form.shownTotal))
    ensures WellFormed(p) ==> WellFormed(q)
  {
    var c := p.form.accessoriesChecked;
    RefreshPrices(p.(form := p.form.(accessoriesChecked := if i in c then c - {i} else c + {i})))
  }

  // ---------------------------------------------------------------- trims

  /**
   * `handleTrimChange(trimId)`: the trim becomes the selection, year and colour are cleared,
   * the years are re-rendered (selecting the newest) and the accessories are re-rendered for
   * the engine, trim and year now selected.
   *
   * When the new trim has no year list, the year radios of the previous trim stay on screen,
   * still checked, while the selection has no year: its code and price stay those of the
   * previous year.
   *
   * Otherwise the newest year is selected, which refreshes the prices, and only then are the
   * accessories re-rendered unchecked: the displayed total still counts the accessories that
   * were ticked before.
   */
  function TrimChange(p: Page, trimId: int): (q: Page)
    ensures q.config.trim == Some(trimId)
    ensures SameEnginePart(p, q) && q.config.engine == p.config.engine
    ensures q.form.trims == p.form.trims && q.form.trimChecked == p.form.trimChecked
    ensures SameCatalog(p.data, q.data)
    ensures var r := p.(config := p.config.(trim := Some(trimId)));
            YearsSkipped(r) ==>
              && q.data == p.data
              && q.config.year.None? && q.config.color.None? && q.form.colourChecked.None?
              && q.form.colours == p.form.colours
              && q.form.years == p.form.years && q.form.yearChecked == p.form.yearChecked
              && q.config.yearCode == p.config.yearCode && q.config.yearPrice == p.config.yearPrice
              && q.form.shownTotal == p.form.shownTotal
    ensures q.form.accessories
         == FirstAccessoryList(q.data, YearEditionCombination(q.data, q.config.engine,
                                                               q.config.trim, q.config.year))
    ensures q.form.accessoriesChecked == {}
    ensures WellFormed(p.(config := p.config.(trim := Some(trimId)))) ==> WellFormed(q)
  {
    var r0 := p.(config := p.config.(trim := Some(trimId)));
    var r := ResetColourDisplay(r0.(config := r0.config.(year := None)));
    assert YearsSkipped(r) == YearsSkipped(r0);
    assert WellFormed(r0) ==> WellFormed(r);
    RenderAccessoryOptions(UpdateYearOptions(r))
  }

  /**
   * A trim change that finds a year list: the newest year is selected with its code and
   * price, and the colours follow that year from a reset colour display ...
   */
  lemma TrimChangeWithYears(p: Page, trimId: int)
    requires !YearsSkipped(p.(config := p.config.(trim := Some(trimId))))
    ensures var q := TrimChange(p, trimId);
            var k := YearCombination(p.data, p.config.engine, Some(trimId)).value;
            var reset := ResetColourDisplay(p.(data := q.data,
                                               config := p.config.(trim := Some(trimId), year := None)));
            && q.form.years == YearsDescending(p.data[k].yearObj)
            && q.form.yearChecked == Some(0)
            && q.config.year == Some(q.form.years[0].year)
            && q.config.yearCode == Some(q.form.years[0].yearCode)
            && q.config.yearPrice == Some(Adj(q.form.years[0].price))
            && ColoursFollowYear(reset, q.form.years[0].year, q)
  {
    var r0 := p.(config := p.config.(trim := Some(trimId)));
    var r := ResetColourDisplay(r0.(config := r0.config.(year := None)));
    assert YearsSkipped(r) == YearsSkipped(r0);
  }

  /**
   * ... and the prices are refreshed when the year is selected, before the accessories are
   * re-rendered unchecked: the displayed total still counts the accessories ticked before.
   */
  lemma TrimChangeShownTotal(p: Page, trimId: int)
    requires !YearsSkipped(p.(config := p.config.(trim := Some(trimId))))
    ensures TrimChange(p, trimId).form.shownTotal
         == Some(TotalPrice(TrimChange(p, trimId))
                 + CheckedSum(p.form.accessories, p.form.accessoriesChecked))
  {
    var r0 := p.(config := p.config.(trim := Some(trimId)));
    var r := ResetColourDisplay(r0.(config := r0.config.(year := None)));
    assert YearsSkipped(r) == YearsSkipped(r0);
    var s := UpdateYearOptions(r);
    TotalPriceUnticked(s);
    assert TrimChange(p, trimId) == RenderAccessoryOptions(s);
  }

  /**
   * Re-rendering the accessories unticks them: the total loses exactly their sum, while the
   * price displays keep what they showed.
   */
  lemma TotalPriceUnticked(s: Page)
    ensures TotalPrice(RenderAccessoryOptions(s))
         == TotalPrice(s) - CheckedSum(s.form.accessories, s.form.accessoriesChecked)
    ensures RenderAccessoryOptions(s).form.shownTotal == s.form.shownTotal
    ensures s.form.shownTotal == Some(TotalPrice(s)) ==>
              RenderAccessoryOptions(s).form.shownTotal
              == Some(TotalPrice(RenderAccessoryOptions(s))
                      + CheckedSum(s.form.accessories, s.form.accessoriesChecked))
  {
    CheckedSumNone(RenderAccessoryOptions(s).form.accessories);
  }

  /**
   * The change listener of trim radio `i`, once it is checked: the trim is selected, the
   * prices are refreshed, and `handleTrimChange` runs.
   */
  function TrimSelected(p: Page, i: nat): (q: Page)
    requires i < |p.form.trims|
    ensures q.config.trim == Some(p.form.trims[i].id) && q.form.trimChecked == Some(i)
    ensures SameEnginePart(p, q) && q.config.engine == p.config.engine
    ensures SameCatalog(p.data, q.data)
    ensures WellFormed(p) ==> WellFormed(q)
  {
    TrimChange(TrimPicked(p, i), p.form.trims[i].id)
  }

  /**
   * When the new trim has a year list, the displayed total after the trim listener exceeds
   * the total of the checked inputs by the accessories that were ticked before.
   */
  lemma TrimSelectedShownTotal(p: Page, i: nat)
    requires i < |p.form.trims|
    requires !YearsSkipped(p.(config := p.config.(trim := Some(p.form.trims[i].id))))
    ensures TrimSelected(p, i).form.shownTotal
         == Some(TotalPrice(TrimSelected(p, i))
                 + CheckedSum(p.form.accessories, p.form.accessoriesChecked))
  {
    var id := p.form.trims[i].id;
    var r := TrimPicked(p, i);
    assert YearsSkipped(r.(config := r.config.(trim := Some(id))))
        == YearsSkipped(p.(config := p.config.(trim := Some(id))));
    TrimChangeShownTotal(r, id);
  }

  /** What the trim listener does before `handleTrimChange`: select trim `i` and refresh the prices. */
  function TrimPicked(p: Page, i: nat): (r: Page)
    requires i < |p.form.trims|
    ensures r.config == p.config.(trim := Some(p.form.trims[i].id))
    ensures r.form.trimChecked == Some(i) && r.form.trims == p.form.trims
    ensures r.form.accessories == p.form.accessories
    ensures r.form.accessoriesChecked == p.form.accessoriesChecked
    ensures r.data == p.data && r.shop == p.shop
    ensures r.form.engines == p.form.engines && r.form.engineChecked == p.form.engineChecked
    ensures WellFormed(p) ==> WellFormed(r)
  {
    RefreshPrices(p.(config := p.config.(trim := Some(p.form.trims[i].id)),
                     form := p.form.(trimChecked := Some(i))))
  }

  /**
   * After a trim change that selects a year, the displayed total differs from the total of
   * the checked inputs whenever accessories with a non-zero sum were ticked before.
   */
  lemma StaleTotalAfterTrimSelected(p: Page, i: nat)
    requires i < |p.form.trims|
    requires !YearsSkipped(p.(config := p.config.(trim := Some(p.form.trims[i].id))))
    requires CheckedSum(p.form.accessories, p.form.accessoriesChecked) != 0
    ensures TrimSelected(p, i).form.shownTotal != Some(TotalPrice(TrimSelected(p, i)))
  {
    TrimSelectedShownTotal(p, i);
  }

  /**
   * The trim listener with the prices refreshed once more after the accessories are
   * re-rendered: the displayed total is the total of the checked inputs, which counts no
   * accessory.
   */
  function TrimSelectedRefreshed(p: Page, i: nat): (q: Page)
    requires i < |p.form.trims|
    ensures q.form.shownTotal == Some(TotalPrice(q))
    ensures q.form.accessoriesChecked == {}
    ensures TotalPrice(q) == ModelPrice(q.config) + EngineAdjustment(q.form)
                             + TrimAdjustment(q.data, q.form) + ColourAdjustment(q.form)
                             + YearAdjustment(q.form)
    ensures WellFormed(p) ==> WellFormed(q)
  {
    var q := RefreshPrices(TrimSelected(p, i));
    CheckedSumNone(q.form.accessories);
    q
  }

  /** `renderTrimOptions(trims)`: the trim radios are rebuilt and the first one is selected. */
  function RenderTrimOptions(p: Page, trims: seq<Trim>): (q: Page)
    ensures q.form.trims == trims
    ensures trims == [] ==> q == p.(form := p.form.(trims := [], trimChecked := None))
    ensures trims != [] ==> q.form.trimChecked == Some(0) && q.config.trim == Some(trims[0].id)
    ensures SameEnginePart(p, q) && q.config.engine == p.config.engine
    ensures SameCatalog(p.data, q.data)
    ensures WellFormed(p.(form := p.form.(trimChecked := None))) && p.config.trim.None?
            ==> WellFormed(q)
  {
    var r := p.(form := p.form.(trims := trims, trimChecked := None));
    assert WellFormed(p.(form := p.form.(trimChecked := None))) ==> WellFormed(r);
    if trims != [] then TrimSelected(r, 0) else SameCatalogRefl(p.data); r
  }

  // ---------------------------------------------------------------- engines

  /**
   * `handleEngineChange(engineId)`: the engine becomes the selection, the trim is cleared and
   * the trims of the engine are rendered, the first one selected. With no trim for the engine
   * the selection has no trim, and everything else stays: the year, colour and accessory
   * groups of the previous choice stay on screen, checked as they were, and the year and
   * colour stay selected.
   */
  function EngineChange(p: Page, engineId: int): (q: Page)
    ensures q.config.engine == Some(engineId)
    ensures q.form.trims == TrimsForEngine(p.data, engineId)
    ensures q.form.trims == [] ==>
              q == p.(config := p.config.(engine := Some(engineId), trim := None),
                      form := p.form.(trims := [], trimChecked := None))
    ensures q.form.trims != [] ==>
              q.config.trim == Some(q.form.trims[0].id) && q.form.trimChecked == Some(0)
    ensures SameEnginePart(p, q)
    ensures SameCatalog(p.data, q.data)
    ensures WellFormed(p.(config := p.config.(engine := Some(engineId)))) ==> WellFormed(q)
  {
    var trims := TrimsForEngine(p.data, engineId);
    var r0 := p.(config := p.config.(engine := Some(engineId)));
    var r := p.(config := p.config.(engine := Some(engineId), trim := None));
    assert WellFormed(r0) ==> WellFormed(r.(form := r.form.(trimChecked := None)));
    RenderTrimOptions(r, trims)
  }

  /**
   * The change listener of engine radio `i`, once it is checked: the engine is selected, the
   * prices are refreshed, and `handleEngineChange` runs.
   */
  function EngineSelected(p: Page, i: nat): (q: Page)
    requires i < |p.form.engines|
    ensures q.config.engine == Some(p.form.engines[i].id) && q.form.engineChecked == Some(i)
    ensures q.form.trims == TrimsForEngine(p.data, p.form.engines[i].id)
    ensures SameDealerPart(p, q) && SameCatalog(p.data, q.data)
    ensures WellFormed(p) ==> WellFormed(q)
  {
    var id := p.form.engines[i].id;
    var r := RefreshPrices(p.(config := p.config.(engine := Some(id)),
                              form := p.form.(engineChecked := Some(i))));
    assert WellFormed(p) ==> WellFormed(r);
    assert r.(config := r.config.(engine := Some(id))) == r;
    EngineChange(r, id)
  }

  /**
   * `updateEngineOptions`: with a model chosen, the engine radios are the catalog's distinct
   * engines in first-seen order and the first one is selected, which selects its first trim.
   */
  function UpdateEngineOptions(p: Page): (q: Page)
    ensures p.config.model.None? ==> q == p
    ensures p.config.model.Some? ==> q.form.engines == EngineOptions(p.data)
    ensures p.config.model.Some? && q.form.engines != [] ==>
              && q.form.engineChecked == Some(0)
              && q.config.engine == Some(q.form.engines[0].id)
              && q.form.trims == TrimsForEngine(p.data, q.form.engines[0].id)
              && (q.form.trims != [] ==> q.config.trim == Some(q.form.trims[0].id))
    ensures p.config.model.Some? && q.form.engines == [] ==> q.form.shownTotal == p.form.shownTotal
    ensures SameDealerPart(p, q) && SameCatalog(p.data, q.data)
    ensures WellFormed(p) ==> WellFormed(q)
  {
    if p.config.model.None? then SameCatalogRefl(p.data); p
    else
      var engines := EngineOptions(p.data);
      var r := p.(form := p.form.(engines := engines, engineChecked := None));
      assert WellFormed(p) ==> WellFormed(r);
      if engines != [] then EngineSelected(r, 0) else SameCatalogRefl(p.data); r
  }

  // ---------------------------------------------------------------- prices

  function EngineAdjustment(f: Form): int {
    if f.engineChecked.Some? && f.engineChecked.value < |f.engines|
    then Adj(f.engines[f.engineChecked.value].priceAdjustment) else 0
  }

  /** The checked trim radio carries the trim price of the catalog, not its own adjustment. */
  function TrimAdjustment(data: seq<Combination>, f: Form): int {
    if f.trimChecked.Some? && f.trimChecked.value < |f.trims|
    then TrimPrice(data, f.trims[f.trimChecked.value].id) else 0
  }

  function ColourAdjustment(f: Form): int {
    if f.colourChecked.Some? && f.colourChecked.value < |f.colours|
    then Adj(f.colours[f.colourChecked.value].priceAdjustment) else 0
  }

  function YearAdjustment(f: Form): int {
    if f.yearChecked.Some? && f.yearChecked.value < |f.years|
    then Adj(f.years[f.yearChecked.value].price) else 0
  }

  function ModelPrice(c: Config): int {
    if c.model.Some? then Adj(c.model.value.price) else 0
  }

  /**
   * The total `updatePriceDisplays` computes: the model price plus the prices of the checked
   * engine, trim, colour and year radios and of the checked accessories; an unchecked group
   * adds 0.
   */
  function TotalPrice(p: Page): int {
    ModelPrice(p.config) + EngineAdjustment(p.form) + TrimAdjustment(p.data, p.form)
    + ColourAdjustment(p.form) + YearAdjustment(p.form)
    + CheckedSum(p.form.accessories, p.form.accessoriesChecked)
  }

  /** `updatePriceDisplays`: the total is written into the price displays; nothing else changes. */
  function RefreshPrices(p: Page): (q: Page)
    ensures q.form.shownTotal == Some(TotalPrice(p)) && TotalPrice(q) == TotalPrice(p)
    ensures q == p.(form := p.form.(shownTotal := q.form.shownTotal))
    ensures WellFormed(p) ==> WellFormed(q)
  {
    p.(form := p.form.(shownTotal := Some(TotalPrice(p))))
  }

  /**
   * Ticking an accessory raises the total by exactly its adjustment and unticking it lowers
   * the total by the same amount.
   */
  lemma TotalPriceToggle(p: Page, i: nat)
    requires i < |p.form.accessories|
    ensures var a := Adj(p.form.accessories[i].priceAdjustment);
            TotalPrice(ToggleAccessory(p, i))
            == TotalPrice(p) + (if i in p.form.accessoriesChecked then -a else a)
  {
    var c := p.form.accessoriesChecked;
    if i in c {
      CheckedSumToggle(p.form.accessories, c - {i}, i);
      assert c - {i} + {i} == c;
    } else {
      CheckedSumToggle(p.form.accessories, c, i);
    }
  }

  /**
   * Picking swatch `i` replaces the colour term of the total, and nothing else: the total
   * moves by the difference between the new swatch's adjustment and the old one's.
   */
  lemma TotalPriceColour(p: Page, i: nat)
    requires i < |p.form.colours|
    ensures TotalPrice(ColourSelected(p, i))
         == TotalPrice(p) - ColourAdjustment(p.form) + Adj(p.form.colours[i].priceAdjustment)
  {
  }

  /**
   * Ticking every accessory of a set, one at a time and in any order, adds their
   * adjustments: the accessory term never depends on the order of the clicks.
   */
  lemma TotalPriceAccessoriesCommute(p: Page, i: nat, j: nat)
    requires i < |p.form.accessories| && j < |p.form.accessories|
    ensures TotalPrice(ToggleAccessory(ToggleAccessory(p, i), j))
         == TotalPrice(ToggleAccessory(ToggleAccessory(p, j), i))
  {
    var c := p.form.accessoriesChecked;
    var ci := if i in c then c - {i} else c + {i};
    var cj := if j in c then c - {j} else c + {j};
    var cij := if j in ci then ci - {j} else ci + {j};
    var cji := if i in cj then cj - {i} else cj + {i};
    assert cij == cji;
  }

  // ---------------------------------------------------------------- the selection for matching

  function NamedAs(name: Option<string>): ColorOption -> bool {
    (c: ColorOption) => Some(c.colorName) == name
  }

  /**
   * The colour options `getSelectedColorCode` searches: those of the first combination
   * offering the selected engine and trim, none when there is no such combination or it has
   * no `color_options`.
   */
  function SearchedOptions(p: Page): (r: Option<seq<ColorOption>>)
    ensures r.Some? <==> EngineTrimCombination(p.data, p.config.engine, p.config.trim).Some?
                         && p.data[EngineTrimCombination(p.data, p.config.engine, p.config.trim).value].colorOptions.Some?
    ensures r.Some? ==>
              r == p.data[EngineTrimCombination(p.data, p.config.engine, p.config.trim).value].colorOptions
  {
    match EngineTrimCombination(p.data, p.config.engine, p.config.trim)
    case None => None
    case Some(k) => p.data[k].colorOptions
  }

  /**
   * The colour option `getSelectedColorCode` looks at: none when no swatch is checked or
   * there are no options to search; otherwise the first of the options named like the
   * selected colour, none when no option has that name.
   */
  function SelectedColourOption(p: Page): (r: Option<ColorOption>)
    ensures r.Some? <==>
              && p.form.colourChecked.Some? && SearchedOptions(p).Some?
              && exists j :: 0 <= j < |SearchedOptions(p).value|
                             && Some(SearchedOptions(p).value[j].colorName) == p.config.color
    ensures r.Some? ==>
              var opts := SearchedOptions(p).value;
              exists j :: 0 <= j < |opts| && opts[j] == r.value
                          && forall l :: 0 <= l < j ==> Some(opts[l].colorName) != p.config.color
    ensures r.Some? ==> Some(r.value.colorName) == p.config.color
  {
    if p.form.colourChecked.None? then None
    else
      match SearchedOptions(p)
      case None => None
      case Some(opts) =>
        match FirstWhere(opts, NamedAs(p.config.color))
        case None =>
          assert forall j :: 0 <= j < |opts| ==> !NamedAs(p.config.color)(opts[j]);
          None
        case Some(j) => Some(opts[j])
  }

  /** `getSelectedColorCode`: that option's code, an empty or missing code counting as none. */
  function SelectedColorCode(p: Page): (r: Option<string>)
    ensures r.Some? <==> SelectedColourOption(p).Some? && SelectedColourOption(p).value.code.Some?
                         && SelectedColourOption(p).value.code != Some([])
    ensures r.Some? ==> r.value != [] && r == SelectedColourOption(p).value.code
  {
    match SelectedColourOption(p)
    case None => None
    case Some(c) => if c.code == Some("") then None else c.code
  }

  /**
   * When the checked swatch is one of the swatches the page renders for the engine and trim,
   * the colour whose code is looked up is an option named like that swatch: the lookup never
   * comes back empty for a rendered, checked colour.
   */
  lemma SelectedColourIsRendered(p: Page)
    requires WellFormed(p) && p.form.colourChecked.Some?
    requires p.form.colours == RenderedColours(p.data, p.config.engine, p.config.trim)
    ensures SelectedColourOption(p).Some?
    ensures SelectedColourOption(p).value.colorName
         == p.form.colours[p.form.colourChecked.value].colorName
  {
    var i := p.form.colourChecked.value;
    var c := p.form.colours[i];
    var k := EngineTrimCombination(p.data, p.config.engine, p.config.trim).value;
    var opts := p.data[k].colorOptions.value;
    assert c in multiset(ActiveColours(opts));
    assert c in opts;
    var m :| 0 <= m < |opts| && opts[m] == c;
    assert NamedAs(p.config.color)(opts[m]);
  }

  /**
   * `getSelectedAccessories`: the ids of the checked accessories in document order; an id
   * that the pattern `additional-(\d+)` cannot read back (a negative one) is skipped.
   */
  function SelectedAccessoryIds(accs: seq<Accessory>, checked: set<nat>): (r: seq<int>)
    ensures |r| <= |accs|
    ensures forall x :: x in r ==>
              x >= 0 && exists i :: 0 <= i < |accs| && i in checked && accs[i].id == x
    ensures forall i :: 0 <= i < |accs| && i in checked && accs[i].id >= 0 ==> accs[i].id in r
  {
    if accs == [] then []
    else
      var n := |accs| - 1;
      SelectedAccessoryIds(accs[..n], checked)
        + (if n in checked && accs[n].id >= 0 then [accs[n].id] else [])
  }

  /** One more checkbox in document order adds its id when it is checked and readable. */
  lemma SelectedAccessoryIdsStep(accs: seq<Accessory>, checked: set<nat>, i: nat)
    requires i < |accs|
    ensures SelectedAccessoryIds(accs[..i + 1], checked)
         == SelectedAccessoryIds(accs[..i], checked)
            + (if i in checked && accs[i].id >= 0 then [accs[i].id] else [])
  {
    assert accs[..i + 1][..i] == accs[..i];
  }

  /** The checkbox positions `0, 1, ..., n - 1`, in document order. */
  function Indices(n: nat): (r: seq<nat>)
    ensures |r| == n && forall i :: 0 <= i < n ==> r[i] == i
  {
    if n == 0 then [] else Indices(n - 1) + [n - 1]
  }

  /** Checkbox `i` is checked and its id can be read back from the element id. */
  function Readable(accs: seq<Accessory>, checked: set<nat>): nat -> bool {
    (i: nat) => i < |accs| && i in checked && accs[i].id >= 0
  }

  /**
   * The ids come in document order, one per checked, readable checkbox: the k-th id is the id
   * of the k-th such checkbox.
   */
  lemma SelectedAccessoryIdsOrder(accs: seq<Accessory>, checked: set<nat>)
    ensures var ids := SelectedAccessoryIds(accs, checked);
            var pos := Positions(Indices(|accs|), Readable(accs, checked));
            |ids| == |pos| && forall k :: 0 <= k < |ids| ==> ids[k] == accs[pos[k]].id
  {
    SelectedAccessoryIdsPrefix(accs, checked, |accs|);
    assert accs[..|accs|] == accs;
  }

  lemma {:induction false} SelectedAccessoryIdsPrefix(accs: seq<Accessory>, checked: set<nat>, m: nat)
    requires m <= |accs|
    ensures var ids := SelectedAccessoryIds(accs[..m], checked);
            var pos := Positions(Indices(m), Readable(accs, checked));
            |ids| == |pos| && forall k :: 0 <= k < |ids| ==> pos[k] < m && ids[k] == accs[pos[k]].id
  {
    if m > 0 {
      var n := m - 1;
      SelectedAccessoryIdsPrefix(accs, checked, n);
      SelectedAccessoryIdsStep(accs, checked, n);
      var R := Readable(accs, checked);
      var ids, pos := SelectedAccessoryIds(accs[..n], checked), Positions(Indices(n), R);
      assert SelectedAccessoryIds(accs[..m], checked)
          == ids + (if R(n) then [accs[n].id] else []);
      assert Indices(m)[..n] == Indices(n) && Indices(m)[n] == n;
      assert Positions(Indices(m), R) == pos + (if R(n) then [n] else []);
      IdsAtPositionsAppend(accs, ids, pos, n, R(n));
    }
  }

  /** Appending checkbox `n`'s id and position, or neither, keeps ids and positions paired. */
  lemma IdsAtPositionsAppend(accs: seq<Accessory>, ids: seq<int>, pos: seq<nat>, n: nat, b: bool)
    requires n < |accs| && |ids| == |pos|
    requires forall k :: 0 <= k < |ids| ==> pos[k] < n && ids[k] == accs[pos[k]].id
    ensures var ids', pos' := ids + (if b then [accs[n].id] else []), pos + (if b then [n] else []);
            |ids'| == |pos'|
            && forall k :: 0 <= k < |ids'| ==> pos'[k] < n + 1 && ids'[k] == accs[pos'[k]].id
  {
  }

  /** What the page's state contributes to `calculateMatchLevel`. */
  function SelectionOf(p: Page): (s: Selection)
    ensures s.engine == p.config.engine && s.trim == p.config.trim && s.year == p.config.year
    ensures s.yearCode == p.config.yearCode && s.color == p.config.color
    ensures s.colorCode == SelectedColorCode(p)
    ensures s.accessoryIds == SelectedAccessoryIds(p.form.accessories, p.form.accessoriesChecked)
  {
    Selection(p.config.engine, p.config.trim, p.config.year, p.config.yearCode, p.config.color,
              SelectedColorCode(p), SelectedAccessoryIds(p.form.accessories, p.form.accessoriesChecked))
  }

  /**
   * After a trim whose engine+trim combinations have no year list, no stock unit is a full
   * match, since the selection has no year.
   */
  lemma NoFullMatchWithoutYears(p: Page, trimId: int, u: StockUnit)
    requires u.config.Some?
    requires YearsSkipped(p.(config := p.config.(trim := Some(trimId))))
    ensures Level(SelectionOf(TrimChange(p, trimId)), u) != FullMatch
  {
    var q := TrimChange(p, trimId);
    assert q.config.year.None?;
    if Level(SelectionOf(q), u) == FullMatch {
      FullMatchNeedsYearAndColour(SelectionOf(q), u);
    }
  }

  // ---------------------------------------------------------------- dealers and stock

  /**
   * `loadAreaOptions` after the dealer request: the active dealers are kept and the area
   * choices are their distinct areas. A failed request changes nothing.
   */
  function LoadAreaOptions(p: Page, fetched: Option<seq<Dealer>>): (q: Page)
    ensures WellFormed(p) ==> WellFormed(q)
    ensures fetched.None? ==> q == p
    ensures fetched.Some? ==>
              q == p.(shop := p.shop.(dealers := ActiveDealers(fetched.value),
                                      areas := q.shop.areas))
    ensures fetched.Some? ==>
              forall a :: a in q.shop.areas <==>
                a != [] && exists d :: d in q.shop.dealers && d.area == Some(a)
  {
    match fetched
    case None => p
    case Some(ds) =>
      var active := ActiveDealers(ds);
      AreaChoicesSpec(DealerAreas(active));
      AreasOfDealers(active);
      p.(shop := p.shop.(dealers := active, areas := AreaChoices(DealerAreas(active))))
  }

  lemma AreasOfDealers(ds: seq<Dealer>)
    ensures forall a :: Some(a) in DealerAreas(ds) <==> exists d :: d in ds && d.area == Some(a)
  {
    forall a ensures Some(a) in DealerAreas(ds) <==> exists d :: d in ds && d.area == Some(a) {
      if Some(a) in DealerAreas(ds) {
        var i :| 0 <= i < |ds| && DealerAreas(ds)[i] == Some(a);
        assert ds[i] in ds;
      }
      if exists d :: d in ds && d.area == Some(a) {
        var d :| d in ds && d.area == Some(a);
        var i :| 0 <= i < |ds| && ds[i] == d;
        assert DealerAreas(ds)[i] == Some(a);
      }
    }
  }

  /**
   * What `fetchStockData(name)` does to the stock part of `p`, leaving `q`: with a model, a
   * dealer name and a response, the units are stored and their cards built from the selection
   * of the moment and the dealer name the page holds (not the argument), and the section is
   * shown exactly when there is a unit. Without a model or a name, or when the request fails, the
   * section is hidden and the stored units and cards stay.
   */
  predicate StockFetched(p: Page, name: Option<string>, response: Option<seq<StockUnit>>, q: Page) {
    if p.config.model.Some? && TruthyString(name) && response.Some? then
      && q.shop.stockData == response.value
      && q.shop.cards == StockCards(SelectionOf(p), q.shop.dealerName.GetOr(""), response.value)
      && (q.shop.stockVisible <==> response.value != [])
    else
      && q.shop.stockData == p.shop.stockData && q.shop.cards == p.shop.cards
      && !q.shop.stockVisible
  }

  /**
   * `fetchStockData(name)` with the response of the stock request (`None` when it fails):
   * only the stock part changes.
   */
  function FetchStock(p: Page, name: Option<string>, response: Option<seq<StockUnit>>): (q: Page)
    ensures StockFetched(p, name, response, q)
    ensures q == p.(shop := p.shop.(stockData := q.shop.stockData, cards := q.shop.cards,
                                    stockVisible := q.shop.stockVisible))
  {
    if p.config.model.None? || !TruthyString(name) then p.(shop := p.shop.(stockVisible := false))
    else
      match response
      case None => p.(shop := p.shop.(stockVisible := false))
      case Some(units) =>
        p.(shop := p.shop.(stockData := units, cards := StockCards(SelectionOf(p), p.shop.dealerName.GetOr(""), units),
                           stockVisible := units != []))
  }

  /**
   * The change listener of dealer radio `i`: the retail id and the dealer name become the
   * dealer's, then its stock is fetched; the selection the cards are built from is the one
   * before the listener ran, as the retail choice is not part of it.
   */
  function DealerSelected(p: Page, i: nat, response: Option<seq<StockUnit>>): (q: Page)
    requires i < |p.shop.dealerOptions|
    ensures q.config == p.config.(retail := Some(p.shop.dealerOptions[i].id))
    ensures q.shop.dealerName == p.shop.dealerOptions[i].name
    ensures q.shop.dealerChecked == Some(i)
    ensures q.shop.dealers == p.shop.dealers && q.shop.areas == p.shop.areas
    ensures q.shop.dealerOptions == p.shop.dealerOptions
    ensures q.form == p.form && q.data == p.data
    ensures StockFetched(p, p.shop.dealerOptions[i].name, response, q)
    ensures WellFormed(p) ==> WellFormed(q)
  {
    var d := p.shop.dealerOptions[i];
    var r := p.(config := p.config.(retail := Some(d.id)),
                shop := p.shop.(dealerChecked := Some(i), dealerName := d.name));
    assert SelectionOf(r) == SelectionOf(p);
    FetchStock(r, d.name, response)
  }

  /**
   * `handleAreaChange(area)`: the empty choice empties and hides the dealer list, forgets the
   * dealer name and hides the stock section. Any other area lists its dealers in the order of
   * the loaded list; when there is one, the first is checked and its listener runs, which
   * selects it and fetches its stock. An area without dealers leaves an empty list and
   * nothing else changes.
   */
  function HandleAreaChange(p: Page, area: string, response: Option<seq<StockUnit>>): (q: Page)
    ensures area == [] ==>
              q == p.(shop := p.shop.(dealerOptions := [], dealerChecked := None,
                                      dealerName := None, stockVisible := false))
    ensures area != [] ==> q.shop.dealerOptions == DealersInArea(p.shop.dealers, area)
    ensures area != [] && FirstWhere(p.shop.dealers, InArea(area)).None? ==>
              q == p.(shop := p.shop.(dealerOptions := [], dealerChecked := None))
    ensures area != [] && FirstWhere(p.shop.dealers, InArea(area)).Some? ==>
              var d := p.shop.dealers[FirstWhere(p.shop.dealers, InArea(area)).value];
              && q.shop.dealerChecked == Some(0)
              && q.config == p.config.(retail := Some(d.id))
              && q.shop.dealerName == d.name
              && StockFetched(p, d.name, response, q)
    ensures q.form == p.form && q.data == p.data
    ensures q.shop.dealers == p.shop.dealers && q.shop.areas == p.shop.areas
    ensures WellFormed(p) ==> WellFormed(q)
  {
    if area == [] then
      p.(shop := p.shop.(dealerOptions := [], dealerChecked := None, dealerName := None,
                         stockVisible := false))
    else
      var ds := DealersInArea(p.shop.dealers, area);
      var r := p.(shop := p.shop.(dealerOptions := ds, dealerChecked := None));
      assert SelectionOf(r) == SelectionOf(p);
      if ds != [] then DealerSelected(r, 0, response) else r
  }

  // ---------------------------------------------------------------- start-up

  /**
   * `init` with the `model` query parameter `slug` and the three responses (`None` for a
   * request that fails): the model found by its slug is selected, the dealers are loaded, the
   * catalog is loaded and the engine radios are rendered. Without a slug or a model the page
   * stays empty; without a catalog it stops after the dealers.
   */
  function Init(slug: string, modelResp: Option<ModelResponse>, dealers: Option<seq<Dealer>>,
                catalog: Option<seq<Combination>>): Page
  {
    if slug == [] || modelResp.None? then InitialPage
    else
      match FindModelBySlug(modelResp.value, slug)
      case None => InitialPage
      case Some(m) =>
        var shown := InitialPage.(config := EmptyConfig.(model := Some(m)),
                                  form := InitialPage.form.(shownTotal := Some(Adj(m.price))));
        var p := LoadAreaOptions(shown, dealers);
        match catalog
        case None => p
        case Some(data) => UpdateEngineOptions(p.(data := data))
  }

  /**
   * What `init` leaves behind: a well-formed page, empty without a slug or a model response,
   * with the model found by its slug, its brand's active dealers and their areas loaded, the
   * catalog loaded (with the year lists of the combination first shown sorted) and its
   * engines rendered, the first one selected. Without an engine to select, the price shown is
   * still the model's own, as `updateModelInfo` wrote it.
   */
  lemma InitSpec(slug: string, modelResp: Option<ModelResponse>, dealers: Option<seq<Dealer>>,
                 catalog: Option<seq<Combination>>)
    ensures var q := Init(slug, modelResp, dealers, catalog);
      && WellFormed(q)
      && (slug == [] || modelResp.None? ==> q == InitialPage)
      && (slug != [] && modelResp.Some? ==> q.config.model == FindModelBySlug(modelResp.value, slug))
      && (q.config.model.Some? ==>
            && q.shop.dealers == (if dealers.Some? then ActiveDealers(dealers.value) else [])
            && q.shop.areas == AreaChoices(DealerAreas(q.shop.dealers)))
      && (q.config.model.Some? && catalog.Some? ==>
            && SameCatalog(catalog.value, q.data)
            && q.form.engines == EngineOptions(catalog.value)
            && (q.form.engines != [] ==> q.config.engine == Some(q.form.engines[0].id)))
      && (catalog.None? ==> q.data == [])
      && (q.config.model.Some? && q.form.engines == [] ==>
            q.form.shownTotal == Some(Adj(q.config.model.value.price)))
  {
    InitialPageWellFormed();
    if slug != [] && modelResp.Some? {
      match FindModelBySlug(modelResp.value, slug)
      case None =>
      case Some(m) =>
        var p0 := InitialPage.(config := EmptyConfig.(model := Some(m)),
                               form := InitialPage.form.(shownTotal := Some(Adj(m.price))));
        assert WellFormed(p0);
        var p := LoadAreaOptions(p0, dealers);
        assert WellFormed(p) && p.config.model == Some(m);
        assert DealerAreas([]) == [];
        assert AreaChoices([]) == [];
        if catalog.Some? {
          assert WellFormed(p.(data := catalog.value));
        }
    }
  }
}
