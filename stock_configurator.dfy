/**
 * The stock configurator page as an object: the fields its handlers update in place, and one
 * method per handler and per change listener. Each method is proved to leave the page in the
 * state the matching step function of StockPage describes; the properties of those functions
 * are proved there.
 */
module StockConfigurator {
  import opened Wrappers
  import opened Seqs
  import opened Dedup
  import opened Catalog
  import opened Pricing
  import opened Lookup
  import opened Dealers
  import opened StockMatch
  import opened StockPage

  class ConfiguratorPage {
    /** `configurationData`: the catalog of combinations; its `year_obj` lists get sorted. */
    var data: seq<Combination>
    /** `currentConfig`. */
    var config: Config
    /** The rendered radio and checkbox groups. */
    var form: Form
    /** `dealersData`: the active dealers. */
    var dealersData: seq<Dealer>
    /** The area choices of the area select. */
    var areaOptions: seq<string>
    /** The dealer radios of the chosen area, and which one is checked. */
    var dealerOptions: seq<Dealer>
    var dealerChecked: Option<nat>
    /** `currentDealerName`. */
    var currentDealerName: Option<string>
    /** `stockData`. */
    var stockData: seq<StockUnit>
    /** The cards of the stock list and whether the stock section is shown. */
    var stockCards: seq<StockCard>
    var stockVisible: bool

    ghost function State(): Page
      reads this
    {
      Page(data, config, form,
           Shop(dealersData, areaOptions, dealerOptions, dealerChecked, currentDealerName,
                stockData, stockCards, stockVisible))
    }

    /** The constructor's field initialisation: nothing configured, nothing rendered. */
    constructor()
      ensures State() == InitialPage
    {
      data := [];
      config := EmptyConfig;
      form := EmptyForm;
      dealersData := [];
      areaOptions := [];
      dealerOptions := [];
      dealerChecked := None;
      currentDealerName := None;
      stockData := [];
      stockCards := [];
      stockVisible := false;
    }

    /**
     * `init`, which the constructor calls: `slug` is the `model` query parameter and the other
     * arguments are the responses of the model, dealer and catalog requests.
     */
    method Init(slug: string, modelResp: Option<ModelResponse>, dealers: Option<seq<Dealer>>,
                catalog: Option<seq<Combination>>)
      requires State() == InitialPage
      modifies this
      ensures State() == StockPage.Init(slug, modelResp, dealers, catalog)
    {
      if slug != [] && modelResp.Some? {
        var model := FindModelBySlug(modelResp.value, slug);
        if model.Some? {
          config := config.(model := model);
          form := form.(shownTotal := Some(Adj(model.value.price)));
          ghost var start := InitialPage.(config := EmptyConfig.(model := model),
                                          form := InitialPage.form.(shownTotal := Some(Adj(model.value.price))));
          assert State() == start;
          LoadAreaOptions(dealers);
          ghost var loaded := StockPage.LoadAreaOptions(start, dealers);
          if catalog.Some? {
            data := catalog.value;
            assert State() == loaded.(data := catalog.value);
            UpdateEngineOptions();
          }
        }
      }
    }

    /** `loadAreaOptions` with the dealer response (`None` when the request fails). */
    method LoadAreaOptions(fetched: Option<seq<Dealer>>)
      modifies this
      ensures State() == StockPage.LoadAreaOptions(old(State()), fetched)
    {
      if fetched.Some? {
        var active := Filter(fetched.value, DealerActive);
        var areas := CollectAreas(DealerAreas(active));
        areaOptions := areas;
        dealersData := active;
      }
    }

    /** `updateEngineOptions`: the distinct engines, the first one selected. */
    method UpdateEngineOptions()
      modifies this
      ensures State() == StockPage.UpdateEngineOptions(old(State()))
    {
      if config.model.None? {
        return;
      }
      var engines := CollectUnique(EngineGroups(data), EngineId);
      form := form.(engines := engines, engineChecked := None);
      if engines != [] {
        EngineSelected(0);
      }
    }

    /** The change listener of engine radio `i`. */
    method EngineSelected(i: nat)
      requires i < |form.engines|
      modifies this
      ensures State() == StockPage.EngineSelected(old(State()), i)
    {
      var engineId := form.engines[i].id;
      form := form.(engineChecked := Some(i));
      config := config.(engine := Some(engineId));
      assert State() == old(State()).(config := old(config).(engine := Some(engineId)),
                                      form := old(form).(engineChecked := Some(i)));
      UpdatePriceDisplays();
      HandleEngineChange(engineId);
    }

    /** `handleEngineChange`. */
    method HandleEngineChange(engineId: int)
      modifies this
      ensures State() == EngineChange(old(State()), engineId)
    {
      config := config.(engine := Some(engineId));
      var availableTrims := GetTrimsForEngine(engineId);
      config := config.(trim := None);
      RenderTrimOptions(availableTrims);
    }

    /** `getTrimsForEngine`: the trims of the engine's combinations, de-duplicated by id. */
    method GetTrimsForEngine(engineId: int) returns (trims: seq<Trim>)
      ensures trims == TrimsForEngine(data, engineId)
    {
      var relevant := Filter(data, c => HasEngine(c, engineId));
      trims := CollectUnique(TrimGroups(relevant), TrimId);
    }

    /** `renderTrimOptions`. */
    method RenderTrimOptions(trims: seq<Trim>)
      modifies this
      ensures State() == StockPage.RenderTrimOptions(old(State()), trims)
    {
      form := form.(trims := trims, trimChecked := None);
      if trims != [] {
        TrimSelected(0);
      }
    }

    /** The change listener of trim radio `i`. */
    method TrimSelected(i: nat)
      requires i < |form.trims|
      modifies this
      ensures State() == StockPage.TrimSelected(old(State()), i)
    {
      var trimId := form.trims[i].id;
      config := config.(trim := Some(trimId));
      form := form.(trimChecked := Some(i));
      assert State() == old(State()).(config := old(config).(trim := Some(trimId)),
                                      form := old(form).(trimChecked := Some(i)));
      UpdatePriceDisplays();
      HandleTrimChange(trimId);
    }

    /** `handleTrimChange`. */
    method HandleTrimChange(trimId: int)
      modifies this
      ensures State() == TrimChange(old(State()), trimId)
    {
      config := config.(trim := Some(trimId), year := None, color := None);
      ResetColorDisplay();
      UpdateYearOptions();
      RenderAccessoryOptions();
    }

    /** `resetColorDisplay`. */
    method ResetColorDisplay()
      modifies this
      ensures State() == ResetColourDisplay(old(State()))
    {
      form := form.(colourChecked := None);
      config := config.(color := None);
    }

    /**
     * `updateYearOptions`: sorts the first year list of the engine and trim in place, renders
     * it and selects its first year.
     */
    method UpdateYearOptions()
      modifies this
      ensures State() == StockPage.UpdateYearOptions(old(State()))
    {
      if config.model.None? || !Truthy(config.engine) || !Truthy(config.trim) {
        return;
      }
      var k := YearCombination(data, config.engine, config.trim);
      if k.None? {
        return;
      }
      var yearObjs := YearsDescending(data[k.value].yearObj);
      YearsDescendingSpec(data[k.value].yearObj);
      assert |multiset(yearObjs)| == |multiset(data[k.value].yearObj)|;
      data := data[k.value := data[k.value].(yearObj := yearObjs)];
      form := form.(years := yearObjs, yearChecked := Some(0));
      YearSelected(0);
    }

    /** The change listener of year radio `i`. */
    method YearSelected(i: nat)
      requires i < |form.years|
      modifies this
      ensures State() == YearChange(old(State()), i)
    {
      var yearObj := form.years[i];
      config := config.(year := Some(yearObj.year), yearCode := Some(yearObj.yearCode),
                        yearPrice := Some(Adj(yearObj.price)));
      form := form.(yearChecked := Some(i));
      UpdateColorOptionsForYear(yearObj.year);
      UpdatePriceDisplays();
    }

    /** `updateColorOptionsForYear`. */
    method UpdateColorOptionsForYear(year: int)
      modifies this
      ensures State() == ColoursForYear(old(State()), year)
    {
      if !Truthy(config.engine) || !Truthy(config.trim) || year == 0 {
        return;
      }
      var specific := YearEditionCombination(data, config.engine, config.trim, Some(year));
      if specific.None? || data[specific.value].colorOptions.None? {
        return;
      }
      config := config.(color := None);
      ResetColorDisplay();
      RenderColorOptions();
    }

    /** `renderColorOptions`: the swatches of the engine+trim combination, the first selected. */
    method RenderColorOptions()
      modifies this
      ensures State() == RenderColourOptions(old(State()))
    {
      form := form.(colours := [], colourChecked := None);
      var k := EngineTrimCombination(data, config.engine, config.trim);
      if k.None? || data[k.value].colorOptions.None? {
        return;
      }
      var activeColors := SortedActiveColours(data[k.value].colorOptions.value);
      form := form.(colours := activeColors);
      if activeColors != [] {
        form := form.(colourChecked := Some(0));
        ColourSelected(0);
      }
    }

    /** The change listener of swatch `i`. */
    method ColourSelected(i: nat)
      requires i < |form.colours|
      modifies this
      ensures State() == StockPage.ColourSelected(old(State()), i)
    {
      form := form.(colourChecked := Some(i));
      config := config.(color := Some(form.colours[i].colorName));
      UpdatePriceDisplays();
    }

    /** `renderAccessoryOptions`: unchecked checkboxes for the engine, trim and year. */
    method RenderAccessoryOptions()
      modifies this
      ensures State() == StockPage.RenderAccessoryOptions(old(State()))
    {
      var k := YearEditionCombination(data, config.engine, config.trim, config.year);
      var accessories := FirstAccessoryList(data, k);
      form := form.(accessories := accessories, accessoriesChecked := {});
    }

    /** A click on accessory checkbox `i`. */
    method AccessoryToggled(i: nat)
      requires i < |form.accessories|
      modifies this
      ensures State() == ToggleAccessory(old(State()), i)
    {
      if i in form.accessoriesChecked {
        form := form.(accessoriesChecked := form.accessoriesChecked - {i});
      } else {
        form := form.(accessoriesChecked := form.accessoriesChecked + {i});
      }
      UpdatePriceDisplays();
    }

    /** `updatePriceDisplays`: the total is computed and written into the price displays. */
    method UpdatePriceDisplays()
      modifies this
      ensures State() == RefreshPrices(old(State()))
    {
      var totalPrice := ComputeTotal();
      form := form.(shownTotal := Some(totalPrice));
    }

    /**
     * The total `updatePriceDisplays` computes: the model price and the prices of the checked
     * inputs, with the accessories summed in document order.
     */
    method ComputeTotal() returns (totalPrice: int)
      ensures totalPrice == TotalPrice(State())
    {
      var accessoryAdjustments := 0;
      var i := 0;
      while i < |form.accessories|
        invariant 0 <= i <= |form.accessories|
        invariant accessoryAdjustments == CheckedSum(form.accessories[..i], form.accessoriesChecked)
      {
        assert form.accessories[..i + 1][..i] == form.accessories[..i];
        if i in form.accessoriesChecked {
          accessoryAdjustments := accessoryAdjustments + Adj(form.accessories[i].priceAdjustment);
        }
        i := i + 1;
      }
      assert form.accessories[..i] == form.accessories;
      totalPrice := ModelPrice(config) + EngineAdjustment(form) + TrimAdjustment(data, form)
                    + ColourAdjustment(form) + YearAdjustment(form) + accessoryAdjustments;
    }

    /** `getSelectedAccessories`: the ids of the checked checkboxes, in document order. */
    method GetSelectedAccessories() returns (accessoryIds: seq<int>)
      ensures accessoryIds == SelectedAccessoryIds(form.accessories, form.accessoriesChecked)
    {
      var accessories, checked := form.accessories, form.accessoriesChecked;
      accessoryIds := [];
      var i := 0;
      while i < |accessories|
        invariant 0 <= i <= |accessories|
        invariant accessoryIds == SelectedAccessoryIds(accessories[..i], checked)
      {
        SelectedAccessoryIdsStep(accessories, checked, i);
        if i in checked && accessories[i].id >= 0 {
          accessoryIds := accessoryIds + [accessories[i].id];
        }
        i := i + 1;
      }
      assert accessories[..i] == accessories;
    }

    /** `handleAreaChange` with the response of the stock request it leads to. */
    method HandleAreaChange(selectedArea: string, response: Option<seq<StockUnit>>)
      modifies this
      ensures State() == StockPage.HandleAreaChange(old(State()), selectedArea, response)
    {
      dealerOptions := [];
      dealerChecked := None;
      if selectedArea == [] {
        currentDealerName := None;
        stockVisible := false;
        return;
      }
      var dealersInArea := DealersInArea(dealersData, selectedArea);
      dealerOptions := dealersInArea;
      ghost var listed := old(State()).(shop := old(State()).shop.(dealerOptions := dealersInArea,
                                                                  dealerChecked := None));
      assert State() == listed;
      if dealersInArea != [] {
        DealerSelected(0, response);
        assert State() == StockPage.DealerSelected(listed, 0, response);
      }
    }

    /** The change listener of dealer radio `i`. */
    method DealerSelected(i: nat, response: Option<seq<StockUnit>>)
      requires i < |dealerOptions|
      modifies this
      ensures State() == StockPage.DealerSelected(old(State()), i, response)
    {
      var dealer := dealerOptions[i];
      dealerChecked := Some(i);
      config := config.(retail := Some(dealer.id));
      currentDealerName := dealer.name;
      FetchStockData(dealer.name, response);
    }

    /** `fetchStockData` with the response of the stock request (`None` when it fails). */
    method FetchStockData(dealerName: Option<string>, response: Option<seq<StockUnit>>)
      modifies this
      ensures State() == FetchStock(old(State()), dealerName, response)
    {
      if config.model.None? || !TruthyString(dealerName) || response.None? {
        stockVisible := false;
        return;
      }
      stockData := response.value;
      UpdateStockDisplay(response.value);
    }

    /**
     * `updateStockDisplay`: one card per unit with a configuration record, matched against
     * the selection of the moment and naming the current dealer; the section is shown when there is any unit.
     */
    method UpdateStockDisplay(units: seq<StockUnit>)
      modifies this
      ensures State() == old(State()).(shop := old(State()).shop.(
                cards := StockCards(SelectionOf(old(State())), old(currentDealerName).GetOr(""), units),
                stockVisible := units != []))
    {
      ghost var before := State();
      var code := GetSelectedColorCode();
      var ids := GetSelectedAccessories();
      var sel := Selection(config.engine, config.trim, config.year, config.yearCode,
                           config.color, code, ids);
      assert sel == SelectionOf(before);
      var dealer := currentDealerName.GetOr("");
      var cards: seq<StockCard> := [];
      var i := 0;
      while i < |units|
        invariant 0 <= i <= |units|
        invariant cards == StockCards(sel, dealer, units[..i])
        modifies {}
      {
        StockCardsStep(sel, dealer, units, i);
        var u := units[i];
        if u.config.Some? {
          cards := cards + [CardOf(sel, dealer, u)];
        }
        i := i + 1;
      }
      assert units[..i] == units;
      assert cards == StockCards(SelectionOf(before), dealer, units);
      stockCards := cards;
      stockVisible := units != [];
    }

    /** `getSelectedColorCode`. */
    method GetSelectedColorCode() returns (code: Option<string>)
      ensures code == SelectedColorCode(State())
    {
      if form.colourChecked.None? {
        return None;
      }
      var k := EngineTrimCombination(data, config.engine, config.trim);
      if k.None? || data[k.value].colorOptions.None? {
        return None;
      }
      var opts := data[k.value].colorOptions.value;
      var j := FirstWhere(opts, NamedAs(config.color));
      if j.None? || opts[j.value].code == Some("") {
        return None;
      }
      code := opts[j.value].code;
    }
  }
}
