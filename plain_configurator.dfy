/**
 * The plain configurator page as an object: the fields its handlers update in place, and one
 * method per handler and per change listener, each proved to leave the page in the state the
 * matching step function of PlainPage describes.
 */
module PlainConfigurator {
  import opened Wrappers
  import opened Seqs
  import opened Dedup
  import opened Catalog
  import opened Pricing
  import opened Lookup
  import opened Dealers
  import opened PlainPage

  class ConfiguratorPage {
    /** `configurationData`. */
    var data: seq<Combination>
    /** `currentConfig`. */
    var config: Config
    /** The rendered radio and checkbox groups. */
    var form: Form
    /** `dealersData`: the brand's dealers. */
    var dealersData: seq<BrandDealer>
    /** The area choices of the area select. */
    var areaOptions: seq<string>
    /** The dealer radios of the chosen area, and which one is checked. */
    var dealerOptions: seq<BrandDealer>
    var dealerChecked: Option<nat>

    ghost function State(): Page
      reads this
    {
      Page(data, config, form, Shop(dealersData, areaOptions, dealerOptions, dealerChecked))
    }

    /** The constructor's field initialisation: nothing configured, nothing rendered. */
    constructor()
      ensures State() == InitialPage
    {
      data := [];
      config := EmptyConfig;
      form := EmptyForm;
      dealersData := [];
      areaOptions := [];
      dealerOptions := [];
      dealerChecked := None;
    }

    /**
     * `init`, which the constructor calls: `slug` is the `model` query parameter, `brandSlug`
     * the first path segment, and the other arguments the responses of the model, dealer and
     * catalog requests.
     */
    method Init(slug: string, brandSlug: string, modelResp: Option<ModelResponse>,
                dealers: Option<seq<BrandDealer>>, catalog: Option<seq<Combination>>)
      requires State() == InitialPage
      modifies this
      ensures State() == PlainPage.Init(slug, brandSlug, modelResp, dealers, catalog)
    {
      if slug != [] && modelResp.Some? {
        var model := FindModelBySlug(modelResp.value, slug);
        if model.Some? {
          config := config.(model := model);
          form := form.(shownTotal := Some(Adj(model.value.price)));
          assert State() == InitialPage.(config := EmptyConfig.(model := model),
                                         form := InitialPage.form.(shownTotal := Some(Adj(model.value.price))));
          LoadAreaOptions(brandSlug, dealers);
          if catalog.Some? {
            data := catalog.value;
            UpdateEngineOptions();
          }
        }
      }
    }

    /** `loadAreaOptions` with the dealer response (`None` when the request fails). */
    method LoadAreaOptions(brandSlug: string, fetched: Option<seq<BrandDealer>>)
      modifies this
      ensures State() == PlainPage.LoadAreaOptions(old(State()), brandSlug, fetched)
    {
      if fetched.Some? {
        var currentBrandDealers := BrandDealers(fetched.value, BrandIdFromSlug(brandSlug));
        var areas := CollectAreas(BrandDealerAreas(currentBrandDealers));
        areaOptions := areas;
        dealersData := currentBrandDealers;
      }
    }

    /** `updateEngineOptions`: the distinct engines, the first one selected. */
    method UpdateEngineOptions()
      modifies this
      ensures State() == PlainPage.UpdateEngineOptions(old(State()))
    {
      if config.model.None? {
        return;
      }
      var engines := CollectUnique(EngineGroups(data), EngineId);
      form := form.(engines := engines, engineChecked := None);
      if engines != [] {
        EngineSelected(0);
      }
    }

    /** The change listener of engine radio `i`. */
    method EngineSelected(i: nat)
      requires i < |form.engines|
      modifies this
      ensures State() == PlainPage.EngineSelected(old(State()), i)
    {
      var id := form.engines[i].id;
      form := form.(engineChecked := Some(i));
      config := config.(engine := Some(id));
      assert State() == old(State()).(config := old(config).(engine := Some(id)),
                                      form := old(form).(engineChecked := Some(i)));
      UpdatePriceDisplays();
      HandleEngineChange(id);
    }

    /** `handleEngineChange`. */
    method HandleEngineChange(engineId: int)
      modifies this
      ensures State() == EngineChange(old(State()), engineId)
    {
      config := config.(engine := Some(engineId));
      var availableTrims := GetTrimsForEngine(engineId);
      config := config.(trim := None);
      RenderTrimOptions(availableTrims);
    }

    /** `getTrimsForEngine`: the trims of the engine's combinations, de-duplicated by id. */
    method GetTrimsForEngine(engineId: int) returns (trims: seq<Trim>)
      ensures trims == TrimsForEngine(data, engineId)
    {
      var relevant := Filter(data, c => HasEngine(c, engineId));
      trims := CollectUnique(TrimGroups(relevant), TrimId);
    }

    /** `renderTrimOptions`. */
    method RenderTrimOptions(trims: seq<Trim>)
      modifies this
      ensures State() == PlainPage.RenderTrimOptions(old(State()), trims)
    {
      form := form.(trims := trims, trimChecked := None);
      if trims != [] {
        TrimSelected(0);
      }
    }

    /** The change listener of trim radio `i`. */
    method TrimSelected(i: nat)
      requires i < |form.trims|
      modifies this
      ensures State() == PlainPage.TrimSelected(old(State()), i)
    {
      var id := form.trims[i].id;
      config := config.(trim := Some(id));
      form := form.(trimChecked := Some(i));
      assert State() == old(State()).(config := old(config).(trim := Some(id)),
                                      form := old(form).(trimChecked := Some(i)));
      UpdatePriceDisplays();
      HandleTrimChange(id);
    }

    /** `getColorsForTrim`: the `_colors` of the engine+trim combinations, de-duplicated by id. */
    method GetColorsForTrim(engine: Option<int>, trimId: int) returns (colors: seq<Colour>)
      ensures colors == ColoursForTrim(data, engine, trimId)
    {
      var relevant := Filter(data, c => MatchesEngine(c, engine) && HasTrim(c, trimId));
      colors := CollectUnique(ColourGroups(relevant), ColourId);
    }

    /** `handleTrimChange`: the colours it collects are handed to a renderer that ignores them. */
    method HandleTrimChange(trimId: int)
      modifies this
      ensures State() == TrimChange(old(State()), trimId)
    {
      config := config.(trim := Some(trimId));
      var availableColors := GetColorsForTrim(config.engine, trimId);
      RenderColorOptions(availableColors);
      RenderAccessoryOptions();
    }

    /** `renderColorOptions(colors)`: the swatches of the engine+trim combination. */
    method RenderColorOptions(colors: seq<Colour>)
      modifies this
      ensures State() == RenderColourOptions(old(State()))
    {
      var k := EngineTrimCombination(data, config.engine, config.trim);
      var colorOptions := if k.Some? && data[k.value].colorOptions.Some?
                          then data[k.value].colorOptions.value else [];
      var activeColors := Filter(colorOptions, IsActive);
      form := form.(colours := activeColors,
                    colourChecked := if activeColors != [] then Some(0) else None);
    }

    /** The change listener of swatch `i`. */
    method ColourSelected(i: nat)
      requires i < |form.colours|
      modifies this
      ensures State() == PlainPage.ColourSelected(old(State()), i)
    {
      config := config.(color := Some(form.colours[i].colorName));
      form := form.(colourChecked := Some(i));
      UpdatePriceDisplays();
    }

    /** `renderAccessoryOptions`: unchecked checkboxes for the engine and trim. */
    method RenderAccessoryOptions()
      modifies this
      ensures State() == PlainPage.RenderAccessoryOptions(old(State()))
    {
      var k := EngineTrimCombination(data, config.engine, config.trim);
      var accessories := FirstAccessoryList(data, k);
      form := form.(accessories := accessories, accessoriesChecked := {});
    }

    /** A click on accessory checkbox `i`. */
    method AccessoryToggled(i: nat)
      requires i < |form.accessories|
      modifies this
      ensures State() == ToggleAccessory(old(State()), i)
    {
      if i in form.accessoriesChecked {
        form := form.(accessoriesChecked := form.accessoriesChecked - {i});
      } else {
        form := form.(accessoriesChecked := form.accessoriesChecked + {i});
      }
      UpdatePriceDisplays();
    }

    /** `updatePriceDisplays`: the total is computed and written into the price displays. */
    method UpdatePriceDisplays()
      modifies this
      ensures State() == RefreshPrices(old(State()))
    {
      var totalPrice := ComputeTotal();
      form := form.(shownTotal := Some(totalPrice));
    }

    /**
     * The total `updatePriceDisplays` computes: the model price and the checked inputs, the
     * accessories summed in document order.
     */
    method ComputeTotal() returns (totalPrice: int)
      ensures totalPrice == TotalPrice(State())
    {
      var accessoryAdjustments := 0;
      var i := 0;
      while i < |form.accessories|
        invariant 0 <= i <= |form.accessories|
        invariant accessoryAdjustments == CheckedSum(form.accessories[..i], form.accessoriesChecked)
      {
        assert form.accessories[..i + 1][..i] == form.accessories[..i];
        if i in form.accessoriesChecked {
          accessoryAdjustments := accessoryAdjustments + Adj(form.accessories[i].priceAdjustment);
        }
        i := i + 1;
      }
      assert form.accessories[..i] == form.accessories;
      totalPrice := ModelPrice(config) + EngineAdjustment(form) + TrimAdjustment(data, form)
                    + ColourAdjustment(form) + accessoryAdjustments;
    }

    /** `handleAreaChange`. */
    method HandleAreaChange(selectedArea: string)
      modifies this
      ensures State() == PlainPage.HandleAreaChange(old(State()), selectedArea)
    {
      dealerOptions := [];
      dealerChecked := None;
      if selectedArea == [] {
        return;
      }
      dealerOptions := BrandDealersInArea(dealersData, selectedArea);
    }

    /** The change listener of dealer radio `i`. */
    method DealerSelected(i: nat)
      requires i < |dealerOptions|
      modifies this
      ensures State() == PlainPage.DealerSelected(old(State()), i)
    {
      config := config.(retail := Some(dealerOptions[i].dealersId));
      dealerChecked := Some(i);
    }
  }
}
