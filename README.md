# Vehicle configurator page: a Dafny model

This project models the configuration logic of the `ConfiguratorPage` class of a car-brand web site. The page has two variants:

- `single-config-stock.js` is the configurator with an in-stock vehicle list.
- `single-config.js` is the plain configurator.

A visitor picks an engine, then a trim, then (stock variant only) a model year, then a colour, then optional accessories. Each pick narrows the choices of the next level and auto-selects the first of them. That cascade is the "change" listeners and `dispatchEvent` calls of the source. The page also shows a running price and loads the brand's dealers by area. The stock variant loads the chosen dealer's stock and labels each unit as similar, same trim or full match.

## Structure

Modules:

- `Catalog` (catalog.dfy) holds the records of the configuration catalog and the option derivations shared by both variants:
  - the engines of all combinations;
  - the trims of an engine;
  - the colours of an engine and trim;
  - the first combination matching engine and trim, or engine, trim and year;
  - the year list sorted by descending year code;
  - the active colours sorted by price.
- `Seqs` holds filtering, the positions a filter keeps, and `findIndex`.
- `Dedup` covers the `Set`-guarded push loops that de-duplicate options by id. `UniqueBy` is the specification; the `CollectUnique` method is the loop.
- `StableSort` models `Array.prototype.sort`, which is stable, as an insertion sort. It proves the result sorted, a permutation and stable.
- `Pricing` holds `Math.round` on integers, the sum of checked accessories, the down-payment tiers and the instalment options and payments.
- `Lookup` holds `fetchModelBySlug`'s choice of model and `getBrandIdFromSlug`.
- `Dealers` holds the area choices and the dealers of an area for both dealer-record shapes.
- `StockMatch` holds the match level, the stock price, the accessory text and the cards of the stock list.
- `StockPage` and `PlainPage` hold each variant's page state as a value:
  - the selection record `currentConfig`;
  - the rendered radio and checkbox groups, with which input is checked;
  - the total last written into the price displays;
  - the catalog;
  - the dealer and stock part.

  Every handler is a step function on that state. The contracts state the cascade each handler triggers, what it leaves untouched, and that it preserves the invariant `WellFormed`: every checked index is in range and the selection agrees with the checked inputs.
- `StockConfigurator` and `PlainConfigurator` model the class itself. Its fields are updated in place, with one method per source method and per change listener. Each method is proved to leave the object in the state the matching step function describes (`ensures State() == StepFunction(old(State()))`). The constructor's call of `init` is modelled as the constructor, which yields the empty page, followed by the `Init` method.

Prices are read from the checked inputs, as `updatePriceDisplays` reads `data-price`, not from `currentConfig`. `updatePriceDisplays` runs where the source calls it:

- in the engine, trim, year, colour and accessory listeners;
- in the colour listener that `renderColorOptions` dispatches in the stock variant.

After each run the displays show the total of the checked inputs of that moment.

The stock variant sorts the `year_obj` list of the catalog IN PLACE. The model writes the sorted list back into the catalog: `SameCatalog` states that only the order of year lists changes.

Four behaviours of the code that a reader might not expect are modelled as written:

- The plain variant renders the active colours in catalog order without sorting them.
- Its `handleTrimChange` computes the trim's colours and hands them to a renderer that ignores them.
- In the stock variant, the swatches shown after a year change come from the first engine+trim combination, not from the year-specific combination that was looked up. `YearColoursComeFromEngineTrim` exhibits this.
- After a trim change the displayed total is stale (see "## Findings").

## Model

| member | source | states |
|---|---|---|
| Catalog.AllEnginesMember | single-config-stock.js:821-900 | an engine is among the flattened engine lists exactly when some combination lists it |
| Catalog.EngineOptionsDistinct | single-config-stock.js:821-900 | the engine options have pairwise distinct ids, cover every id of the catalog and keep the first engine seen per id |
| Catalog.EngineOptionsSound | single-config-stock.js:821-900 | every engine option is listed by some combination |
| Catalog.EngineOptionsComplete | single-config-stock.js:821-900 | every engine id of the catalog has an option |
| Catalog.TrimsOfEngineMember | single-config-stock.js:917-941 | a trim is collected for an engine exactly when a combination with that engine lists it |
| Catalog.TrimsForEngineDistinct | single-config-stock.js:917-941 | the engine's trims have distinct ids, cover every id and keep the first trim per id |
| Catalog.TrimsForEngineScoped | single-config-stock.js:917-941 | every trim offered comes from a combination of the chosen engine |
| Catalog.TrimsForEngineComplete | single-config-stock.js:917-941 | every trim id of the engine's combinations is offered |
| Catalog.TrimsForUnknownEngine | single-config-stock.js:917-941 | an engine no combination lists gets no trims |
| Catalog.TrimPrice | single-config-stock.js:958-966 | the price of the first combination listing the trim, 0 when none does |
| Catalog.EngineTrimCombination | single-config-stock.js:1312-1316 | the first combination matching the engine and trim: it matches and no earlier one does; none when no combination matches |
| Catalog.YearCombination | single-config-stock.js:1090-1096 | the first engine+trim combination with a non-empty year list: it matches and no earlier one does; none when none matches |
| Catalog.YearEditionCombination | single-config-stock.js:1203-1208 | the first combination matching engine, trim and the year: it matches and no earlier one does; none when no combination does |
| Catalog.SameCatalogAt | single-config-stock.js:1104-1107 | after the in-place sorts, every combination is the one before with its years reordered |
| Catalog.SameCatalogUpdate | single-config-stock.js:1104-1107 | sorting the year list of one combination in place leaves the same catalog up to year order |
| Catalog.FirstAccessoryList | single-config-stock.js:1233-1298 | the first accessory list of the found combination, empty when there is none |
| Catalog.ColourLeTotalPreorder | single-config-stock.js:1324-1326 | comparing by price adjustment (null as 0) is a total preorder |
| Catalog.SortedActiveColoursSpec | single-config-stock.js:1324-1326 | the swatches are exactly the active colours, in ascending price, a permutation, ties kept in catalog order |
| Catalog.YearsDescendingSpec | single-config-stock.js:1107 | the year list sorted by descending year code is a permutation and keeps ties in order |
| Catalog.YearsDescendingIdempotent | single-config-stock.js:1107 | sorting an already sorted year list changes nothing |
| Catalog.ColoursForTrimDistinct | single-config.js:855-880 | the trim's colours have distinct ids, cover every id and keep the first colour per id |
| Catalog.ColoursForTrimSound | single-config.js:855-880 | every colour collected comes from a combination of that engine and trim |
| Catalog.ColoursForTrimComplete | single-config.js:855-880 | every colour id of those combinations is collected |
| StableSort.SortSorted | single-config-stock.js:1107 | the sort result is ordered |
| StableSort.SortPermutes | single-config-stock.js:1107 | the sort result is a permutation of its input |
| StableSort.SortStable | single-config-stock.js:1107 | elements that compare equal keep their relative order |
| StableSort.SortIdempotent | single-config-stock.js:1107 | sorting twice equals sorting once |
| Dedup.UniqueByKeys | single-config-stock.js:828-838 | de-duplication keeps the set of ids |
| Dedup.UniqueByDistinct | single-config-stock.js:828-838 | the de-duplicated list has distinct ids |
| Dedup.UniqueByFirstSeen | single-config-stock.js:828-838 | for each id the element kept is the first one seen, in first-seen order |
| Dedup.CollectUnique | single-config-stock.js:828-838 | the Set-guarded loop computes the de-duplication of the concatenated groups |
| Dealers.AreaChoicesSpec | single-config-stock.js:551-599 | the area choices are distinct, are exactly the non-empty areas present, and come in the order their first dealers come |
| Dealers.AreaChoicesOrder | single-config-stock.js:551-599 | of two area choices, the earlier one is seen in the dealer list before the later one |
| Dealers.CollectAreas | single-config-stock.js:551-599 | the area loop computes those area choices |
| Dealers.DealersInArea | single-config-stock.js:601-673 | a dealer is listed exactly when its area is the chosen one; the k-th one listed is the k-th dealer of the list in that area, so the first is the first such dealer |
| Dealers.StockAreasHaveDealers | single-config-stock.js:551-673 | every area offered has at least one active dealer, and all of them come from the response |
| Dealers.BrandDealersSpec | single-config.js:434-478 | the brand's dealers, sorted by id: a permutation of the brand filter, ordered, ties kept |
| Dealers.BrandDealersInArea | single-config.js:480-537 | a dealer is listed exactly when its info names the chosen area; the k-th radio is the k-th dealer of the list in that area |
| Lookup.FindModelBySlug | single-config-stock.js:360-394 | an array response yields its first model with the slug, an object response itself when the slug matches, anything else nothing |
| Lookup.BrandIdFromSlug | single-config-stock.js:97-103 | peugeot maps to 1, citroen to 2, anything else to none |
| Pricing.JsRound | single-config-stock.js:249 | Math.round of a quotient: the nearest integer, halves rounded up |
| Pricing.CheckedSumToggle | single-config-stock.js:474-528 | checking one more accessory adds exactly its price adjustment to the accessory sum |
| Pricing.CheckedSumIgnoresBeyond | single-config-stock.js:474-528 | indices with no accessory do not change the sum |
| Pricing.DownPaymentTiers | single-config-stock.js:234-254 | seven tiers, 20% to 50% of the total in 5% steps, each rounded as Math.round |
| Pricing.TiersNondecreasing | single-config-stock.js:234-254 | a higher percentage never gives a smaller tier |
| Pricing.TierAtMostHalf | single-config-stock.js:234-254 | no tier exceeds the 50% tier |
| Pricing.StockMonthlyPayment | single-config-stock.js:256-277 | a payment exists exactly when down payment and months are positive, and it is the rounded remaining amount per month |
| Pricing.MaxInstallment | single-config.js:207-229 | the largest multiple of 5 (in units of 10 000) not above the total |
| Pricing.InstallmentOptions | single-config.js:207-229 | the options are 30, 35, … up to that maximum, and exactly the multiples of 5 in range |
| Pricing.InstallmentOptionsEmpty | single-config.js:207-229 | there is an option exactly when the total reaches 300 000 |
| Pricing.PlainMonthlyPayment | single-config.js:231-249 | a payment exists exactly when amount and months are positive, and it is the rounded amount × 10 000 per month |
| StockMatch.Label | single-config-stock.js:1806-1842 | the three levels carry their three tags |
| StockMatch.CompareAccessories | single-config-stock.js:1881-1895 | equal lengths and every selected id among the unit's ids; both empty compares equal |
| StockMatch.CompareAccessoriesDistinct | single-config-stock.js:1881-1895 | with distinct selected ids, the comparison is equality of the id sets and lengths |
| StockMatch.CompareAccessoriesNotSetEquality | single-config-stock.js:1881-1895 | with a repeated id the comparison accepts lists whose id sets differ |
| StockMatch.Level | single-config-stock.js:1806-1842 | similar exactly when engine or trim differ, full match exactly when engine, trim, year code, colour code and accessories all agree |
| StockMatch.LevelWithoutEngineOrTrim | single-config-stock.js:1806-1842 | with no engine or no trim selected every unit is only similar |
| StockMatch.FullMatchNeedsYearAndColour | single-config-stock.js:1806-1842 | a full match needs a selected year and colour |
| StockMatch.StockColourPrice | single-config-stock.js:1690-1693 | the price of the first colour option with the unit's code, 0 when none has it |
| StockMatch.FirstYearPrice | single-config-stock.js:1689 | the price of the first year entry, 0 without one |
| StockMatch.StockTotalPrice | single-config-stock.js:1686-1696 | model price + trim price + first year price + colour price, each missing part as 0 |
| StockMatch.StockTotalPriceIgnoresEngineAndAccessories | single-config-stock.js:1686-1696 | the unit's engine and accessories do not affect its price |
| StockMatch.StockTotalPriceUnknownColour | single-config-stock.js:1686-1696 | with no trim, year or matching colour the unit costs its model price |
| StockMatch.Join | single-config-stock.js:1699-1704 | empty for no part, the part itself for one; otherwise the parts' lengths plus one separator between each two, starting with the first part |
| StockMatch.JoinAppend | single-config-stock.js:1699-1704 | joining one more name appends the separator and that name |
| StockMatch.StockAccessoriesText | single-config-stock.js:1699-1704 | the fixed text for none, otherwise the names joined by a comma |
| StockMatch.StockColourName | single-config-stock.js:1610-1622 | the name of the first colour option with the unit's code, "" when none has it |
| StockMatch.StockCardsSpec | single-config-stock.js:1566-1633 | one card per unit with a configuration, in order, carrying its level, trim and engine names, price, first year, colour name, accessory text and the dealer name given |
| StockPage.InitialPageWellFormed | single-config-stock.js:2-28 | the freshly constructed page satisfies the invariant |
| StockPage.RenderedColours | single-config-stock.js:1300-1379 | the engine+trim combination's active colours in ascending price; none without that combination or its colours |
| StockPage.RenderColourOptions | single-config-stock.js:1300-1379 | swatches re-rendered; with some, the first is checked and selected and its listener refreshes the displayed total; with none, the selection and the display are left as they were |
| StockPage.ColoursForYear | single-config-stock.js:1197-1230 | past its guards the colour is cleared and the swatches re-rendered; otherwise nothing changes; the invariant holds |
| StockPage.YearColoursComeFromEngineTrim | single-config-stock.js:1197-1230 | a year whose own combination has other colours still shows the engine+trim combination's colours |
| StockPage.ColourSelected | single-config-stock.js:1343-1364 | picking a swatch selects that colour and checks it, the display shows the new total, nothing else changes, the invariant holds |
| StockPage.YearChange | single-config-stock.js:1165-1179 | picking a year sets year, year code and year price, re-renders colours, shows the new total, keeps trim and accessories |
| StockPage.UpdateYearOptions | single-config-stock.js:1083-1194 | on early return nothing changes; otherwise the year list is sorted in the catalog, rendered, and the first year selected with its colours and the total shown; only the order of year lists changes in the catalog |
| StockPage.YearWriteBackIdempotent | single-config-stock.js:1083-1194 | running the year update again keeps the catalog and the years |
| StockPage.RenderAccessoryOptions | single-config-stock.js:1233-1298 | the accessories of the engine+trim+year combination, all unchecked, nothing else changed |
| StockPage.ToggleAccessory | single-config-stock.js:1233-1298 | a click flips exactly that checkbox and the display shows the new total |
| StockPage.TotalPriceUnticked | single-config-stock.js:1233-1298 | re-rendering the accessories lowers the total by exactly the sum of the ticked ones and leaves the displayed total as it was |
| StockPage.TrimChange | single-config-stock.js:1050-1081 | trim set, engine part kept, catalog changed only in year order; without a year list the stale year radios, the catalog and the display stay and year and colour are cleared; accessories of the found combination re-rendered unchecked |
| StockPage.TrimChangeWithYears | single-config-stock.js:1050-1081 | with a year list: the sorted years rendered, the newest selected with its code and price, the colours following that year |
| StockPage.TrimChangeShownTotal | single-config-stock.js:1050-1081 | with a year list, the displayed total is the total of the checked inputs plus the accessories ticked before |
| StockPage.TrimPicked | single-config-stock.js:1005-1017 | the trim listener selects and checks the trim and refreshes the display, changing nothing else |
| StockPage.TrimSelected | single-config-stock.js:1005-1020 | the trim listener's step selects and checks that trim, keeping the engine part and the invariant |
| StockPage.TrimSelectedShownTotal | single-config-stock.js:1005-1020 | after the trim listener, with a year list, the display exceeds the total of the checked inputs by the accessories ticked before |
| StockPage.StaleTotalAfterTrimSelected | single-config-stock.js:1017-1018 | with ticked accessories of non-zero sum, the displayed total differs from the total of the checked inputs |
| StockPage.TrimSelectedRefreshed | single-config-stock.js:1017-1018 | with a refresh after the accessories are re-rendered, the display shows the total of the checked inputs, no accessory counted |
| StockPage.RenderTrimOptions | single-config-stock.js:943-1027 | the trims are rendered; the first is checked and selected, or with none the trim group is emptied and nothing else changes |
| StockPage.EngineChange | single-config-stock.js:902-915 | engine set and its trims rendered with the first selected; with no trims the trim is cleared and all else stays as it was |
| StockPage.EngineSelected | single-config-stock.js:888-896 | the engine listener's step selects and checks that engine, renders its trims, keeps the dealer part |
| StockPage.UpdateEngineOptions | single-config-stock.js:821-900 | without a model nothing changes; otherwise the distinct engines with the first selected and its trims rendered; with no engine the shown price stays |
| StockPage.RefreshPrices | single-config-stock.js:474-528 | the displays show the total of the checked inputs; nothing else changes |
| StockPage.TotalPriceToggle | single-config-stock.js:474-528 | toggling an accessory moves the total by exactly its price adjustment |
| StockPage.TotalPriceColour | single-config-stock.js:474-528 | picking a colour changes the total by the colour price difference only |
| StockPage.TotalPriceAccessoriesCommute | single-config-stock.js:474-528 | the total does not depend on the order accessories are clicked |
| StockPage.SearchedOptions | single-config-stock.js:1845-1862 | the colour options of the first engine+trim combination, exactly when it exists and has them |
| StockPage.SelectedColourOption | single-config-stock.js:1845-1862 | an option is found exactly when a swatch is checked and some searched option has the selected name; it is the first such option |
| StockPage.SelectedColorCode | single-config-stock.js:1845-1862 | a code is returned exactly when the found option has a non-empty code, and it is that code |
| StockPage.SelectedColourIsRendered | single-config-stock.js:1845-1862 | on a well-formed page with a checked swatch the selected colour option is found |
| StockPage.SelectedAccessoryIds | single-config-stock.js:1865-1880 | the ids of the checked accessories that the id pattern reads back, no others |
| StockPage.SelectedAccessoryIdsOrder | single-config-stock.js:1865-1880 | one id per checked readable checkbox, in document order: the k-th id is that of the k-th such checkbox |
| StockPage.SelectionOf | single-config-stock.js:1806-1842 | the comparison uses the selection's engine, trim, year, year code and colour, the selected colour code and the checked accessory ids |
| StockPage.NoFullMatchWithoutYears | single-config-stock.js:1050-1081 | after a trim change without a year list no unit can be a full match |
| StockPage.LoadAreaOptions | single-config-stock.js:551-599 | a failed request changes nothing; otherwise the active dealers are stored and their areas offered; the invariant is kept |
| StockPage.AreasOfDealers | single-config-stock.js:551-599 | an area appears exactly when some dealer has it |
| StockPage.FetchStock | single-config-stock.js:1520-1564 | without model, dealer name or response the section is hidden and the stored stock stays; otherwise the stock and its cards for the current selection and the dealer name held replace the old ones, shown exactly when non-empty; only the stock part changes |
| StockPage.DealerSelected | single-config-stock.js:652-664 | the dealer listener sets retail, the dealer name and the checked radio, then loads that dealer's stock; form, catalog and dealer lists unchanged |
| StockPage.HandleAreaChange | single-config-stock.js:601-673 | clearing the area empties the dealer list, forgets the name and hides the stock section; an area without dealers empties the list; otherwise the area's dealers, the first checked, selected and its stock loaded |
| StockPage.InitSpec | single-config-stock.js:105-144 | the model found by slug, its active dealers and their areas, the catalog (up to year order), the engines rendered; with no engine the shown price is the model's (`updateModelInfo`, 427-435); the invariant holds |
| PlainPage.InitialPageWellFormed | single-config.js:2-25 | the freshly constructed page satisfies the invariant |
| PlainPage.RenderedColours | single-config.js:961-1041 | the engine+trim combination's active colours in catalog order with their multiplicity: the j-th swatch is the j-th active option |
| PlainPage.RenderColourOptions | single-config.js:961-1041 | swatches re-rendered with the first checked, while the selected colour stays as it was |
| PlainPage.ColourSelected | single-config.js:961-1041 | picking a swatch selects and checks that colour and shows the new total, nothing else changes |
| PlainPage.RenderAccessoryOptions | single-config.js:894-958 | the engine+trim combination's accessories, all unchecked |
| PlainPage.ToggleAccessory | single-config.js:894-958 | a click flips exactly that checkbox and shows the new total |
| PlainPage.TrimChange | single-config.js:882-891 | trim set, colour selection kept stale, colours and accessories re-rendered, display left as it was |
| PlainPage.TrimPicked | single-config.js:834-843 | the trim listener selects and checks the trim and refreshes the display, changing nothing else |
| PlainPage.TrimSelected | single-config.js:772-853 | the trim listener's step selects and checks that trim, keeping the engine part |
| PlainPage.TrimSelectedShownTotal | single-config.js:843-844 | after the trim listener the display shows the total with the old swatch and the old accessories in place of the new swatch |
| PlainPage.StaleTotalAfterTrimSelected | single-config.js:843-844 | when the old swatch and accessories cost other than the new swatch, the display differs from the total of the checked inputs |
| PlainPage.TrimSelectedRefreshed | single-config.js:843-844 | with a refresh after the re-rendering, the display shows the total of the checked inputs: first swatch, no accessory |
| PlainPage.RenderTrimOptions | single-config.js:772-853 | the trims are rendered; the first is checked and selected, or with none the trim group is emptied |
| PlainPage.EngineChange | single-config.js:735-744 | engine set, its trims rendered and the first selected; with no trims the trim is cleared and all else stays as it was |
| PlainPage.EngineSelected | single-config.js:654-733 | the engine listener's step selects and checks that engine and renders its trims, keeping catalog and dealer part |
| PlainPage.UpdateEngineOptions | single-config.js:654-733 | without a model nothing changes; otherwise the distinct engines with the first selected and its trims rendered; with no engine the shown price stays |
| PlainPage.RefreshPrices | single-config.js:361-411 | the displays show the total of the checked inputs; nothing else changes |
| PlainPage.TotalPriceToggle | single-config.js:361-411 | toggling an accessory moves the total by exactly its price adjustment |
| PlainPage.TotalAfterTrimChange | single-config.js:361-411 | after a trim change the total of the checked inputs is model, engine, trim and first-swatch prices, no accessories |
| PlainPage.LoadAreaOptions | single-config.js:434-478 | a failed request changes nothing; otherwise the brand's dealers sorted by id and their areas |
| PlainPage.AreasOfBrandDealers | single-config.js:434-478 | an area appears exactly when some dealer's info has it |
| PlainPage.HandleAreaChange | single-config.js:480-537 | the area's dealers, none checked, nothing else changed |
| PlainPage.DealerSelected | single-config.js:480-537 | the dealer listener sets retail to the dealer's `dealers_id` and checks its radio, nothing else changed |
| PlainPage.InitSpec | single-config.js:85-123 | the model found by slug, the brand's dealers sorted by id and their areas, the catalog as it came, the engines rendered; with no engine the shown price is the model's (`updateModelInfo`, 311-318); the invariant holds |
| StockConfigurator.ConfiguratorPage.constructor | single-config-stock.js:2-28 | the fresh object holds the empty page: nothing configured, nothing rendered, no stock |
| StockConfigurator.ConfiguratorPage.Init | single-config-stock.js:105-144 | from the empty page the object moves to the state Init describes |
| StockConfigurator.ConfiguratorPage.LoadAreaOptions | single-config-stock.js:551-599 | the object moves as LoadAreaOptions describes |
| StockConfigurator.ConfiguratorPage.UpdateEngineOptions | single-config-stock.js:821-900 | the object moves as UpdateEngineOptions describes |
| StockConfigurator.ConfiguratorPage.EngineSelected | single-config-stock.js:880-896 | the object moves as EngineSelected describes: refresh, then the engine change |
| StockConfigurator.ConfiguratorPage.HandleEngineChange | single-config-stock.js:902-915 | the object moves as EngineChange describes |
| StockConfigurator.ConfiguratorPage.GetTrimsForEngine | single-config-stock.js:917-941 | the loop returns the engine's de-duplicated trims |
| StockConfigurator.ConfiguratorPage.RenderTrimOptions | single-config-stock.js:943-1027 | the object moves as RenderTrimOptions describes |
| StockConfigurator.ConfiguratorPage.TrimSelected | single-config-stock.js:1005-1020 | the object moves as TrimSelected describes: refresh, then the trim change |
| StockConfigurator.ConfiguratorPage.HandleTrimChange | single-config-stock.js:1050-1081 | the object moves as TrimChange describes |
| StockConfigurator.ConfiguratorPage.ResetColorDisplay | single-config-stock.js:280-303 | the colour selection and checked swatch are cleared |
| StockConfigurator.ConfiguratorPage.UpdateYearOptions | single-config-stock.js:1083-1194 | the object, catalog included, moves as UpdateYearOptions describes |
| StockConfigurator.ConfiguratorPage.YearSelected | single-config-stock.js:1165-1179 | the year listener: the object moves as YearChange describes |
| StockConfigurator.ConfiguratorPage.UpdateColorOptionsForYear | single-config-stock.js:1197-1230 | the object moves as ColoursForYear describes |
| StockConfigurator.ConfiguratorPage.RenderColorOptions | single-config-stock.js:1300-1379 | the object moves as RenderColourOptions describes |
| StockConfigurator.ConfiguratorPage.ColourSelected | single-config-stock.js:1343-1364 | the object moves as ColourSelected describes |
| StockConfigurator.ConfiguratorPage.RenderAccessoryOptions | single-config-stock.js:1233-1298 | the object moves as RenderAccessoryOptions describes |
| StockConfigurator.ConfiguratorPage.AccessoryToggled | single-config-stock.js:1233-1298 | the object moves as ToggleAccessory describes |
| StockConfigurator.ConfiguratorPage.UpdatePriceDisplays | single-config-stock.js:474-528 | the object moves as RefreshPrices describes: only the displayed total changes |
| StockConfigurator.ConfiguratorPage.ComputeTotal | single-config-stock.js:474-503 | the loop returns the total price of the checked inputs |
| StockConfigurator.ConfiguratorPage.GetSelectedAccessories | single-config-stock.js:1865-1880 | the loop returns the checked accessories' ids |
| StockConfigurator.ConfiguratorPage.HandleAreaChange | single-config-stock.js:601-673 | the object moves as HandleAreaChange describes |
| StockConfigurator.ConfiguratorPage.DealerSelected | single-config-stock.js:652-664 | the object moves as DealerSelected describes |
| StockConfigurator.ConfiguratorPage.FetchStockData | single-config-stock.js:1520-1564 | the object moves as FetchStock describes |
| StockConfigurator.ConfiguratorPage.UpdateStockDisplay | single-config-stock.js:1566-1633 | the loop builds the cards StockCards describes for the selection and dealer name read at entry, the section is shown exactly when units were returned, and nothing else changes |
| StockConfigurator.ConfiguratorPage.GetSelectedColorCode | single-config-stock.js:1845-1862 | returns the selected colour's code |
| PlainConfigurator.ConfiguratorPage.constructor | single-config.js:2-25 | the fresh object holds the empty page: nothing configured, nothing rendered |
| PlainConfigurator.ConfiguratorPage.Init | single-config.js:85-123 | from the empty page the object moves to the state Init describes |
| PlainConfigurator.ConfiguratorPage.LoadAreaOptions | single-config.js:434-478 | the object moves as LoadAreaOptions describes |
| PlainConfigurator.ConfiguratorPage.UpdateEngineOptions | single-config.js:654-733 | the object moves as UpdateEngineOptions describes |
| PlainConfigurator.ConfiguratorPage.EngineSelected | single-config.js:654-733 | the object moves as EngineSelected describes: refresh, then the engine change |
| PlainConfigurator.ConfiguratorPage.HandleEngineChange | single-config.js:735-744 | the object moves as EngineChange describes |
| PlainConfigurator.ConfiguratorPage.GetTrimsForEngine | single-config.js:746-770 | the loop returns the engine's de-duplicated trims |
| PlainConfigurator.ConfiguratorPage.RenderTrimOptions | single-config.js:772-853 | the object moves as RenderTrimOptions describes |
| PlainConfigurator.ConfiguratorPage.TrimSelected | single-config.js:772-853 | the object moves as TrimSelected describes: refresh, then the trim change |
| PlainConfigurator.ConfiguratorPage.GetColorsForTrim | single-config.js:855-880 | the loop returns the engine and trim's de-duplicated colours |
| PlainConfigurator.ConfiguratorPage.HandleTrimChange | single-config.js:882-891 | the object moves as TrimChange describes |
| PlainConfigurator.ConfiguratorPage.RenderColorOptions | single-config.js:961-1041 | the object moves as RenderColourOptions describes, whatever colours are passed |
| PlainConfigurator.ConfiguratorPage.ColourSelected | single-config.js:961-1041 | the object moves as ColourSelected describes |
| PlainConfigurator.ConfiguratorPage.RenderAccessoryOptions | single-config.js:894-958 | the object moves as RenderAccessoryOptions describes |
| PlainConfigurator.ConfiguratorPage.AccessoryToggled | single-config.js:894-958 | the object moves as ToggleAccessory describes |
| PlainConfigurator.ConfiguratorPage.UpdatePriceDisplays | single-config.js:361-411 | the object moves as RefreshPrices describes: only the displayed total changes |
| PlainConfigurator.ConfiguratorPage.ComputeTotal | single-config.js:361-386 | the loop returns the total price of the checked inputs |
| PlainConfigurator.ConfiguratorPage.HandleAreaChange | single-config.js:480-537 | the object moves as HandleAreaChange describes |
| PlainConfigurator.ConfiguratorPage.DealerSelected | single-config.js:480-537 | the object moves as DealerSelected describes |

## Findings

| source | as written | input that shows it | evidently intended | confidence | as-written member | corrected member |
|---|---|---|---|---|---|---|
| single-config-stock.js:1017-1018, 1078 | the trim listener refreshes the prices; the year listener that `handleTrimChange` triggers refreshes them again; then the accessories are re-rendered unchecked with no refresh after it | a page with a ticked accessory of price 5000, then a trim whose combination has a year list: the display still counts the 5000 | the displayed total is the total of the checked inputs, which no longer include the accessory | not executed | StockPage.StaleTotalAfterTrimSelected | StockPage.TrimSelectedRefreshed |
| single-config.js:843-844, 888-889 | the trim listener refreshes the prices before `handleTrimChange` re-renders the swatches and the accessories, with no refresh after it | a page whose old and new first swatches cost 0, with a ticked accessory of price 5000, then any trim: the display still counts the 5000 | the displayed total is the total of the checked inputs: the new first swatch and no accessory | not executed | PlainPage.StaleTotalAfterTrimSelected | PlainPage.TrimSelectedRefreshed |

The step functions and the classes follow the code as written. The corrected members state what a refresh at the end of the trim listener would show.

## Left out

- DOM rendering is left out: inner HTML, labels, images, `updateSummary`, `updateModelInfo` (apart from the model price it shows, kept as the shown total), `renderSpecifications`, interior and colour images, sliders, `switchView`, the payment toggle, `showError` and scrolling. A rendered input group is modelled as the list of its options and the index of the checked input.
- Synthetic `change` events (`dispatchEvent`) are replaced by direct calls of the listener's step. The asynchronous handlers run to completion one after the other, with no interleaving of responses.
- Network requests are parameters. Each fetch is its decoded response, or none when the request or JSON decoding fails. The URLs and the query parameters (model id, brand code, dealer name) are not modelled.
- The stock variant filters dealers by brand on the server. Its model therefore receives the dealer list as the server returns it.
- The submit handler, `localStorage` and the page navigation are left out.
- Number formatting (`Intl.NumberFormat`, `toLocaleString`) is left out. The displayed total is modelled as the number written, `shownTotal`. `updateInstallmentOptions` and `calculateMonthlyPayment` parse that text back; they are modelled as functions of a total (the instalment and tier members of `Pricing`), to be applied to `shownTotal`. That parse keeps only the digits of the text, so it gives back `shownTotal` only for the whole-number text `updatePriceDisplays` writes (0 fraction digits, single-config-stock.js:511-515, single-config.js:394-398). After `updateModelInfo` alone, the state `Init` leaves when there is no engine, the text has TWD's two fraction digits ("NT$X.00"), so the parse reads 100 times the model price, not `shownTotal`. A negative total also loses its sign in the parse. The model does not capture either difference. The rendered tier and payment options are not stored in the page state.
- The summary's trim price (`summaryTrimPrice`) is display text and is not modelled.
- Prices are integers. Floating point is not modelled: `Math.round(x * p / 100)` is computed exactly, so rounding errors of floating point near a half are not modelled.
- `localeCompare` on year codes is modelled as lexicographic code-unit order, without locale collation.
- The stock `getColorsForTrim` (single-config-stock.js:1029-1048) is never called by the page. It is not modelled separately from the plain variant's version.
- `createStockCard` and `createStockCardFromTemplate` duplicate the card contents of `updateStockDisplay`. They are not modelled: the card data are modelled once, in StockMatch.StockCards. The image URL, model title and detail link of a card are not modelled either; the price is kept as a number, without `toLocaleString`.
- The year entry's description and file URL are not modelled.
- A combination whose `trim_price` is missing is modelled as a trim price of 0. The source writes the text `null` or `undefined` into the radio's price, which makes its total `NaN`.
- An accessory whose `price_adjustment` is missing is modelled as costing 0. The source fails with a `TypeError` while rendering it, which stops the rendering.
- A year entry without a description is modelled like any other. The source fails with a `TypeError` while rendering it.
- `getBrandIdFromSlug` is modelled for ordinary slugs. Object-prototype keys such as `constructor` are not modelled.
- `null` and `undefined` are both `None`. A missing DOM container is assumed present, so the early returns on a missing element are not modelled.
- OfBrand: a `brands_id` of `null` is modelled as missing (`None`). Under an unknown brand (`undefined`) such a link is therefore modelled as matching, although `null === undefined` is false in the source.
- `dealersData` before the first load is modelled as the empty list.
