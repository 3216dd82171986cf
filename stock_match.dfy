/**
 * The stock page's in-stock vehicle cards: how closely a unit matches the configuration being
 * built (three labels), its price, and its accessory line.
 */
module StockMatch {
  import opened Wrappers
  import opened Seqs
  import opened Catalog
  import opened IdSets

  datatype StockAccessory = StockAccessory(id: int, name: string)

  /** The configuration record a stock unit was built from. */
  datatype StockConfig = StockConfig(
    enginesId: Option<int>,
    trimsId: Option<int>,
    trimName: Option<string>,
    engineName: Option<string>,
    modelsPrice: Option<int>,
    trimPrice: Option<int>,
    yearObj: seq<YearObj>,
    colorOptions: seq<ColorOption>,
    accessoriesId: seq<StockAccessory>)

  datatype StockUnit = StockUnit(vin: string, yearCode: Option<string>, colorCode: Option<string>,
                                 config: Option<StockConfig>)

  /**
   * What the page's state contributes to the comparison: the selection record's fields, the
   * code of the checked colour, and the ids of the checked accessories.
   */
  datatype Selection = Selection(
    engine: Option<int>,
    trim: Option<int>,
    year: Option<int>,
    yearCode: Option<string>,
    color: Option<string>,
    colorCode: Option<string>,
    accessoryIds: seq<int>)

  datatype MatchLevel = Similar | SameTrim | FullMatch

  /** The tag printed on the card. */
  function Label(m: MatchLevel): (s: string)
    ensures m == Similar <==> s == "相似車款"
    ensures m == SameTrim <==> s == "相同車款"
    ensures m == FullMatch <==> s == "完全符合"
  {
    match m
    case Similar => "相似車款"
    case SameTrim => "相同車款"
    case FullMatch => "完全符合"
  }

  /** A non-empty string is truthy. */
  predicate TruthyString(o: Option<string>) {
    o.Some? && o.value != []
  }

  function StockIds(accs: seq<StockAccessory>): (r: seq<int>)
    ensures |r| == |accs|
    ensures forall i :: 0 <= i < |accs| ==> r[i] == accs[i].id
  {
    if accs == [] then [] else StockIds(accs[..|accs| - 1]) + [accs[|accs| - 1].id]
  }

  /**
   * `compareAccessories`: true when both lists are empty, false when the lengths differ, and
   * otherwise true exactly when every selected id is the id of some stock accessory.
   */
  function CompareAccessories(selectedIds: seq<int>, stock: seq<StockAccessory>): (r: bool)
    ensures selectedIds == [] && stock == [] ==> r
    ensures |selectedIds| != |stock| ==> !r
    ensures |selectedIds| == |stock| ==>
              (r <==> forall i :: 0 <= i < |selectedIds| ==> selectedIds[i] in StockIds(stock))
  {
    if selectedIds == [] && stock == [] then true
    else if |selectedIds| != |stock| then false
    else AllIn(selectedIds, StockIds(stock))
  }

  /** `selectedIds.every(id => stockIds.includes(id))`. */
  function AllIn(xs: seq<int>, ys: seq<int>): (r: bool)
    ensures r <==> forall i :: 0 <= i < |xs| ==> xs[i] in ys
  {
    if xs == [] then true else xs[0] in ys && AllIn(xs[1..], ys)
  }

  /**
   * When the selected ids are pairwise distinct (the accessory checkboxes of one list), the
   * comparison succeeds exactly when both lists have the same length and the same ids.
   */
  lemma CompareAccessoriesDistinct(selectedIds: seq<int>, stock: seq<StockAccessory>)
    requires Distinct(selectedIds)
    ensures CompareAccessories(selectedIds, stock) <==>
              |selectedIds| == |stock| && Elems(selectedIds) == Elems(StockIds(stock))
  {
    var ids := StockIds(stock);
    if CompareAccessories(selectedIds, stock) {
      assert Elems(selectedIds) <= Elems(ids);
      ElemsCard(selectedIds);
      ElemsCard(ids);
      SubsetCard(Elems(selectedIds), Elems(ids));
    }
    if |selectedIds| == |stock| && Elems(selectedIds) == Elems(ids) {
      forall i | 0 <= i < |selectedIds| ensures selectedIds[i] in ids {
        assert selectedIds[i] in Elems(selectedIds);
      }
    }
  }

  /**
   * It is not set equality: a selection that repeats an id can match a stock unit carrying an
   * accessory that was never selected.
   */
  lemma CompareAccessoriesNotSetEquality()
    ensures CompareAccessories([5, 5], [StockAccessory(5, "A"), StockAccessory(6, "B")])
    ensures Elems([5, 5]) != Elems(StockIds([StockAccessory(5, "A"), StockAccessory(6, "B")]))
  {
    var ids := StockIds([StockAccessory(5, "A"), StockAccessory(6, "B")]);
    assert ids == [5, 6];
    assert 6 in Elems(ids);
  }

  /**
   * `calculateMatchLevel` for a unit that has a configuration record: "similar" unless engine
   * and trim are both set and both equal the unit's; then "full match" when year and colour are
   * set and year code, colour code and accessories all agree, and "same trim" otherwise.
   */
  function Level(sel: Selection, unit: StockUnit): (r: MatchLevel)
    requires unit.config.Some?
    ensures r == Similar <==>
              !(Truthy(sel.engine) && Truthy(sel.trim)
                && unit.config.value.enginesId == sel.engine
                && unit.config.value.trimsId == sel.trim)
    ensures r == FullMatch <==>
              Truthy(sel.engine) && Truthy(sel.trim)
              && unit.config.value.enginesId == sel.engine
              && unit.config.value.trimsId == sel.trim
              && Truthy(sel.year) && TruthyString(sel.color)
              && unit.yearCode == sel.yearCode
              && unit.colorCode == sel.colorCode
              && CompareAccessories(sel.accessoryIds, unit.config.value.accessoriesId)
  {
    if !Truthy(sel.engine) || !Truthy(sel.trim) then Similar
    else
      var cfg := unit.config.value;
      var engineMatch := cfg.enginesId == sel.engine;
      var trimMatch := cfg.trimsId == sel.trim;
      if engineMatch && trimMatch then
        if Truthy(sel.year) && TruthyString(sel.color) then
          var yearMatch := unit.yearCode == sel.yearCode;
          var colorMatch := unit.colorCode == sel.colorCode;
          var accessoryMatch := CompareAccessories(sel.accessoryIds, cfg.accessoriesId);
          if yearMatch && colorMatch && accessoryMatch then FullMatch else SameTrim
        else SameTrim
      else Similar
  }

  /** A selection without an engine or a trim never matches more than "similar". */
  lemma LevelWithoutEngineOrTrim(sel: Selection, unit: StockUnit)
    requires unit.config.Some?
    requires sel.engine.None? || sel.trim.None?
    ensures Level(sel, unit) == Similar
  {
  }

  /** Full match is reachable only with a year and a colour chosen. */
  lemma FullMatchNeedsYearAndColour(sel: Selection, unit: StockUnit)
    requires unit.config.Some? && Level(sel, unit) == FullMatch
    ensures sel.year.Some? && sel.color.Some?
  {
  }

  // ---------------------------------------------------------------- the card's price and text

  function HasCode(code: Option<string>): ColorOption -> bool {
    (c: ColorOption) => c.code == code
  }

  /** The adjustment of the unit's colour: the first colour option whose code is the unit's. */
  function StockColourPrice(cfg: StockConfig, colorCode: Option<string>): (r: int)
    ensures (forall i :: 0 <= i < |cfg.colorOptions| ==> cfg.colorOptions[i].code != colorCode)
            ==> r == 0
    ensures forall i :: (0 <= i < |cfg.colorOptions| && cfg.colorOptions[i].code == colorCode
                         && forall j :: 0 <= j < i ==> cfg.colorOptions[j].code != colorCode)
                        ==> r == Adj(cfg.colorOptions[i].priceAdjustment)
  {
    match FirstWhere(cfg.colorOptions, HasCode(colorCode))
    case None => 0
    case Some(i) => Adj(cfg.colorOptions[i].priceAdjustment)
  }

  /** The name of the unit's colour: that of the first colour option whose code is the unit's, or "". */
  function StockColourName(cfg: StockConfig, colorCode: Option<string>): (r: string)
    ensures (forall i :: 0 <= i < |cfg.colorOptions| ==> cfg.colorOptions[i].code != colorCode)
            ==> r == ""
    ensures forall i :: (0 <= i < |cfg.colorOptions| && cfg.colorOptions[i].code == colorCode
                         && forall j :: 0 <= j < i ==> cfg.colorOptions[j].code != colorCode)
                        ==> r == cfg.colorOptions[i].colorName
  {
    match FirstWhere(cfg.colorOptions, HasCode(colorCode))
    case None => ""
    case Some(i) => cfg.colorOptions[i].colorName
  }

  /**
   * The year a card shows: the first model year listed; none (an empty text) when no year is
   * listed or the first one is 0, which JavaScript's `||` treats as missing.
   */
  function FirstYearShown(cfg: StockConfig): (r: Option<int>)
    ensures r.Some? <==> cfg.yearObj != [] && cfg.yearObj[0].year != 0
    ensures r.Some? ==> r.value == cfg.yearObj[0].year
  {
    if cfg.yearObj == [] || cfg.yearObj[0].year == 0 then None else Some(cfg.yearObj[0].year)
  }

  /** The price of the first model year listed, or 0. */
  function FirstYearPrice(cfg: StockConfig): (r: int)
    ensures cfg.yearObj == [] ==> r == 0
    ensures cfg.yearObj != [] ==> r == Adj(cfg.yearObj[0].price)
  {
    if cfg.yearObj == [] then 0 else Adj(cfg.yearObj[0].price)
  }

  /**
   * `calculateStockTotalPrice`: model price + `trim_price` + the first year's price + the
   * adjustment of the unit's colour, each defaulting to 0. There is no engine term and no
   * accessory term.
   */
  function StockTotalPrice(unit: StockUnit): (r: int)
    requires unit.config.Some?
    ensures r == Adj(unit.config.value.modelsPrice) + Adj(unit.config.value.trimPrice)
                 + FirstYearPrice(unit.config.value)
                 + StockColourPrice(unit.config.value, unit.colorCode)
  {
    var cfg := unit.config.value;
    Adj(cfg.modelsPrice) + Adj(cfg.trimPrice) + FirstYearPrice(cfg)
      + StockColourPrice(cfg, unit.colorCode)
  }

  /**
   * The unit price ignores the unit's engine, trim and accessories: two units that differ only
   * there cost the same.
   */
  lemma StockTotalPriceIgnoresEngineAndAccessories(unit: StockUnit, engines: Option<int>,
                                                   trims: Option<int>, accs: seq<StockAccessory>)
    requires unit.config.Some?
    ensures StockTotalPrice(unit) == StockTotalPrice(unit.(config := Some(unit.config.value.(
              enginesId := engines, trimsId := trims, accessoriesId := accs))))
  {
  }

  /** A unit whose colour code matches no option is priced without a colour term. */
  lemma StockTotalPriceUnknownColour(unit: StockUnit)
    requires unit.config.Some?
    requires forall i :: 0 <= i < |unit.config.value.colorOptions| ==>
               unit.config.value.colorOptions[i].code != unit.colorCode
    ensures StockTotalPrice(unit) == Adj(unit.config.value.modelsPrice)
              + Adj(unit.config.value.trimPrice) + FirstYearPrice(unit.config.value)
  {
  }

  function Names(accs: seq<StockAccessory>): (r: seq<string>)
    ensures |r| == |accs|
    ensures forall i :: 0 <= i < |accs| ==> r[i] == accs[i].name
  {
    if accs == [] then [] else Names(accs[..|accs| - 1]) + [accs[|accs| - 1].name]
  }

  /** `Array.prototype.join(sep)`. */
  function Join(parts: seq<string>, sep: string): (r: string)
    ensures parts == [] ==> r == []
    ensures |parts| == 1 ==> r == parts[0]
    ensures parts != [] ==> |r| == SumLengths(parts) + (|parts| - 1) * |sep|
    ensures parts != [] ==> r[..|parts[0]|] == parts[0]
  {
    if parts == [] then []
    else if |parts| == 1 then parts[0]
    else parts[0] + sep + Join(parts[1..], sep)
  }

  /** Joining one more part adds the separator and that part at the end. */
  lemma {:induction false} JoinAppend(parts: seq<string>, sep: string, x: string)
    requires parts != []
    ensures Join(parts + [x], sep) == Join(parts, sep) + sep + x
  {
    if |parts| == 1 {
      assert (parts + [x])[1..] == [x];
    } else {
      assert (parts + [x])[1..] == parts[1..] + [x];
      JoinAppend(parts[1..], sep, x);
    }
  }

  function SumLengths(parts: seq<string>): nat {
    if parts == [] then 0 else |parts[0]| + SumLengths(parts[1..])
  }

  /**
   * `getStockAccessoriesText`: the accessory names joined with ", ", or "無" (none) when the
   * unit has no accessories.
   */
  function StockAccessoriesText(unit: StockUnit): (r: string)
    requires unit.config.Some?
    ensures unit.config.value.accessoriesId == [] ==> r == "無"
    ensures unit.config.value.accessoriesId != [] ==>
              r == Join(Names(unit.config.value.accessoriesId), ", ")
  {
    var accs := unit.config.value.accessoriesId;
    if |accs| > 0 then Join(Names(accs), ", ") else "無"
  }

  /** One card of the stock list; a missing text is the empty string. */
  datatype StockCard = StockCard(vin: string, tag: MatchLevel, trim: string, engine: string,
                                 price: int, year: Option<int>, colour: string,
                                 accessories: string, dealer: string)

  function HasConfig(u: StockUnit): bool { u.config.Some? }

  /**
   * The card of a unit: its VIN, its tag, the names of its trim and engine, its price, its
   * first model year, the name of its colour, its accessory line, and the name of the dealer
   * whose stock is shown.
   */
  function CardOf(sel: Selection, dealer: string, u: StockUnit): StockCard
    requires u.config.Some?
  {
    var cfg := u.config.value;
    StockCard(u.vin, Level(sel, u), cfg.trimName.GetOr(""), cfg.engineName.GetOr(""),
              StockTotalPrice(u), FirstYearShown(cfg), StockColourName(cfg, u.colorCode),
              StockAccessoriesText(u), dealer)
  }

  /**
   * `updateStockDisplay`: one card per unit that has a configuration record, in response order;
   * units without one are skipped.
   */
  function StockCards(sel: Selection, dealer: string, units: seq<StockUnit>): seq<StockCard> {
    if units == [] then []
    else
      var n := |units| - 1;
      var u := units[n];
      StockCards(sel, dealer, units[..n]) + (if u.config.Some? then [CardOf(sel, dealer, u)] else [])
  }

  /**
   * The cards are those of the units with a configuration record, one each and in response
   * order, each carrying the unit's tag, price and accessory text.
   */
  lemma {:induction false} StockCardsSpec(sel: Selection, dealer: string, units: seq<StockUnit>)
    ensures |StockCards(sel, dealer, units)| == |Filter(units, HasConfig)|
    ensures forall i :: 0 <= i < |StockCards(sel, dealer, units)| ==>
              Filter(units, HasConfig)[i].config.Some?
              && StockCards(sel, dealer, units)[i] == CardOf(sel, dealer, Filter(units, HasConfig)[i])
  {
    if units != [] {
      var n := |units| - 1;
      var u := units[n];
      var prefix := units[..n];
      StockCardsSpec(sel, dealer, prefix);
      assert units == prefix + [u];
      FilterAppend(prefix, [u], HasConfig);
      var tail := if u.config.Some? then [u] else [];
      assert Filter([u], HasConfig) == tail;
      var cards, kept := StockCards(sel, dealer, units), Filter(units, HasConfig);
      assert cards == StockCards(sel, dealer, prefix) + (if u.config.Some? then [CardOf(sel, dealer, u)] else []);
      assert kept == Filter(prefix, HasConfig) + tail;
      forall i | 0 <= i < |cards|
        ensures kept[i].config.Some? && cards[i] == CardOf(sel, dealer, kept[i])
      {
        if i < |StockCards(sel, dealer, prefix)| {
          assert cards[i] == StockCards(sel, dealer, prefix)[i];
          assert kept[i] == Filter(prefix, HasConfig)[i];
        } else {
          assert u.config.Some? && i == |Filter(prefix, HasConfig)|;
          assert kept[i] == u;
          assert cards[i] == CardOf(sel, dealer, u);
        }
      }
    }
  }

  /** One more unit in response order adds its card when it has a configuration record. */
  lemma StockCardsStep(sel: Selection, dealer: string, units: seq<StockUnit>, i: nat)
    requires i < |units|
    ensures StockCards(sel, dealer, units[..i + 1])
         == StockCards(sel, dealer, units[..i]) + (if units[i].config.Some? then [CardOf(sel, dealer, units[i])] else [])
  {
    assert units[..i + 1][..i] == units[..i];
  }
}
