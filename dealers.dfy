/**
 * The dealer lists behind the "area" and "dealer" pickers of both pages: which dealers are
 * kept, the area choices (distinct, truthy, first seen first, the keys of an insertion-ordered
 * `Map`), and the dealers of one area.
 */
module Dealers {
  import opened Wrappers
  import opened Seqs
  import opened Dedup
  import opened StableSort

  // ---------------------------------------------------------------- areas

  /** The truthy (present and non-empty) area strings, in order. */
  function TruthyAreas(areas: seq<Option<string>>): seq<string> {
    if areas == [] then []
    else
      var n := |areas| - 1;
      TruthyAreas(areas[..n])
        + (if areas[n].Some? && areas[n].value != [] then [areas[n].value] else [])
  }

  lemma {:induction false} TruthyAreasMember(areas: seq<Option<string>>, a: string)
    ensures a in TruthyAreas(areas) <==> a != [] && Some(a) in areas
  {
    if areas != [] {
      var n := |areas| - 1;
      assert areas == areas[..n] + [areas[n]];
      TruthyAreasMember(areas[..n], a);
    }
  }

  function Ident(a: string): string { a }

  /** The area choices: the truthy areas de-duplicated, in first-seen order. */
  function AreaChoices(areas: seq<Option<string>>): seq<string> {
    UniqueBy(TruthyAreas(areas), Ident)
  }

  /** Some position of `areas` holds `a` with no position up to it holding `b`. */
  predicate SeenBefore(areas: seq<Option<string>>, a: string, b: string) {
    exists m :: 0 <= m < |areas| && areas[m] == Some(a)
                && forall n :: 0 <= n <= m ==> areas[n] != Some(b)
  }

  /** Choices `c` come in first-seen order: every earlier choice is seen before every later one. */
  predicate FirstSeenOrder(areas: seq<Option<string>>, c: seq<string>) {
    forall i, j :: 0 <= i < j < |c| ==> SeenBefore(areas, c[i], c[j])
  }

  /**
   * The area choices are pairwise distinct, a string is a choice exactly when it is the
   * non-empty area of some dealer, and the choices are in the order their first dealers come.
   */
  lemma AreaChoicesSpec(areas: seq<Option<string>>)
    ensures forall i, j :: 0 <= i < j < |AreaChoices(areas)| ==>
              AreaChoices(areas)[i] != AreaChoices(areas)[j]
    ensures forall a :: a in AreaChoices(areas) <==> a != [] && Some(a) in areas
    ensures FirstSeenOrder(areas, AreaChoices(areas))
  {
    AreaChoicesMembers(areas);
    AreaChoicesOrder(areas);
  }

  lemma AreaChoicesMembers(areas: seq<Option<string>>)
    ensures forall i, j :: 0 <= i < j < |AreaChoices(areas)| ==>
              AreaChoices(areas)[i] != AreaChoices(areas)[j]
    ensures forall a :: a in AreaChoices(areas) <==> a != [] && Some(a) in areas
  {
    var t := TruthyAreas(areas);
    UniqueByDistinct(t, Ident);
    UniqueByKeys(t, Ident);
    forall a ensures a in AreaChoices(areas) <==> a != [] && Some(a) in areas {
      TruthyAreasMember(areas, a);
      if a in AreaChoices(areas) {
        UniqueBySubset(t, Ident, a);
      }
      if a in t {
        var i :| 0 <= i < |t| && t[i] == a;
        assert Ident(t[i]) in KeySet(t, Ident);
        var j :| 0 <= j < |AreaChoices(areas)| && Ident(AreaChoices(areas)[j]) == a;
      }
    }
  }

  /** One more dealer area adds its string at the end exactly when it is truthy and new. */
  lemma AreaChoicesStep(areas: seq<Option<string>>, x: Option<string>)
    ensures AreaChoices(areas + [x])
         == if x.Some? && x.value != [] && x.value !in AreaChoices(areas)
            then AreaChoices(areas) + [x.value] else AreaChoices(areas)
  {
    var all := areas + [x];
    assert all[..|areas|] == areas;
    TruthyAreasStep(all, |areas|);
    assert all[..|areas| + 1] == all && all[|areas|] == x;
    if x.Some? && x.value != [] {
      UniqueByAppend(TruthyAreas(areas), x.value, Ident);
      var c := AreaChoices(areas);
      if x.value in c {
        var i :| 0 <= i < |c| && c[i] == x.value;
        assert Ident(c[i]) in KeySet(c, Ident);
      }
      if Ident(x.value) in KeySet(c, Ident) {
        var i :| 0 <= i < |c| && Ident(c[i]) == x.value;
      }
    } else {
      assert TruthyAreas(all) == TruthyAreas(areas) + [] == TruthyAreas(areas);
    }
  }

  lemma {:induction false} AreaChoicesOrder(areas: seq<Option<string>>)
    ensures FirstSeenOrder(areas, AreaChoices(areas))
  {
    if areas != [] {
      var n := |areas| - 1;
      var pre, x := areas[..n], areas[n];
      assert areas == pre + [x];
      AreaChoicesOrder(pre);
      AreaChoicesStep(pre, x);
      var c := AreaChoices(pre);
      if x.Some? && x.value != [] && x.value !in c {
        AreaChoicesMembers(pre);
        FirstSeenOrderAppend(pre, x, c);
      } else {
        FirstSeenOrderExtend(pre, x, c);
      }
    }
  }

  /** One more area after `pre` keeps the order of the choices seen in `pre`. */
  lemma FirstSeenOrderExtend(pre: seq<Option<string>>, x: Option<string>, c: seq<string>)
    requires FirstSeenOrder(pre, c)
    ensures FirstSeenOrder(pre + [x], c)
  {
    forall i, j | 0 <= i < j < |c| ensures SeenBefore(pre + [x], c[i], c[j]) {
      FirstSeenKept(pre, x, c, i, j);
    }
  }

  /** A new area after `pre` comes after every choice seen in `pre`. */
  lemma FirstSeenOrderAppend(pre: seq<Option<string>>, x: Option<string>, c: seq<string>)
    requires FirstSeenOrder(pre, c) && x.Some? && x !in pre
    requires forall a :: a in c ==> Some(a) in pre
    ensures FirstSeenOrder(pre + [x], c + [x.value])
  {
    var r := c + [x.value];
    forall i, j | 0 <= i < j < |r| ensures SeenBefore(pre + [x], r[i], r[j]) {
      assert r[i] == c[i];
      if j < |c| {
        assert r[j] == c[j];
        FirstSeenKept(pre, x, c, i, j);
      } else {
        assert c[i] in c;
        FirstSeenBeforeNew(pre, x, c[i]);
      }
    }
  }

  /** An order between two choices seen in `pre` still holds with one more area after it. */
  lemma FirstSeenKept(pre: seq<Option<string>>, x: Option<string>, c: seq<string>, i: nat, j: nat)
    requires FirstSeenOrder(pre, c) && i < j < |c|
    ensures SeenBefore(pre + [x], c[i], c[j])
  {
    assert SeenBefore(pre, c[i], c[j]);
    var m :| 0 <= m < |pre| && pre[m] == Some(c[i])
             && forall k :: 0 <= k <= m ==> pre[k] != Some(c[j]);
    assert forall k :: 0 <= k <= m ==> (pre + [x])[k] == pre[k];
  }

  /** A choice seen in `pre` comes before an area `x` that `pre` does not contain. */
  lemma FirstSeenBeforeNew(pre: seq<Option<string>>, x: Option<string>, a: string)
    requires x.Some? && Some(a) in pre && x !in pre
    ensures SeenBefore(pre + [x], a, x.value)
  {
    var m :| 0 <= m < |pre| && pre[m] == Some(a);
    assert forall k :: 0 <= k <= m ==> (pre + [x])[k] == pre[k];
  }

  /**
   * The `forEach` that fills the area `Map`: an area is added the first time it is seen, and
   * setting an existing key again keeps its position.
   */
  method CollectAreas(areas: seq<Option<string>>) returns (unique: seq<string>)
    ensures unique == AreaChoices(areas)
  {
    unique := [];
    var seen: set<string> := {};
    var i := 0;
    while i < |areas|
      invariant 0 <= i <= |areas|
      invariant unique == AreaChoices(areas[..i])
      invariant forall a :: a in seen <==> a in unique
    {
      AreaChoicesStep(areas[..i], areas[i]);
      assert areas[..i + 1] == areas[..i] + [areas[i]];
      if areas[i].Some? && areas[i].value != [] {
        var area := areas[i].value;
        if area !in seen {
          seen := seen + {area};
          unique := unique + [area];
        }
      }
      i := i + 1;
    }
    assert areas[..i] == areas;
  }

  lemma TruthyAreasStep(areas: seq<Option<string>>, i: nat)
    requires i < |areas|
    ensures TruthyAreas(areas[..i + 1])
         == TruthyAreas(areas[..i])
            + (if areas[i].Some? && areas[i].value != [] then [areas[i].value] else [])
  {
    assert areas[..i + 1][..i] == areas[..i];
  }

  // ---------------------------------------------------------------- stock page dealers

  datatype Dealer = Dealer(id: int, name: Option<string>, area: Option<string>, isActive: bool)

  function DealerActive(d: Dealer): bool { d.isActive }

  /** The stock page keeps the dealers flagged `is_active`, in response order. */
  function ActiveDealers(ds: seq<Dealer>): seq<Dealer> {
    Filter(ds, DealerActive)
  }

  function DealerAreas(ds: seq<Dealer>): (r: seq<Option<string>>)
    ensures |r| == |ds|
    ensures forall i :: 0 <= i < |ds| ==> r[i] == ds[i].area
  {
    if ds == [] then [] else DealerAreas(ds[..|ds| - 1]) + [ds[|ds| - 1].area]
  }

  function InArea(area: string): Dealer -> bool {
    (d: Dealer) => d.area == Some(area)
  }

  /**
   * The dealers of the kept list whose area is exactly `area`, in list order: the k-th one
   * listed is the dealer at the k-th position of the list in that area, so the first one
   * listed is the first dealer of the list in that area.
   */
  function DealersInArea(ds: seq<Dealer>, area: string): (r: seq<Dealer>)
    ensures forall d :: d in r <==> d in ds && d.area == Some(area)
    ensures var pos := Positions(ds, InArea(area));
            |r| == |pos| && forall k :: 0 <= k < |r| ==> r[k] == ds[pos[k]]
    ensures r != [] <==> FirstWhere(ds, InArea(area)).Some?
    ensures r != [] ==> r[0] == ds[FirstWhere(ds, InArea(area)).value]
  {
    FilterPositions(ds, InArea(area));
    FilterFirst(ds, InArea(area));
    Filter(ds, InArea(area))
  }

  /**
   * The area choices of the stock page are exactly the areas of its active dealers, and each
   * of them has at least one dealer to offer.
   */
  lemma StockAreasHaveDealers(ds: seq<Dealer>, a: string)
    requires a in AreaChoices(DealerAreas(ActiveDealers(ds)))
    ensures DealersInArea(ActiveDealers(ds), a) != []
    ensures forall d :: d in DealersInArea(ActiveDealers(ds), a) ==> d.isActive && d in ds
  {
    var act := ActiveDealers(ds);
    AreaChoicesSpec(DealerAreas(act));
    var i :| 0 <= i < |act| && DealerAreas(act)[i] == Some(a);
    assert act[i] in DealersInArea(act, a);
  }

  // ---------------------------------------------------------------- plain page dealers

  datatype DealerInfo = DealerInfo(name: Option<string>, address: Option<string>, area: Option<string>)

  /** A brand-dealer link: `_dealers` holds the dealer itself and may be missing. */
  datatype BrandDealer = BrandDealer(id: int, brandsId: Option<int>, dealersId: int,
                                     info: Option<DealerInfo>)

  /**
   * `dealer._dealers && dealer.brands_id === brandId`. A `brands_id` of `null` and an unknown
   * brand (`undefined`) are both `None` here, so under an unknown brand the links without a
   * `brands_id` match, where the strict equality of the page tells `null` from `undefined`.
   */
  function OfBrand(brandId: Option<int>): BrandDealer -> bool {
    (d: BrandDealer) => d.info.Some? && d.brandsId == brandId
  }

  /** The comparator `a.id - b.id`, as "a may precede b". */
  function IdLe(a: BrandDealer, b: BrandDealer): bool { a.id <= b.id }

  /** The plain page's dealer list: the brand's dealers with dealer details, by ascending id. */
  function BrandDealers(ds: seq<BrandDealer>, brandId: Option<int>): seq<BrandDealer> {
    Sort(Filter(ds, OfBrand(brandId)), IdLe)
  }

  /**
   * The plain page's dealer list holds exactly the dealers of the brand that carry details,
   * sorted by ascending id, with dealers of equal id in response order.
   */
  lemma BrandDealersSpec(ds: seq<BrandDealer>, brandId: Option<int>)
    ensures multiset(BrandDealers(ds, brandId)) == multiset(Filter(ds, OfBrand(brandId)))
    ensures forall d :: d in BrandDealers(ds, brandId) <==>
              d in ds && d.info.Some? && d.brandsId == brandId
    ensures forall i, j :: 0 <= i < j < |BrandDealers(ds, brandId)| ==>
              BrandDealers(ds, brandId)[i].id <= BrandDealers(ds, brandId)[j].id
    ensures forall k :: Ties(BrandDealers(ds, brandId), k, IdLe)
                        == Ties(Filter(ds, OfBrand(brandId)), k, IdLe)
  {
    var kept := Filter(ds, OfBrand(brandId));
    SortPermutes(kept, IdLe);
    assert TotalPreorder(IdLe);
    SortSorted(kept, IdLe);
    forall k ensures Ties(Sort(kept, IdLe), k, IdLe) == Ties(kept, k, IdLe) {
      SortStable(kept, k, IdLe);
    }
    forall d ensures d in BrandDealers(ds, brandId) <==> d in kept {
      assert d in BrandDealers(ds, brandId) <==> d in multiset(BrandDealers(ds, brandId));
    }
  }

  /** `dealer._dealers?.area`: missing details mean no area. */
  function InfoArea(d: BrandDealer): Option<string> {
    if d.info.Some? then d.info.value.area else None
  }

  function BrandDealerAreas(ds: seq<BrandDealer>): (r: seq<Option<string>>)
    ensures |r| == |ds|
    ensures forall i :: 0 <= i < |ds| ==> r[i] == InfoArea(ds[i])
  {
    if ds == [] then [] else BrandDealerAreas(ds[..|ds| - 1]) + [InfoArea(ds[|ds| - 1])]
  }

  function InfoInArea(area: string): BrandDealer -> bool {
    (d: BrandDealer) => InfoArea(d) == Some(area)
  }

  /**
   * The plain page's dealers of one area: exact match on the details' area, in the order of
   * the dealer list; the k-th radio is the dealer at the k-th position in that area.
   */
  function BrandDealersInArea(ds: seq<BrandDealer>, area: string): (r: seq<BrandDealer>)
    ensures forall d :: d in r <==> d in ds && d.info.Some? && d.info.value.area == Some(area)
    ensures var pos := Positions(ds, InfoInArea(area));
            |r| == |pos| && forall k :: 0 <= k < |r| ==> r[k] == ds[pos[k]]
  {
    FilterPositions(ds, InfoInArea(area));
    Filter(ds, InfoInArea(area))
  }
}
