/**
 * Price arithmetic shared by the two configurator pages: JavaScript's `Math.round` of a
 * quotient, the sum of the checked accessory checkboxes, the down-payment tiers of the stock
 * page, the ten-thousand-step instalment options of the plain page, and the two monthly
 * payment formulas.
 *
 * Prices are whole New Taiwan dollars. The pages compute with floating point; the model
 * computes exactly, so a quotient that lands on an exact .5 after float rounding error may
 * round differently there.
 */
module Pricing {
  import opened Wrappers
  import opened Catalog

  /**
   * `Math.round(a / b)` for `b > 0`: the integer nearest to `a / b`, halves rounded up
   * (towards +infinity, also for negative quotients).
   */
  function JsRound(a: int, b: int): (r: int)
    requires b > 0
    ensures 2 * b * r <= 2 * a + b < 2 * b * (r + 1)
  {
    (2 * a + b) / (2 * b)
  }

  /** `Math.round(a / b)` does not decrease when `a` grows. */
  lemma JsRoundMonotonic(a: int, a': int, b: int)
    requires b > 0 && a <= a'
    ensures JsRound(a, b) <= JsRound(a', b)
  {
    var r, r' := JsRound(a, b), JsRound(a', b);
    if r > r' {
      // 2b(r - r' - 1) >= 0 contradicts 2br <= 2a + b <= 2a' + b < 2b(r' + 1)
      assert 2 * b * (r - r' - 1) == 2 * b * r - 2 * b * (r' + 1);
      MulNonNegative(2 * b, r - r' - 1);
    }
  }

  lemma MulNonNegative(x: int, y: int)
    requires x >= 0 && y >= 0
    ensures x * y >= 0
  {
  }

  // ---------------------------------------------------------------- accessories

  /**
   * The `reduce` over the checked accessory checkboxes in document order: the sum of the
   * adjustments (`price_adjustment || 0`) of the accessories at the `checked` positions.
   */
  function CheckedSum(accs: seq<Accessory>, checked: set<nat>): int {
    if accs == [] then 0
    else
      var n := |accs| - 1;
      CheckedSum(accs[..n], checked) + (if n in checked then Adj(accs[n].priceAdjustment) else 0)
  }

  /** Positions past the end of the list never contribute. */
  lemma {:induction false} CheckedSumIgnoresBeyond(accs: seq<Accessory>, checked: set<nat>, i: nat)
    requires i >= |accs|
    ensures CheckedSum(accs, checked + {i}) == CheckedSum(accs, checked)
    ensures CheckedSum(accs, checked - {i}) == CheckedSum(accs, checked)
  {
    if accs != [] {
      CheckedSumIgnoresBeyond(accs[..|accs| - 1], checked, i);
    }
  }

  /** With nothing checked the accessories add nothing. */
  lemma {:induction false} CheckedSumNone(accs: seq<Accessory>)
    ensures CheckedSum(accs, {}) == 0
  {
    if accs != [] {
      CheckedSumNone(accs[..|accs| - 1]);
    }
  }

  /**
   * Checking an unchecked accessory raises the sum by exactly its adjustment; unchecking a
   * checked one lowers it by the same amount.
   */
  lemma {:induction false} CheckedSumToggle(accs: seq<Accessory>, checked: set<nat>, i: nat)
    requires i < |accs| && i !in checked
    ensures CheckedSum(accs, checked + {i})
         == CheckedSum(accs, checked) + Adj(accs[i].priceAdjustment)
  {
    var n := |accs| - 1;
    if i == n {
      CheckedSumIgnoresBeyond(accs[..n], checked, i);
    } else {
      assert accs[..n][i] == accs[i];
      CheckedSumToggle(accs[..n], checked, i);
    }
  }

  // ---------------------------------------------------------------- stock page instalments

  /**
   * The stock page's down-payment choices: 20%, 25%, ..., 50% of the total, each rounded with
   * `Math.round`. `total` is the displayed total read back as digits, hence non-negative.
   */
  method DownPaymentTiers(total: nat) returns (tiers: seq<int>)
    ensures |tiers| == 7
    ensures forall k :: 0 <= k < 7 ==> tiers[k] == JsRound(total * (20 + 5 * k), 100)
  {
    tiers := [];
    var percentage := 20;
    while percentage <= 50
      invariant 20 <= percentage <= 55 && percentage % 5 == 0
      invariant |tiers| == (percentage - 20) / 5
      invariant forall k :: 0 <= k < |tiers| ==> tiers[k] == JsRound(total * (20 + 5 * k), 100)
    {
      var downPayment := JsRound(total * percentage, 100);
      tiers := tiers + [downPayment];
      percentage := percentage + 5;
    }
  }

  /** The tiers never decrease from 20% to 50%, and the 20% tier is at most the 50% tier. */
  lemma TiersNondecreasing(total: nat, k: nat, l: nat)
    requires k <= l < 7
    ensures JsRound(total * (20 + 5 * k), 100) <= JsRound(total * (20 + 5 * l), 100)
  {
    assert total * (20 + 5 * k) <= total * (20 + 5 * l) by {
      assert total * (20 + 5 * l) - total * (20 + 5 * k) == total * (5 * (l - k));
    }
    JsRoundMonotonic(total * (20 + 5 * k), total * (20 + 5 * l), 100);
  }

  /** No tier exceeds half of the total, rounded. */
  lemma TierAtMostHalf(total: nat, k: nat)
    requires k < 7
    ensures JsRound(total * (20 + 5 * k), 100) <= JsRound(total * 50, 100)
  {
    TiersNondecreasing(total, k, 6);
  }

  /**
   * The stock page's monthly payment: `Math.round((total - down) / months)` when a down payment
   * and a term are both chosen (both parse to a positive number), and "--" (`None`) otherwise.
   */
  function StockMonthlyPayment(total: int, downPayment: int, months: int): (r: Option<int>)
    ensures r.Some? <==> downPayment > 0 && months > 0
    ensures r.Some? ==> 2 * months * r.value <= 2 * (total - downPayment) + months
                                               < 2 * months * (r.value + 1)
  {
    if downPayment > 0 && months > 0 then Some(JsRound(total - downPayment, months)) else None
  }

  // ---------------------------------------------------------------- plain page instalments

  /**
   * The largest amount offered, in units of NT$10,000: `Math.floor(total / 10000 / 5) * 5`,
   * the total in ten-thousands rounded DOWN to a multiple of five.
   */
  function MaxInstallment(total: nat): (m: nat)
    ensures m % 5 == 0
    ensures m * 10000 <= total < (m + 5) * 10000
  {
    total / 10000 / 5 * 5
  }

  /**
   * The plain page's instalment amounts, in units of NT$10,000: 30, 35, ... up to
   * `MaxInstallment(total)`.
   */
  method InstallmentOptions(total: nat) returns (opts: seq<int>)
    ensures forall k :: 0 <= k < |opts| ==> opts[k] == 30 + 5 * k
    ensures forall x :: x in opts <==> 30 <= x <= MaxInstallment(total) && x % 5 == 0
  {
    var maxOption := total / 10000 / 5 * 5;
    opts := [];
    var i := 30;
    while i <= maxOption
      invariant 30 <= i && i % 5 == 0
      invariant i == 30 || i <= maxOption + 5
      invariant |opts| == (i - 30) / 5
      invariant forall k :: 0 <= k < |opts| ==> opts[k] == 30 + 5 * k
    {
      opts := opts + [i];
      i := i + 5;
    }
    forall x | 30 <= x <= maxOption && x % 5 == 0 ensures x in opts {
      assert opts[(x - 30) / 5] == x;
    }
  }

  /** There is no instalment option exactly when the total is under NT$300,000. */
  lemma InstallmentOptionsEmpty(total: nat)
    ensures (exists x :: 30 <= x <= MaxInstallment(total) && x % 5 == 0) <==> total >= 300000
  {
    if total >= 300000 {
      assert 30 <= 30 <= MaxInstallment(total);
    }
  }

  /**
   * The plain page's monthly payment: `Math.round(selected * 10000 / months)` when an amount
   * and a term are both chosen, and "--" (`None`) otherwise. Nothing is subtracted: the amount
   * chosen is what is financed.
   */
  function PlainMonthlyPayment(selected: int, months: int): (r: Option<int>)
    ensures r.Some? <==> selected > 0 && months > 0
    ensures r.Some? ==> 2 * months * r.value <= 2 * selected * 10000 + months
                                               < 2 * months * (r.value + 1)
  {
    if selected > 0 && months > 0 then Some(JsRound(selected * 10000, months)) else None
  }
}
