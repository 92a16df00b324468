/**
 * The converter component: two amount fields kept in step through the rate
 * service, with the field edited last remembered for a swap.
 */

module Converter {
  import opened Wrappers
  import opened JsNumber
  import opened Binance

  /** The record an aggregation of the two responses yields. */
  function RatesOf(buy: Fetch, sell: Fetch, now: int): ConversionRate
  {
    ComputeRates(FetchedAds(buy), FetchedAds(sell), now)
  }

  class ConverterComponent {
    var amountBOB: real
    var amountUSDT: real
    var currentRate: real
    var usdtPrice: real
    var bobToUsdRate: real
    var buyPrice: real
    var sellPrice: real
    var avgPrice: real
    var loading: bool
    var lastUpdate: Option<int>
    /** Which field was edited last: BOB when set, USDT otherwise. */
    var editingBOB: bool

    const binanceService: BinanceService

    /** Both amounts are non-negative, as every handler leaves them once it has run. */
    ghost predicate Valid()
      reads this
    {
      amountBOB >= 0.0 && amountUSDT >= 0.0
    }

    constructor (binanceService: BinanceService)
      ensures this.binanceService == binanceService
      ensures Valid()
      ensures amountBOB == 0.0 && amountUSDT == 0.0 && currentRate == 0.0
      ensures usdtPrice == 0.0 && bobToUsdRate == 0.0
      ensures buyPrice == 0.0 && sellPrice == 0.0 && avgPrice == 0.0
      ensures !loading && lastUpdate == None && editingBOB
    {
      this.binanceService := binanceService;
      amountBOB, amountUSDT, currentRate := 0.0, 0.0, 0.0;
      usdtPrice, bobToUsdRate := 0.0, 0.0;
      buyPrice, sellPrice, avgPrice := 0.0, 0.0, 0.0;
      loading := false;
      lastUpdate := None;
      editingBOB := true;
    }

    /**
     * `loadCurrentRates` once both responses are in: the record's prices are
     * copied, and the rate shown is `bobToUsdRate * usdtPrice`, which is always 1
     * because `bobToUsdRate` is the reciprocal of `usdtPrice`.
     */
    method LoadCurrentRates(buy: Fetch, sell: Fetch, now: int)
      modifies this`buyPrice, this`sellPrice, this`avgPrice, this`usdtPrice, this`bobToUsdRate
      modifies this`currentRate, this`lastUpdate, binanceService
      ensures binanceService.cachedRates == Some(RatesOf(buy, sell, now))
      ensures binanceService.lastRateUpdate == now
      ensures buyPrice == RatesOf(buy, sell, now).buyPrice && sellPrice == RatesOf(buy, sell, now).sellPrice
      ensures avgPrice == RatesOf(buy, sell, now).avgPrice && usdtPrice == RatesOf(buy, sell, now).usdtPrice
      ensures bobToUsdRate == RatesOf(buy, sell, now).bobToUsdRate
      ensures currentRate == 1.0
      ensures lastUpdate == Some(now)
    {
      var rates := binanceService.GetCurrentRates(buy, sell, now);
      buyPrice := rates.buyPrice;
      bobToUsdRate := rates.bobToUsdRate;
      usdtPrice := rates.usdtPrice;
      sellPrice := rates.sellPrice;
      avgPrice := rates.avgPrice;
      currentRate := ShownRate(rates);
      lastUpdate := Some(rates.timestamp);
    }

    /**
     * `onBOBChange`, with the responses of the aggregation the conversion runs:
     * a negative BOB amount is reset to 0 and nothing else happens; otherwise BOB
     * becomes the field edited last, a zero amount gives zero USDT without a
     * conversion, and a positive one gives the USDT amount at the buy price,
     * rounded to cents.
     */
    method OnBOBChange(buy: Fetch, sell: Fetch, now: int)
      modifies this`amountBOB, this`amountUSDT, this`editingBOB, this`currentRate, this`loading, binanceService
      ensures old(amountBOB) < 0.0 ==>
                && amountBOB == 0.0
                && unchanged(this`amountUSDT, this`editingBOB, this`currentRate, this`loading)
                && unchanged(binanceService)
      ensures old(amountBOB) == 0.0 ==>
                && amountBOB == 0.0 && amountUSDT == 0.0 && editingBOB
                && unchanged(this`currentRate, this`loading)
                && unchanged(binanceService)
      ensures old(amountBOB) > 0.0 ==>
                && amountBOB == old(amountBOB) && editingBOB && !loading
                && binanceService.cachedRates == Some(RatesOf(buy, sell, now))
                && amountUSDT == Round2(BobToUsdt(old(amountBOB), true, binanceService.cachedRates.value, now).amountUSDT)
                && currentRate == binanceService.cachedRates.value.buyPrice
                && binanceService.lastRateUpdate == now
      ensures old(amountUSDT) >= 0.0 ==> Valid()
    {
      if amountBOB < 0.0 {
        amountBOB := 0.0;
        return;
      }
      editingBOB := true;
      if amountBOB == 0.0 {
        amountUSDT := 0.0;
        return;
      }
      var result := binanceService.ConvertBOBtoUSDT(amountBOB, true, buy, sell, now);
      amountUSDT := Round2(result.amountUSDT);
      currentRate := result.exchangeRate;
      loading := false;
    }

    /**
     * `onUSDTChange`, with the responses of the aggregation the conversion runs:
     * a negative USDT amount is reset to 0 and nothing else happens; otherwise
     * USDT becomes the field edited last, a zero amount gives zero BOB without a
     * conversion, and a positive one gives the BOB amount at the sell price,
     * rounded to cents.
     */
    method OnUSDTChange(buy: Fetch, sell: Fetch, now: int)
      modifies this`amountBOB, this`amountUSDT, this`editingBOB, this`currentRate, this`loading, binanceService
      ensures old(amountUSDT) < 0.0 ==>
                && amountUSDT == 0.0
                && unchanged(this`amountBOB, this`editingBOB, this`currentRate, this`loading)
                && unchanged(binanceService)
      ensures old(amountUSDT) == 0.0 ==>
                && amountUSDT == 0.0 && amountBOB == 0.0 && !editingBOB
                && unchanged(this`currentRate, this`loading)
                && unchanged(binanceService)
      ensures old(amountUSDT) > 0.0 ==>
                && amountUSDT == old(amountUSDT) && !editingBOB && !loading
                && binanceService.cachedRates == Some(RatesOf(buy, sell, now))
                && amountBOB == Round2(UsdtToBob(old(amountUSDT), true, binanceService.cachedRates.value, now).amountBOB)
                && currentRate == binanceService.cachedRates.value.sellPrice
                && binanceService.lastRateUpdate == now
      ensures old(amountBOB) >= 0.0 ==> Valid()
    {
      if amountUSDT < 0.0 {
        amountUSDT := 0.0;
        return;
      }
      editingBOB := false;
      if amountUSDT == 0.0 {
        amountBOB := 0.0;
        return;
      }
      var result := binanceService.ConvertUSDTtoBOB(amountUSDT, true, buy, sell, now);
      amountBOB := Round2(result.amountBOB);
      currentRate := result.exchangeRate;
      loading := false;
    }

    /**
     * `swapValues`: the two amounts trade places, then the handler of the field
     * edited last runs on its new amount: a negative amount is reset to 0 and
     * its counterpart keeps the swapped-in value; otherwise the counterpart is
     * converted from it. Only a positive amount triggers a conversion, which
     * rewrites the service's cache and the rate shown. From valid amounts the
     * amounts stay valid.
     */
    method SwapValues(buy: Fetch, sell: Fetch, now: int)
      modifies this`amountBOB, this`amountUSDT, this`editingBOB, this`currentRate, this`loading, binanceService
      ensures old(Valid()) ==> Valid()
      ensures editingBOB == old(editingBOB)
      ensures old(editingBOB) ==> amountBOB == (if old(amountUSDT) < 0.0 then 0.0 else old(amountUSDT))
      ensures old(editingBOB) && old(amountUSDT) < 0.0 ==> amountUSDT == old(amountBOB)
      ensures old(editingBOB) && old(amountUSDT) == 0.0 ==> amountUSDT == 0.0
      ensures old(editingBOB) && old(amountUSDT) > 0.0 ==>
                amountUSDT == Round2(BobToUsdt(old(amountUSDT), true, RatesOf(buy, sell, now), now).amountUSDT)
      ensures !old(editingBOB) ==> amountUSDT == (if old(amountBOB) < 0.0 then 0.0 else old(amountBOB))
      ensures !old(editingBOB) && old(amountBOB) < 0.0 ==> amountBOB == old(amountUSDT)
      ensures !old(editingBOB) && old(amountBOB) == 0.0 ==> amountBOB == 0.0
      ensures !old(editingBOB) && old(amountBOB) > 0.0 ==>
                amountBOB == Round2(UsdtToBob(old(amountBOB), true, RatesOf(buy, sell, now), now).amountBOB)
      ensures old(editingBOB) && old(amountUSDT) <= 0.0 ==>
                unchanged(this`currentRate, this`loading) && unchanged(binanceService)
      ensures old(editingBOB) && old(amountUSDT) > 0.0 ==>
                && currentRate == RatesOf(buy, sell, now).buyPrice && !loading
                && binanceService.cachedRates == Some(RatesOf(buy, sell, now))
                && binanceService.lastRateUpdate == now
      ensures !old(editingBOB) && old(amountBOB) <= 0.0 ==>
                unchanged(this`currentRate, this`loading) && unchanged(binanceService)
      ensures !old(editingBOB) && old(amountBOB) > 0.0 ==>
                && currentRate == RatesOf(buy, sell, now).sellPrice && !loading
                && binanceService.cachedRates == Some(RatesOf(buy, sell, now))
                && binanceService.lastRateUpdate == now
    {
      var temp := amountBOB;
      amountBOB := amountUSDT;
      amountUSDT := temp;
      if editingBOB {
        OnBOBChange(buy, sell, now);
      } else {
        OnUSDTChange(buy, sell, now);
      }
    }

    /** `clearFields`: both amounts become 0 and nothing else changes. */
    method ClearFields()
      modifies this`amountBOB, this`amountUSDT
      ensures amountBOB == 0.0 && amountUSDT == 0.0
      ensures Valid()
    {
      amountBOB := 0.0;
      amountUSDT := 0.0;
    }
  }

  /**
   * The rate `loadCurrentRates` shows, `bobToUsdRate * usdtPrice`: exactly 1
   * for a record whose `bobToUsdRate` is the reciprocal of its `usdtPrice`, as
   * every aggregated record's is.
   */
  function ShownRate(rates: ConversionRate): (shown: real)
    ensures Derived(rates) ==> shown == 1.0
  {
    rates.bobToUsdRate * rates.usdtPrice
  }

  /**
   * After a conversion from BOB, the USDT amount is within half a cent of the
   * exact quotient, so converting it back at the buy price misses the BOB
   * amount by at most half a cent times the price.
   */
  lemma BobConversionWithinHalfCent(amountBOB: real, rates: ConversionRate, now: int)
    requires amountBOB > 0.0
    ensures var usdt := Round2(BobToUsdt(amountBOB, true, rates, now).amountUSDT);
      usdt >= 0.0 && IsCents(usdt)
      && amountBOB - 0.005 * rates.buyPrice <= usdt * rates.buyPrice <= amountBOB + 0.005 * rates.buyPrice
  {
    var exact := BobToUsdt(amountBOB, true, rates, now).amountUSDT;
    ConversionsExact(amountBOB, 0.0, true, rates, now);
    ScaleBounds(exact, Round2(exact), rates.buyPrice, amountBOB);
  }

  /** An approximation within half a cent of `exact`, scaled by `p`, is within half a cent times `p` of `exact * p`. */
  lemma ScaleBounds(exact: real, approx: real, p: real, product: real)
    requires p > 0.0 && exact * p == product
    requires exact - 0.005 <= approx <= exact + 0.005
    ensures product - 0.005 * p <= approx * p <= product + 0.005 * p
  {
    var d := approx - exact;
    assert approx * p == product + d * p;
    MulMonotone(-0.005, d, p);
    MulMonotone(d, 0.005, p);
  }

  /** Multiplying by a positive factor keeps the order. */
  lemma MulMonotone(x: real, y: real, p: real)
    requires x <= y && p > 0.0
    ensures x * p <= y * p
  {
    var d := y - x;
    assert y * p == x * p + d * p;
    assert d * p >= 0.0;
  }

  /**
   * The worked example: BUY ads at 7.05, 7.10 and 7.02 and SELL ads at 6.80,
   * 6.75 and 6.90 give a buy price of 7.02, a sell price of 6.90 and an average
   * of 6.96; 100 BOB become 14.25 USDT, and those 14.25 USDT come back as
   * 98.33 BOB, the spread's loss.
   */
  lemma SpreadLossExample(buyAds: seq<P2PAdvertisement>, sellAds: seq<P2PAdvertisement>, now: int)
    requires Prices(buyAds) == [7.05, 7.10, 7.02]
    requires Prices(sellAds) == [6.80, 6.75, 6.90]
    ensures var rates := ComputeRates(buyAds, sellAds, now);
      && rates.buyPrice == 7.02 && rates.sellPrice == 6.90 && rates.avgPrice == 6.96
      && Round2(BobToUsdt(100.0, true, rates, now).amountUSDT) == 14.25
      && Round2(UsdtToBob(14.25, true, rates, now).amountBOB) == 98.33
  {
    var rates := ComputeRates(buyAds, sellAds, now);
    ExamplePrices(buyAds, sellAds, rates, now);
    ExampleRounding(rates.buyPrice, rates.sellPrice);
  }

  lemma ExamplePrices(buyAds: seq<P2PAdvertisement>, sellAds: seq<P2PAdvertisement>, rates: ConversionRate, now: int)
    requires Prices(buyAds) == [7.05, 7.10, 7.02]
    requires Prices(sellAds) == [6.80, 6.75, 6.90]
    requires rates == ComputeRates(buyAds, sellAds, now)
    ensures rates.buyPrice == 7.02 && rates.sellPrice == 6.90 && rates.avgPrice == 6.96
  {
    assert buyAds[2].adv.price == 7.02;
    assert sellAds[2].adv.price == 6.90;
    assert forall i :: 0 <= i < 3 ==> buyAds[i].adv.price >= 7.02;
    assert forall i :: 0 <= i < 3 ==> sellAds[i].adv.price <= 6.90;
  }

  lemma ExampleRounding(buy: real, sell: real)
    requires buy == 7.02 && sell == 6.90
    ensures Round2(100.0 / buy) == 14.25
    ensures Round2(14.25 * sell) == 98.33
  {
    assert (100.0 / buy * 100.0 + 0.5).Floor == 1425;
    assert (14.25 * sell * 100.0 + 0.5).Floor == 9833;
  }
}
