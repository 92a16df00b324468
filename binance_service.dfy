/**
 * The P2P rate service: two advertisement lists (the BUY side and the SELL
 * side of the USDT/BOB market) reduced to one rate record, the cache holding
 * the latest record, and the two directional conversions.
 */
module Binance {
  import opened Wrappers

  /** A parsed advertisement price, in BOB per USDT; marketplace prices are positive. */
  type Price = r: real | r > 0.0 witness 1.0

  datatype Advertiser = Advertiser(nickName: string, userNo: string)

  datatype Adv = Adv(
    price: Price,
    tradableQuantity: string,
    minSingleTransAmount: string,
    maxSingleTransAmount: string)

  datatype P2PAdvertisement = P2PAdvertisement(
    advertiser: Advertiser,
    adv: Adv,
    tradeMethodNames: seq<string>)

  /** The marketplace's answer; `data` may be missing. */
  datatype P2PResponse = P2PResponse(data: Option<seq<P2PAdvertisement>>, total: int)

  /** What one advertisement request produced: a response, or a transport error. */
  datatype Fetch = Delivered(response: P2PResponse) | TransportError

  datatype ConversionRate = ConversionRate(
    usdtPrice: real,
    bobToUsdRate: real,
    buyPrice: Price,
    sellPrice: Price,
    avgPrice: Price,
    timestamp: int)

  datatype ConversionResult = ConversionResult(
    exchangeRate: real,
    amountBOB: real,
    amountUSDT: real,
    buyPrice: Price,
    sellPrice: Price,
    avgPrice: Price,
    timestamp: int)

  /** Buy price used when the BUY side lists no advertisement. */
  const BuyFallback: Price := 7.0
  /** Sell price used when the SELL side lists no advertisement. */
  const SellFallback: Price := 6.8
  /** Age, in seconds, beyond which a read of the cache starts a refresh. */
  const RefreshAfterSeconds: real := 30.0
  /** Number of advertisements per side that `getTopAdvertisements` keeps. */
  const TopCount: nat := 5

  // ----- fetching -----------------------------------------------------------

  /**
   * The advertisement list one request yields: the response's `data`, the
   * empty list when `data` is missing, and the empty list on a transport error.
   */
  function FetchedAds(f: Fetch): (ads: seq<P2PAdvertisement>)
    ensures f.TransportError? ==> ads == []
    ensures f.Delivered? && f.response.data.None? ==> ads == []
    ensures f.Delivered? && f.response.data.Some? ==> ads == f.response.data.value
  {
    match f
    case Delivered(response) => response.data.GetOr([])
    case TransportError => []
  }

  /**
   * The stream one request yields as written: `catchError` returns the array
   * `[]`, which RxJS reads as a stream of its elements, so a transport error
   * gives a stream that completes without emitting any list (`None`).
   */
  function AdsStreamAsWritten(f: Fetch): (s: Option<seq<P2PAdvertisement>>)
    ensures s.None? <==> f.TransportError?
    ensures s.Some? ==> s.value == FetchedAds(f)
  {
    match f
    case Delivered(response) => Some(response.data.GetOr([]))
    case TransportError => None
  }

  /**
   * `getCurrentRates` as written: `forkJoin` emits only when both streams have
   * emitted, so a transport error on either side emits no rate at all.
   */
  function RatesAsWritten(buy: Fetch, sell: Fetch, now: int): (r: Option<ConversionRate>)
    ensures r.None? <==> buy.TransportError? || sell.TransportError?
    ensures r.Some? ==> Derived(r.value) && r.value.timestamp == now
  {
    match (AdsStreamAsWritten(buy), AdsStreamAsWritten(sell))
    case (Some(buyAds), Some(sellAds)) => Some(ComputeRates(buyAds, sellAds, now))
    case _ => None
  }

  /**
   * As written, a transport error on either side loses the whole record, where
   * the fallback prices were evidently meant to apply; with both sides
   * delivered the two agree.
   */
  lemma RatesAsWrittenDropsFallback(buy: Fetch, sell: Fetch, now: int)
    ensures RatesAsWritten(buy, sell, now).None? <==> buy.TransportError? || sell.TransportError?
    ensures RatesAsWritten(buy, sell, now).Some? ==>
              RatesAsWritten(buy, sell, now).value == ComputeRates(FetchedAds(buy), FetchedAds(sell), now)
    ensures buy.TransportError? ==> ComputeRates(FetchedAds(buy), FetchedAds(sell), now).buyPrice == BuyFallback
    ensures sell.TransportError? ==> ComputeRates(FetchedAds(buy), FetchedAds(sell), now).sellPrice == SellFallback
  {
  }

  // ----- aggregation --------------------------------------------------------

  function Prices(ads: seq<P2PAdvertisement>): (ps: seq<Price>)
    ensures |ps| == |ads|
    ensures forall i :: 0 <= i < |ads| ==> ps[i] == ads[i].adv.price
  {
    seq(|ads|, i requires 0 <= i < |ads| => ads[i].adv.price)
  }

  /** `Math.min(...ps)`: the least price, which is one of them. */
  function MinPrice(ps: seq<Price>): (m: Price)
    requires |ps| > 0
    ensures forall i :: 0 <= i < |ps| ==> m <= ps[i]
    ensures exists i :: 0 <= i < |ps| && ps[i] == m
  {
    if |ps| == 1 then ps[0]
    else
      var rest := MinPrice(ps[1..]);
      assert forall i :: 1 <= i < |ps| ==> ps[i] == ps[1..][i - 1];
      if ps[0] <= rest then ps[0] else rest
  }

  /** `Math.max(...ps)`: the greatest price, which is one of them. */
  function MaxPrice(ps: seq<Price>): (m: Price)
    requires |ps| > 0
    ensures forall i :: 0 <= i < |ps| ==> ps[i] <= m
    ensures exists i :: 0 <= i < |ps| && ps[i] == m
  {
    if |ps| == 1 then ps[0]
    else
      var rest := MaxPrice(ps[1..]);
      assert forall i :: 1 <= i < |ps| ==> ps[i] == ps[1..][i - 1];
      if ps[0] >= rest then ps[0] else rest
  }

  /**
   * How a record's other prices follow from its buy and sell prices: the
   * average is their midpoint, `usdtPrice` is the average, and `bobToUsdRate`
   * is the average's reciprocal.
   */
  predicate Derived(r: ConversionRate)
  {
    && 2.0 * r.avgPrice == r.buyPrice + r.sellPrice
    && r.usdtPrice == r.avgPrice
    && r.bobToUsdRate * r.avgPrice == 1.0
  }

  /**
   * The rate record of one aggregation: the cheapest BUY advertisement, the
   * best-paying SELL advertisement (each with its fallback when its side is
   * empty), their midpoint, and the midpoint's reciprocal.
   */
  function ComputeRates(buyAds: seq<P2PAdvertisement>, sellAds: seq<P2PAdvertisement>, now: int): (r: ConversionRate)
    ensures buyAds == [] ==> r.buyPrice == BuyFallback
    ensures buyAds != [] ==> forall i :: 0 <= i < |buyAds| ==> r.buyPrice <= buyAds[i].adv.price
    ensures buyAds != [] ==> exists i :: 0 <= i < |buyAds| && buyAds[i].adv.price == r.buyPrice
    ensures sellAds == [] ==> r.sellPrice == SellFallback
    ensures sellAds != [] ==> forall i :: 0 <= i < |sellAds| ==> sellAds[i].adv.price <= r.sellPrice
    ensures sellAds != [] ==> exists i :: 0 <= i < |sellAds| && sellAds[i].adv.price == r.sellPrice
    ensures Derived(r)
    ensures r.timestamp == now
  {
    var buyPrice: Price := if |buyAds| > 0 then MinPrice(Prices(buyAds)) else BuyFallback;
    var sellPrice: Price := if |sellAds| > 0 then MaxPrice(Prices(sellAds)) else SellFallback;
    var avgPrice: Price := (buyPrice + sellPrice) / 2.0;
    ConversionRate(
      usdtPrice := avgPrice,
      bobToUsdRate := 1.0 / avgPrice,
      buyPrice := buyPrice,
      sellPrice := sellPrice,
      avgPrice := avgPrice,
      timestamp := now)
  }

  /**
   * The order in which the marketplace lists advertisements does not matter:
   * two lists with the same prices give the same record.
   */
  lemma ComputeRatesOrderFree(buyA: seq<P2PAdvertisement>, buyB: seq<P2PAdvertisement>,
                              sellA: seq<P2PAdvertisement>, sellB: seq<P2PAdvertisement>, now: int)
    requires multiset(Prices(buyA)) == multiset(Prices(buyB))
    requires multiset(Prices(sellA)) == multiset(Prices(sellB))
    ensures ComputeRates(buyA, sellA, now) == ComputeRates(buyB, sellB, now)
  {
    var ra, rb := ComputeRates(buyA, sellA, now), ComputeRates(buyB, sellB, now);
    SamePricesSameSize(buyA, buyB);
    SamePricesSameSize(sellA, sellB);
    if buyA != [] {
      assert ra.buyPrice <= rb.buyPrice by { PriceInOther(buyB, buyA, rb.buyPrice); }
      assert rb.buyPrice <= ra.buyPrice by { PriceInOther(buyA, buyB, ra.buyPrice); }
    }
    if sellA != [] {
      assert ra.sellPrice <= rb.sellPrice by { PriceInOther(sellA, sellB, ra.sellPrice); }
      assert rb.sellPrice <= ra.sellPrice by { PriceInOther(sellB, sellA, rb.sellPrice); }
    }
  }

  lemma SamePricesSameSize(a: seq<P2PAdvertisement>, b: seq<P2PAdvertisement>)
    requires multiset(Prices(a)) == multiset(Prices(b))
    ensures |a| == |b|
  {
    assert |multiset(Prices(a))| == |Prices(a)|;
    assert |multiset(Prices(b))| == |Prices(b)|;
  }

  /** A price listed in `a` is listed in `b` when both list the same prices. */
  lemma PriceInOther(a: seq<P2PAdvertisement>, b: seq<P2PAdvertisement>, p: Price)
    requires multiset(Prices(a)) == multiset(Prices(b))
    requires exists i :: 0 <= i < |a| && a[i].adv.price == p
    ensures exists j :: 0 <= j < |b| && b[j].adv.price == p
  {
    var i :| 0 <= i < |a| && a[i].adv.price == p;
    assert Prices(a)[i] == p;
    assert p in multiset(Prices(b));
    var j :| 0 <= j < |Prices(b)| && Prices(b)[j] == p;
    assert b[j].adv.price == p;
  }

  // ----- conversion ---------------------------------------------------------

  /**
   * `convertBOBtoUSDT` once its rate record is in: the amount is divided by
   * the buy price whatever `useAverage` says, and the record's prices are echoed.
   */
  function BobToUsdt(amountBOB: real, useAverage: bool, rates: ConversionRate, now: int): (r: ConversionResult)
    ensures r.exchangeRate == rates.buyPrice
    ensures amountBOB >= 0.0 ==> r.amountUSDT >= 0.0
    ensures r.amountBOB == amountBOB
    ensures r.buyPrice == rates.buyPrice && r.sellPrice == rates.sellPrice && r.avgPrice == rates.avgPrice
    ensures r.timestamp == now
  {
    var priceToUse := rates.buyPrice;
    ConversionResult(
      exchangeRate := priceToUse,
      amountBOB := amountBOB,
      amountUSDT := amountBOB / priceToUse,
      buyPrice := rates.buyPrice,
      sellPrice := rates.sellPrice,
      avgPrice := rates.avgPrice,
      timestamp := now)
  }

  /**
   * `convertUSDTtoBOB` once its rate record is in: the amount is multiplied by
   * the sell price whatever `useAverage` says, and the record's prices are echoed.
   */
  function UsdtToBob(amountUSDT: real, useAverage: bool, rates: ConversionRate, now: int): (r: ConversionResult)
    ensures r.exchangeRate == rates.sellPrice
    ensures amountUSDT >= 0.0 ==> r.amountBOB >= 0.0
    ensures r.amountUSDT == amountUSDT
    ensures r.buyPrice == rates.buyPrice && r.sellPrice == rates.sellPrice && r.avgPrice == rates.avgPrice
    ensures r.timestamp == now
  {
    var priceToUse := rates.sellPrice;
    ConversionResult(
      exchangeRate := priceToUse,
      amountBOB := amountUSDT * priceToUse,
      amountUSDT := amountUSDT,
      buyPrice := rates.buyPrice,
      sellPrice := rates.sellPrice,
      avgPrice := rates.avgPrice,
      timestamp := now)
  }

  /**
   * Each conversion is exact: the USDT amount times the buy price gives back
   * the BOB amount, and the BOB amount over the sell price the USDT amount.
   */
  lemma ConversionsExact(amountBOB: real, amountUSDT: real, useAverage: bool, rates: ConversionRate, now: int)
    ensures BobToUsdt(amountBOB, useAverage, rates, now).amountUSDT * rates.buyPrice == amountBOB
    ensures UsdtToBob(amountUSDT, useAverage, rates, now).amountBOB / rates.sellPrice == amountUSDT
  {
  }

  /**
   * Converting BOB to USDT and back scales the amount by sell/buy: the round
   * trip is exact only for a zero amount or a zero spread, and loses money
   * whenever the sell price is below the buy price.
   */
  lemma ConversionRoundTrip(amountBOB: real, useAverage: bool, rates: ConversionRate, now: int)
    requires amountBOB >= 0.0
    ensures UsdtToBob(BobToUsdt(amountBOB, useAverage, rates, now).amountUSDT, useAverage, rates, now).amountBOB
              == amountBOB * rates.sellPrice / rates.buyPrice
    ensures (UsdtToBob(BobToUsdt(amountBOB, useAverage, rates, now).amountUSDT, useAverage, rates, now).amountBOB == amountBOB)
            <==> (amountBOB == 0.0 || rates.sellPrice == rates.buyPrice)
    ensures amountBOB > 0.0 && rates.sellPrice < rates.buyPrice ==>
              UsdtToBob(BobToUsdt(amountBOB, useAverage, rates, now).amountUSDT, useAverage, rates, now).amountBOB < amountBOB
  {
    var back := UsdtToBob(BobToUsdt(amountBOB, useAverage, rates, now).amountUSDT, useAverage, rates, now).amountBOB;
    var ratio := rates.sellPrice / rates.buyPrice;
    assert back == amountBOB * ratio;
    assert ratio * rates.buyPrice == rates.sellPrice;
    if rates.sellPrice < rates.buyPrice {
      QuotientBelowOne(rates.sellPrice, rates.buyPrice);
      if amountBOB > 0.0 {
        assert amountBOB * ratio < amountBOB * 1.0;
      }
    }
    if back == amountBOB && amountBOB != 0.0 {
      assert ratio == 1.0;
    }
  }

  lemma QuotientBelowOne(a: real, b: real)
    requires 0.0 < a < b
    ensures a / b < 1.0
  {
    var q, d := a / b, (b - a) / b;
    assert d > 0.0;
    assert q * b == a;
    assert d * b == b - a;
    assert (q + d - 1.0) * b == q * b + d * b - b;
    ZeroFactor(q + d - 1.0, b);
  }

  lemma ZeroFactor(x: real, b: real)
    requires b > 0.0 && x * b == 0.0
    ensures x == 0.0
  {
  }

  /** `getTopAdvertisements`: the first `TopCount` advertisements of each side, in order. */
  function TopAdvertisements(buy: Fetch, sell: Fetch): (r: (seq<P2PAdvertisement>, seq<P2PAdvertisement>))
    ensures |r.0| == if |FetchedAds(buy)| < TopCount then |FetchedAds(buy)| else TopCount
    ensures |r.1| == if |FetchedAds(sell)| < TopCount then |FetchedAds(sell)| else TopCount
    ensures r.0 <= FetchedAds(buy) && r.1 <= FetchedAds(sell)
  {
    var buyAds, sellAds := FetchedAds(buy), FetchedAds(sell);
    (if |buyAds| <= TopCount then buyAds else buyAds[..TopCount],
     if |sellAds| <= TopCount then sellAds else sellAds[..TopCount])
  }

  // ----- the service object -------------------------------------------------

  /** The service's state: the latest rate record and when it was written (ms). */
  class BinanceService {
    var cachedRates: Option<ConversionRate>
    var lastRateUpdate: int

    /**
     * A new service has no record. The refresh its constructor starts lands
     * later, as a call of `UpdateRates` with the responses.
     */
    constructor (now: int)
      ensures cachedRates == None && lastRateUpdate == now
    {
      cachedRates := None;
      lastRateUpdate := now;
    }

    /** `getCurrentRates` once both responses are in: aggregate, then replace the cache. */
    method GetCurrentRates(buy: Fetch, sell: Fetch, now: int) returns (rates: ConversionRate)
      modifies this
      ensures rates == ComputeRates(FetchedAds(buy), FetchedAds(sell), now)
      ensures cachedRates == Some(rates) && lastRateUpdate == now
    {
      var buyAds := FetchedAds(buy);
      var sellAds := FetchedAds(sell);
      rates := ComputeRates(buyAds, sellAds, now);
      cachedRates := Some(rates);
      lastRateUpdate := now;
    }

    /** `updateRates`: a `getCurrentRates` whose record is only kept in the cache. */
    method UpdateRates(buy: Fetch, sell: Fetch, now: int)
      modifies this
      ensures cachedRates == Some(ComputeRates(FetchedAds(buy), FetchedAds(sell), now))
      ensures lastRateUpdate == now
    {
      var _ := GetCurrentRates(buy, sell, now);
    }

    /**
     * `getCachedRates`: returns the cache as it is (possibly empty) and starts
     * a refresh exactly when more than 30 seconds have passed since the last
     * write; the refresh lands later, as a call of `UpdateRates`.
     */
    method GetCachedRates(now: int) returns (rates: Option<ConversionRate>, refreshStarted: bool)
      ensures rates == cachedRates
      ensures refreshStarted <==> now - lastRateUpdate > 30000
    {
      var secondsSinceUpdate := (now - lastRateUpdate) as real / 1000.0;
      refreshStarted := secondsSinceUpdate > RefreshAfterSeconds;
      rates := cachedRates;
    }

    /** `convertBOBtoUSDT`: a fresh aggregation (which rewrites the cache), then the division. */
    method ConvertBOBtoUSDT(amountBOB: real, useAverage: bool, buy: Fetch, sell: Fetch, now: int)
      returns (result: ConversionResult)
      modifies this
      ensures cachedRates == Some(ComputeRates(FetchedAds(buy), FetchedAds(sell), now))
      ensures lastRateUpdate == now
      ensures result == BobToUsdt(amountBOB, useAverage, cachedRates.value, now)
    {
      var rates := GetCurrentRates(buy, sell, now);
      result := BobToUsdt(amountBOB, useAverage, rates, now);
    }

    /** `convertUSDTtoBOB`: a fresh aggregation (which rewrites the cache), then the product. */
    method ConvertUSDTtoBOB(amountUSDT: real, useAverage: bool, buy: Fetch, sell: Fetch, now: int)
      returns (result: ConversionResult)
      modifies this
      ensures cachedRates == Some(ComputeRates(FetchedAds(buy), FetchedAds(sell), now))
      ensures lastRateUpdate == now
      ensures result == UsdtToBob(amountUSDT, useAverage, cachedRates.value, now)
    {
      var rates := GetCurrentRates(buy, sell, now);
      result := UsdtToBob(amountUSDT, useAverage, rates, now);
    }
  }
}
