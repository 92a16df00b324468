# BOB ⇄ USDT converter: a verified model

A Dafny model of the core of an Angular application. The application converts
between bolivianos (BOB) and the USDT stable coin at Binance P2P marketplace prices.
It covers three pieces of that application:

- **The rate service** (`BinanceService`). It asks the P2P marketplace for
  BUY and SELL advertisements and reduces them to one rate record:
  - the cheapest BUY price, or 7.0 when there is none;
  - the best-paying SELL price, or 6.8 when there is none;
  - their midpoint, and the reciprocal of the midpoint.

  It also caches the record with its time, starts a refresh of a cache older
  than 30 seconds, converts amounts at the buy or sell price, and lists the
  top five advertisements of each side.
- **The page body** (`Body`). Two linked input fields, one for USDT and one for BOB:
  - the text each field keeps while the user types or pastes;
  - the keys it lets through;
  - the amounts and display strings its handlers update;
  - the focus and editing flags;
  - the "last updated" label.
- **The converter component** (`ConverterComponent`). Two amounts kept in step
  through the service. Results are rounded to cents. The component remembers
  which field was edited last, and uses that to swap the amounts.

How the model is built:

- **Files.** One Dafny module per source file: `Binance`, `BodyComponent` and
  `Converter`. Supporting modules: `Text` for the JavaScript string
  operations the handlers use, `JsNumber` for `parseFloat`, `toFixed(2)` and
  integer text, and `Wrappers` for `Option`.
- **Amounts** are exact reals.
- **Times** are integer milliseconds.
- **Requests.** An HTTP request is a `Fetch` value: either a delivered
  `P2PResponse` or a transport error.
- **Asynchrony.** The model treats a subscription as finishing at once. A
  method that starts a request takes that request's responses and the
  current time as parameters.

Behaviours of the code the model keeps as they are:

- The cache starts empty (`null`); the constructor only starts a refresh.
- `getCachedRates` returns the cached record as it is, even when it is stale,
  and only starts a refresh.
- The `useAverage` argument of the conversions is ignored. The doc comments
  at `binance-service.ts` lines 183 and 208 say it selects the average price.
  The code always divides by the buy price (BOB→USDT) and multiplies by the
  sell price (USDT→BOB), and the model follows the code.

## Model

| member | source | states |
|---|---|---|
| Binance.FetchedAds | src/app/services/binance-service.ts:79-85 | one side's advertisement list: the response's `data`, the empty list when `data` is missing, and (as evidently intended) the empty list on a transport error; the SELL side, lines 106-112, is the same |
| Binance.AdsStreamAsWritten | src/app/services/binance-service.ts:79-85 | as written, the stream emits no list at all exactly when the request fails; when it emits, it emits the same list as `FetchedAds` |
| Binance.RatesAsWritten | src/app/services/binance-service.ts:118-122 | `getCurrentRates` as written: no record iff either request fails; otherwise a record whose prices are related as every aggregation's are, stamped now |
| Binance.RatesAsWrittenDropsFallback | src/app/services/binance-service.ts:118-122 | as written, `forkJoin` gives no rate record exactly when either request fails, although the fallback price of the failing side would have applied; with both delivered it gives the corrected record |
| Binance.MinPrice | src/app/services/binance-service.ts:126 | the buy price is at most every listed price and is one of them |
| Binance.MaxPrice | src/app/services/binance-service.ts:131 | the sell price is at least every listed price and is one of them |
| Binance.ComputeRates | src/app/services/binance-service.ts:125-143 | fallback 7.0 / 6.8 for an empty side; otherwise the least BUY and the greatest SELL price, each attained by some advertisement; average = midpoint, `usdtPrice` = average, `bobToUsdRate * usdtPrice` = 1; timestamp = now |
| Binance.ComputeRatesOrderFree | src/app/services/binance-service.ts:125-132 | two BUY lists and two SELL lists with the same prices in any order give the same record |
| Binance.BobToUsdt | src/app/services/binance-service.ts:187-201 | the rate used is the buy price whatever `useAverage` says; a non-negative amount gives a non-negative result; the amount and the record's three prices are echoed |
| Binance.UsdtToBob | src/app/services/binance-service.ts:212-227 | the rate used is the sell price whatever `useAverage` says; a non-negative amount gives a non-negative result; the amount and the record's three prices are echoed |
| Binance.ConversionsExact | src/app/services/binance-service.ts:189-216 | each conversion is exact: USDT times the buy price is the BOB amount, and BOB over the sell price is the USDT amount |
| Binance.ConversionRoundTrip | src/app/services/binance-service.ts:185-229 | BOB→USDT→BOB scales the amount by sell/buy; it returns the amount exactly iff the amount is 0 or the spread is 0, and loses money whenever sell < buy |
| Binance.TopAdvertisements | src/app/services/binance-service.ts:242-245 | each side keeps its first min(5, length) advertisements, in order |
| Binance.BinanceService.constructor | src/app/services/binance-service.ts:54-59 | a new service has no cached record; its update time is the creation time |
| Binance.BinanceService.GetCurrentRates | src/app/services/binance-service.ts:118-151 | returns the aggregation of the two responses, stores it as the cache, and sets the update time to now |
| Binance.BinanceService.UpdateRates | src/app/services/binance-service.ts:156-166 | the cache becomes the aggregation of the responses, and the update time becomes now |
| Binance.BinanceService.GetCachedRates | src/app/services/binance-service.ts:171-178 | returns the cache unchanged (possibly empty); a refresh starts iff more than 30 s (30000 ms) have passed since the last write |
| Binance.BinanceService.ConvertBOBtoUSDT | src/app/services/binance-service.ts:185-203 | rewrites the cache with a fresh aggregation, then converts at that record's buy price |
| Binance.BinanceService.ConvertUSDTtoBOB | src/app/services/binance-service.ts:210-229 | rewrites the cache with a fresh aggregation, then converts at that record's sell price |
| Text.KeepNumeric | src/app/components/page/body/body.ts:169 | the result holds only `[0-9.,]`, is no longer than the input, and a text already made of them is kept whole |
| Text.KeepNumericSingle | src/app/components/page/body/body.ts:169 | one character is kept iff it is in `[0-9.,]` |
| Text.KeepNumericAppend | src/app/components/page/body/body.ts:169 | the filter keeps the order: filtering a concatenation concatenates the filtered parts, so with `KeepNumericSingle` "1a2" gives "12" |
| Text.KeepNumericCounts | src/app/components/page/body/body.ts:169 | removing the other characters keeps every digit, dot and comma: each one's count is unchanged |
| Text.ReplaceAll | src/app/components/page/body/body.ts:172 | `replace(/,/g, '.')`: position by position, every comma becomes a dot and every other character stays |
| Text.ReplaceFirst | src/app/components/page/body/body.ts:243 | only the first comma becomes a dot |
| Text.Split | src/app/components/page/body/body.ts:175 | `split('.')` gives one more piece than there are dots, and no piece holds a dot |
| Text.JoinSplit | src/app/components/page/body/body.ts:175 | joining the pieces of `split` with the separator gives back the text |
| Text.Concat | src/app/components/page/body/body.ts:177 | `join('')`: a character occurs in the result iff it occurs in some piece |
| Text.ConcatSplit | src/app/components/page/body/body.ts:177 | `join('')` of the pieces is the text with every separator deleted |
| Text.Take | src/app/components/page/body/body.ts:182 | `substring(0, n)` is the prefix of `s` of length min(n, length of `s`) |
| Text.LexLess | src/app/components/page/body/body.ts:218 | `key >= '0'` and `key <= '9'` compare JavaScript strings: no string is below the empty string, and when the first characters differ they decide the order |
| JsNumber.ParseAmount | src/app/components/page/body/body.ts:80 | `parseFloat(value) \|\| 0` on digits, dots and commas is never negative |
| JsNumber.ParseNatText | src/app/components/page/body/body.ts:285 | reading back the decimal text of a whole number gives that number |
| JsNumber.NatText | src/app/components/page/body/body.ts:285 | the text of a number is non-empty digits without a leading zero, and its value is the number |
| JsNumber.IntText | src/app/components/page/body/body.ts:285-287 | `${i}` starts with a minus sign iff i is negative, and the digits after the sign spell the magnitude of i with no leading zero |
| JsNumber.Round2 | src/app/components/converter/converter.ts:80 | `parseFloat(x.toFixed(2))` has at most two decimals, lies within half a cent of x, keeps x's sign, and rounds a tie away from zero (strict bound on the side of zero) |
| JsNumber.Round2Idempotent | src/app/components/converter/converter.ts:111 | rounding an amount already rounded to cents changes nothing |
| BodyComponent.NormalizedInput | src/app/components/page/body/body.ts:169-172 | after the two replacements, the field text holds only digits and dots |
| BodyComponent.ProcessInputValue | src/app/components/page/body/body.ts:165-193 | a text of digits only is kept as it is; the lemmas below give every case |
| BodyComponent.ProcessInputValueCases | src/app/components/page/body/body.ts:175-183 | with no dot the text is kept; with one dot, at most two characters follow it; with several dots, the first is kept, the others are deleted, and the fraction is not cut |
| BodyComponent.ProcessInputValueShape | src/app/components/page/body/body.ts:165-192 | a field's text after a keystroke holds only digits and at most one dot |
| BodyComponent.ProcessInputValueKeepsLongFraction | src/app/components/page/body/body.ts:176-183 | "1.2.345" becomes "1.2345": the two-decimal cut does not apply after dots are collapsed |
| BodyComponent.InputAmount | src/app/components/page/body/body.ts:77-80 | a field's amount after a keystroke is never negative |
| BodyComponent.NormalizedPaste | src/app/components/page/body/body.ts:242-243 | no longer than the paste; when the filtered paste holds a comma, the result holds a dot, and without a comma it is the filtered paste |
| BodyComponent.SanitizePaste | src/app/components/page/body/body.ts:242-250 | a normalized paste without a dot is written as it is; `SanitizePasteCases` gives the other case |
| BodyComponent.NormalizedPasteHead | src/app/components/page/body/body.ts:242-243 | the normalized paste holds only `[0-9.,]`, and only digits stand before its first dot |
| BodyComponent.SanitizePasteCases | src/app/components/page/body/body.ts:245-250 | with no dot the paste is kept; otherwise the result is the text before the first dot, one dot, then at most two of the following characters, with the other dots deleted |
| BodyComponent.SanitizePasteShape | src/app/components/page/body/body.ts:242-250 | the pasted text holds `[0-9.,]`, at most one dot, at most two characters after it, and only digits before it |
| BodyComponent.SanitizePasteKeepsLaterComma | src/app/components/page/body/body.ts:243 | only the first comma is converted: "1,5,3" becomes "1.5," |
| BodyComponent.OnKeyPress | src/app/components/page/body/body.ts:195-234 | the nine control keys always pass; a dot or comma passes iff the field holds neither |
| BodyComponent.OnKeyPressSingleChar | src/app/components/page/body/body.ts:195-234 | a one-character key passes iff it is a digit, or a dot or comma while the field holds neither |
| BodyComponent.OnKeyPressKeepsOneSeparator | src/app/components/page/body/body.ts:222-229 | inserting an accepted key anywhere never gives the field a second separator |
| BodyComponent.FloorQuotient | src/app/components/page/body/body.ts:283 | `Math.floor(x / n)` is the whole quotient q with q·n ≤ x < q·n + n |
| BodyComponent.ElapsedSeconds | src/app/components/page/body/body.ts:283 | the whole seconds elapsed, s, satisfy s·1000 ≤ now − lastUpdated < s·1000 + 1000 (rounding down, also for a clock behind the update) |
| BodyComponent.AgoText | src/app/components/page/body/body.ts:285-287 | the label for a number of whole seconds is never empty |
| BodyComponent.GetLastUpdated | src/app/components/page/body/body.ts:280-288 | the label is empty iff no rates have arrived |
| BodyComponent.LastUpdatedSeconds | src/app/components/page/body/body.ts:285 | under a minute, the label gives the whole seconds |
| BodyComponent.LastUpdatedMinutes | src/app/components/page/body/body.ts:286 | from one minute to under an hour, it gives the whole minutes, 1 to 59 |
| BodyComponent.LastUpdatedHours | src/app/components/page/body/body.ts:287 | from an hour on, it gives the whole hours, at least 1 |
| BodyComponent.Body.AmountText | src/app/components/page/body/body.ts:69-70 | a field shows the empty string iff its amount is 0 |
| BodyComponent.Body.constructor | src/app/components/page/body/body.ts:13-25 | both amounts are 0, both displays empty, no rates, no field focused or edited |
| BodyComponent.Body.UpdateDisplayValues | src/app/components/page/body/body.ts:68-71 | both displays show their amounts, and a zero amount shows as "" |
| BodyComponent.Body.OnRatesPushed | src/app/components/page/body/body.ts:33-41 | the rates are stored; the displays refresh only when neither field is being edited, and stay as they were otherwise, so a focused field's display is never rewritten |
| BodyComponent.Body.SwapCurrencies | src/app/components/page/body/body.ts:54-66 | without rates nothing changes; with rates, USDT gets the converted BOB amount, BOB gets the converted old USDT amount, and both displays follow |
| BodyComponent.Body.OnUsdtInput | src/app/components/page/body/body.ts:75-92 | the USDT field keeps the processed text and its amount; with rates the BOB amount follows, and the BOB display follows unless that field has the focus; without rates BOB is untouched |
| BodyComponent.Body.OnUsdtFocus | src/app/components/page/body/body.ts:94-102 | the field becomes focused and edited; an empty field at zero stays empty, and any other field shows its amount |
| BodyComponent.Body.OnUsdtBlur | src/app/components/page/body/body.ts:104-116 | the field loses focus and editing; text "" or "0" clears both amounts and displays, and any other text leaves them as they were |
| BodyComponent.Body.OnBobInput | src/app/components/page/body/body.ts:120-137 | the BOB counterpart of `OnUsdtInput` |
| BodyComponent.Body.OnBobFocus | src/app/components/page/body/body.ts:139-147 | the BOB counterpart of `OnUsdtFocus` |
| BodyComponent.Body.OnBobBlur | src/app/components/page/body/body.ts:149-161 | the BOB counterpart of `OnUsdtBlur` |
| BodyComponent.Body.OnPaste | src/app/components/page/body/body.ts:236-272 | the sanitized paste becomes the target field's text and amount (`[0-9.,]` only, at most one dot); with rates the other amount follows; without rates it is untouched |
| Converter.ConverterComponent.constructor | src/app/components/converter/converter.ts:15-32 | all amounts, prices and rates are 0; not loading; no update time; BOB is the field edited last |
| Converter.ConverterComponent.LoadCurrentRates | src/app/components/converter/converter.ts:43-59 | the service caches the fresh record; the component copies its five prices and its timestamp; the rate shown is always exactly 1 |
| Converter.ConverterComponent.OnBOBChange | src/app/components/converter/converter.ts:64-90 | a negative BOB amount is reset to 0 and nothing else changes; 0 gives 0 USDT without a request; a positive amount gives the USDT amount at the fresh buy price, rounded to cents, with that price as the current rate; amounts stay non-negative |
| Converter.ConverterComponent.OnUSDTChange | src/app/components/converter/converter.ts:95-120 | the USDT mirror of `OnBOBChange`, at the fresh sell price |
| Converter.ConverterComponent.SwapValues | src/app/components/converter/converter.ts:125-135 | the amounts trade places, then the handler of the field edited last runs on its new amount; for each case the amounts, the rate shown, `loading`, and the service's cache and update time are stated, and valid amounts stay valid |
| Converter.ConverterComponent.ClearFields | src/app/components/converter/converter.ts:140-143 | both amounts become 0 and nothing else changes |
| Converter.ShownRate | src/app/components/converter/converter.ts:52 | for every aggregated record, `bobToUsdRate * usdtPrice` is exactly 1 |
| Converter.BobConversionWithinHalfCent | src/app/components/converter/converter.ts:78-81 | the rounded USDT amount is in whole cents, non-negative, and converting it back misses the BOB amount by at most half a cent times the buy price |
| Converter.SpreadLossExample | src/app/components/converter/converter.ts:64-120 | BUY ads at 7.05/7.10/7.02 and SELL ads at 6.80/6.75/6.90 give 7.02/6.90/6.96; 100 BOB become 14.25 USDT, which come back as 98.33 BOB |

## Left out

- HTTP, RxJS and timing. The endpoint, payload, headers and `console` output
  are not modelled. Each request is one `Fetch` value. A subscription
  completes at once, inside the method that starts it.
- Time. `new Date()` is the `now` parameter. A refresh that `getCachedRates`
  starts is a later `UpdateRates` call, made by the caller.
- Numbers. Prices and amounts are exact reals, not IEEE doubles. Rounding
  artefacts of floating point are not modelled. `toFixed(2)` is exact
  half-away-from-zero rounding.
- Advertisement prices. `parseFloat(ad.adv.price)` is assumed to give a
  positive number, so a price is the type `Price`, a positive real. A price
  string that is not a number (NaN in the source) is not modelled.
- Body.AmountText: `Number.prototype.toString` is the abstract field
  `numberText`. The model states only that its text is never empty.
- JsNumber.ParseAmount: `parseFloat(s) || 0` is modelled only on strings of
  digits, dots and commas, which is all that reaches it. Its contract states
  only that the amount is never negative. Reading whole numbers back is
  proved in `ParseNatText`. Exponents, signs,
  whitespace and `Infinity` are not modelled.
- Body.SwapCurrencies and the other Body members that convert: `body.ts`
  calls `convertBobToUsdt`, `convertUsdtToBob` and `exchangeRates$` on the
  service. The service class in `binance-service.ts` does not define them.
  They are abstract function fields of `Body`, and a rate push is a call of
  `OnRatesPushed`.
- Body.OnUsdtInput, Body.OnBobInput: their contracts give the field text as
  `ProcessInputValue(value)`. Its shape (digits and at most one dot) is
  proved separately in `ProcessInputValueShape`.
- Binance.BobToUsdt, Binance.UsdtToBob: their contracts do not give the
  amount. Exactness is proved in `ConversionsExact`.
- The DOM is left out:
  - rewriting `event.target.value` and the cursor position in `processInputValue`;
  - `preventDefault`;
  - reading the clipboard.

  The event's text is a string parameter. The test
  `classList.contains('usdt-input')` is the boolean `targetIsUsdt`.
- Keys whose `event.key` is longer than one character and not a control key
  (for example "F1") are modelled by the string comparison but get no lemma.
  Characters outside the Basic Multilingual Plane are not modelled.
- Lifecycle and timers are not modelled: `ngOnInit` (it only calls
  `LoadCurrentRates` or subscribes), `ngOnDestroy`, and the `setTimeout` in
  the converter's `refreshRates`. The same goes for the body's `refreshRates`,
  which calls a service method that is not defined.
- Logging and template helpers are not modelled: `testConversion`,
  `getCurrentUsdtRate` and `formatCurrency`. They only log or format
  floating point.
- Binance.TopAdvertisements, Binance.BinanceService.GetCurrentRates,
  Binance.BinanceService.UpdateRates, Binance.BinanceService.ConvertBOBtoUSDT,
  Binance.BinanceService.ConvertUSDTtoBOB, Converter.ConverterComponent.LoadCurrentRates,
  Converter.ConverterComponent.OnBOBChange, Converter.ConverterComponent.OnUSDTChange
  and Converter.ConverterComponent.SwapValues use the corrected fetch
  (`FetchedAds`). As written, a failed request makes each `forkJoin` emit
  nothing (see "## Findings"). Then `getTopAdvertisements` yields no lists,
  and the cache, the update time, the amounts, `currentRate` and the
  component's prices all stay as they were. The model instead yields the
  fallback record and the empty list for the failed side.
- `loading` is set to false in the error callbacks of `onBOBChange` and
  `onUSDTChange`. The service with a corrected fetch always emits, so those
  callbacks never run in the model.
- The application shell (`app.ts`, routing and the templates) is not part of
  this model.

## Findings

| source | as written | input that shows it | evidently intended | confidence | as-written member | corrected member |
|---|---|---|---|---|---|---|
| src/app/services/binance-service.ts:79-85 | `catchError(() => [])` returns an empty array, which RxJS reads as a stream with no elements, so the `forkJoin` in `getCurrentRates` (and the ones behind `convertBOBtoUSDT`, `convertUSDTtoBOB`, `updateRates` and `getTopAdvertisements`) completes without emitting: no record, no cache write, and no conversion | a transport error on the BUY request while the SELL request is delivered: no rate record, no cache write, and no fallback price 7.0 | a failed request yields the empty advertisement list (`of([])`), so the fallback price applies and a record is emitted | not executed | Binance.RatesAsWrittenDropsFallback | Binance.FetchedAds |
