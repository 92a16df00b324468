/**
 * The page body's two linked input fields (USDT and BOB): the text each field
 * keeps as the user types or pastes, the keys it lets through, and the amounts,
 * display strings and focus/editing flags its event handlers update.
 */
module BodyComponent {
  import opened Wrappers
  import opened Text
  import opened JsNumber

  /** The rate record pushed to the body: the fields it reads. */
  datatype ExchangeRates = ExchangeRates(usdtToUsd: real, lastUpdated: int)

  // ----- typed input --------------------------------------------------------

  /** The first two steps of `processInputValue`: keep `[0-9.,]`, then every comma becomes a dot. */
  function NormalizedInput(value: string): (v: string)
    ensures |v| <= |value|
    ensures forall x :: x in v ==> IsDigit(x) || x == '.'
  {
    var kept := KeepNumeric(value);
    var v := ReplaceAll(kept, ',', '.');
    assert forall i :: 0 <= i < |kept| ==> kept[i] in kept;
    v
  }

  /**
   * `processInputValue`: the text a field keeps after a keystroke. Several dots
   * are collapsed into the first one; the fraction is cut to two characters,
   * but only when the split before the collapse had exactly two parts.
   */
  function ProcessInputValue(value: string): (r: string)
    ensures AllDigits(value) ==> r == value
  {
    var v := NormalizedInput(value);
    NormalizedDigits(value);
    var parts := Split(v, '.');
    var collapsed := if |parts| > 2 then parts[0] + "." + Concat(parts[1..]) else v;
    if |parts| == 2 && |parts[1]| > 2 then parts[0] + "." + parts[1][..2] else collapsed
  }

  /** Normalizing a text of digits changes nothing. */
  lemma NormalizedDigits(value: string)
    ensures AllDigits(value) ==> NormalizedInput(value) == value && '.' !in value
  {
    if AllDigits(value) {
      assert forall i :: 0 <= i < |value| ==> IsNumericChar(value[i]);
      assert ',' !in value && '.' !in value;
    }
  }

  /**
   * What `processInputValue` does, stated on the normalized text `v` and the
   * position `k` of its first dot: no dot leaves `v` as it is; one dot keeps at
   * most two characters after it; several dots keep the first and delete the
   * others, keeping the whole fraction.
   */
  lemma ProcessInputValueCases(value: string)
    ensures var v := NormalizedInput(value);
      '.' !in v ==> ProcessInputValue(value) == v
    ensures var v := NormalizedInput(value);
      Count(v, '.') == 1 ==>
        ProcessInputValue(value) == v[..IndexOf(v, '.')] + "." + Take(v[IndexOf(v, '.') + 1..], 2)
    ensures var v := NormalizedInput(value);
      Count(v, '.') >= 2 ==>
        ProcessInputValue(value) == v[..IndexOf(v, '.')] + "." + RemoveAll(v[IndexOf(v, '.') + 1..], '.')
  {
    var v := NormalizedInput(value);
    if '.' in v {
      if Count(v, '.') == 1 {
        SplitOneDot(v);
      } else {
        SplitManyDots(v);
      }
    }
  }

  /** With one dot, the split is the text before it and the text after it, which holds no dot. */
  lemma SplitOneDot(v: string)
    requires Count(v, '.') == 1
    ensures '.' in v
    ensures var k := IndexOf(v, '.');
      && '.' !in v[k + 1..]
      && Split(v, '.') == [v[..k], v[k + 1..]]
      && v == v[..k] + "." + v[k + 1..]
  {
    var k := IndexOf(v, '.');
    var head, tail := v[..k], v[k + 1..];
    assert '.' !in tail by { CountAt(v, k, '.'); }
    assert Split(v, '.') == [head] + [tail] by {
      SplitFirst(v, '.');
      SplitNone(tail, '.');
    }
    AroundIndex(v, k);
  }

  /**
   * With several dots, the split has more than two pieces: the text before the
   * first dot, and pieces that concatenate to the rest with its dots deleted.
   */
  lemma SplitManyDots(v: string)
    requires Count(v, '.') >= 2
    ensures '.' in v
    ensures var parts := Split(v, '.');
      var k := IndexOf(v, '.');
      |parts| > 2 && parts[0] == v[..k] && Concat(parts[1..]) == RemoveAll(v[k + 1..], '.')
  {
    SplitFirst(v, '.');
    SplitRest(v, '.');
  }

  /** A field's text after a keystroke holds only digits and at most one dot. */
  lemma ProcessInputValueShape(value: string)
    ensures forall x :: x in ProcessInputValue(value) ==> IsDigit(x) || x == '.'
    ensures Count(ProcessInputValue(value), '.') <= 1
  {
    var v := NormalizedInput(value);
    var r := ProcessInputValue(value);
    ProcessInputValueCases(value);
    if '.' in v {
      var k := IndexOf(v, '.');
      var head, after := v[..k], v[k + 1..];
      CountAt(v, k, '.');
      var tail := if Count(v, '.') == 1 then Take(after, 2) else RemoveAll(after, '.');
      RemoveAllWithin(after, '.');
      assert r == head + "." + tail;
      assert '.' !in tail;
      assert forall x :: x in head ==> x in v;
      assert forall x :: x in after ==> x in v;
      assert forall x :: x in tail ==> x in after;
      CountAppend(head + ".", tail, '.');
      CountAppend(head, ".", '.');
    }
  }

  /** The amount a field holds after a keystroke: its processed text read as a number. */
  function InputAmount(value: string): (amount: real)
    ensures amount >= 0.0
  {
    ProcessInputValueShape(value);
    ParseAmount(ProcessInputValue(value))
  }

  /** With several dots the fraction is not cut: "1.2.345" keeps four decimals. */
  lemma ProcessInputValueKeepsLongFraction(value: string)
    requires value == "1.2.345"
    ensures ProcessInputValue(value) == "1.2345"
  {
    var v := NormalizedInput(value);
    SampleNormalized(value);
    SampleDots(v);
    ProcessInputValueCases(value);
    SampleResult(v);
  }

  lemma SampleResult(v: string)
    requires v == "1.2.345"
    ensures v[..1] + "." + RemoveAll(v[2..], '.') == "1.2345"
  {
    SampleRemoveDots(v[2..]);
  }

  lemma SampleNormalized(v: string)
    requires v == "1.2.345"
    ensures NormalizedInput(v) == v
  {
    assert forall i :: 0 <= i < |v| ==> IsNumericChar(v[i]);
    assert KeepNumeric(v) == v;
  }

  lemma SampleDots(v: string)
    requires v == "1.2.345"
    ensures IndexOf(v, '.') == 1
    ensures Count(v, '.') >= 2
  {
    CountAt(v, 1, '.');
    CountAt(v[2..], 1, '.');
  }

  lemma SampleRemoveDots(s: string)
    requires s == "2.345"
    ensures RemoveAll(s, '.') == "2345"
  {
    assert s[1..] == ".345";
    assert RemoveAll(".345", '.') == "345";
  }

  // ----- pasted text --------------------------------------------------------

  /** The first two steps of `onPaste`: keep `[0-9.,]`, then only the first comma becomes a dot. */
  function NormalizedPaste(paste: string): (v: string)
    ensures |v| <= |paste|
    ensures ',' in KeepNumeric(paste) ==> '.' in v
    ensures ',' !in KeepNumeric(paste) ==> v == KeepNumeric(paste)
  {
    ReplaceFirst(KeepNumeric(paste), ',', '.')
  }

  /**
   * The text `onPaste` writes into the field: several dots are collapsed into
   * the first one and the fraction is cut to two characters in both cases.
   */
  function SanitizePaste(paste: string): (r: string)
    ensures '.' !in NormalizedPaste(paste) ==> r == NormalizedPaste(paste)
  {
    var v := NormalizedPaste(paste);
    var parts := Split(v, '.');
    if |parts| > 2 then parts[0] + "." + Take(Concat(parts[1..]), 2)
    else if |parts| == 2 && |parts[1]| > 2 then parts[0] + "." + parts[1][..2]
    else v
  }

  /**
   * The normalized paste keeps `[0-9.,]` only, and what stands before its
   * first dot (all of it when there is none) is digits only: the first comma
   * became a dot, so any comma left comes after the first dot.
   */
  lemma NormalizedPasteHead(paste: string)
    ensures forall x :: x in NormalizedPaste(paste) ==> IsNumericChar(x)
    ensures var v := NormalizedPaste(paste);
      AllDigits(if '.' in v then v[..IndexOf(v, '.')] else v)
  {
    var kept := KeepNumeric(paste);
    var v := NormalizedPaste(paste);
    assert forall i :: 0 <= i < |kept| ==> kept[i] in kept;
    if '.' in v {
      var k := IndexOf(v, '.');
      var head := v[..k];
      if ',' in kept {
        var j := IndexOf(kept, ',');
        assert v[j] == '.';
        assert k <= j;
        forall i | 0 <= i < |head| ensures IsDigit(head[i]) {
          assert head[i] == kept[i] && kept[i] in kept[..j];
          assert head[i] in v[..k];
        }
      } else {
        forall i | 0 <= i < |head| ensures IsDigit(head[i]) {
          assert head[i] in v[..k];
        }
      }
    }
  }

  /**
   * `onPaste` as one shape: no dot leaves the normalized paste as it is;
   * otherwise the text is what precedes the first dot, one dot, and at most two
   * of the characters after it with the other dots deleted.
   */
  lemma SanitizePasteCases(paste: string)
    ensures var v := NormalizedPaste(paste);
      '.' !in v ==> SanitizePaste(paste) == v
    ensures var v := NormalizedPaste(paste);
      '.' in v ==>
        SanitizePaste(paste) == v[..IndexOf(v, '.')] + "." + Take(RemoveAll(v[IndexOf(v, '.') + 1..], '.'), 2)
  {
    var v := NormalizedPaste(paste);
    if '.' in v {
      if Count(v, '.') == 1 {
        SplitOneDot(v);
        RemoveAllAbsent(v[IndexOf(v, '.') + 1..], '.');
      } else {
        SplitManyDots(v);
      }
    }
  }

  /**
   * The pasted text keeps `[0-9.,]`, holds at most one dot with at most two
   * characters after it, and has only digits before the dot.
   */
  lemma SanitizePasteShape(paste: string)
    ensures forall x :: x in SanitizePaste(paste) ==> IsNumericChar(x)
    ensures Count(SanitizePaste(paste), '.') <= 1
    ensures var r := SanitizePaste(paste);
      '.' in r ==> |r| - IndexOf(r, '.') - 1 <= 2
    ensures var r := SanitizePaste(paste);
      AllDigits(if '.' in r then r[..IndexOf(r, '.')] else r)
  {
    var v := NormalizedPaste(paste);
    NormalizedPasteHead(paste);
    SanitizePasteCases(paste);
    if '.' in v {
      var k := IndexOf(v, '.');
      var head, after := v[..k], v[k + 1..];
      var tail := Take(RemoveAll(after, '.'), 2);
      RemoveAllWithin(after, '.');
      assert forall x :: x in after ==> x in v;
      assert forall x :: x in tail ==> x in after;
      assert forall x :: x in head ==> x in v;
      JoinedOnce(head, '.', tail);
    }
  }

  /** Only the first comma is converted: pasting "1,5,3" leaves "1.5,". */
  lemma SanitizePasteKeepsLaterComma(paste: string)
    requires paste == "1,5,3"
    ensures SanitizePaste(paste) == "1.5,"
  {
    SamplePasteNormalized(paste);
    var v := NormalizedPaste(paste);
    SanitizePasteCases(paste);
    SamplePasteDot(v);
    SamplePasteResult(v);
  }

  lemma SamplePasteResult(v: string)
    requires v == "1.5,3"
    ensures v[..1] + "." + Take(RemoveAll(v[2..], '.'), 2) == "1.5,"
  {
    SamplePasteDot(v);
    RemoveAllAbsent(v[2..], '.');
    assert Take("5,3", 2) == "5,";
  }

  lemma SamplePasteNormalized(paste: string)
    requires paste == "1,5,3"
    ensures NormalizedPaste(paste) == "1.5,3"
  {
    assert KeepNumeric(paste) == paste by { assert forall i :: 0 <= i < |paste| ==> IsNumericChar(paste[i]); }
    assert IndexOf(paste, ',') == 1 by { assert paste[0] != ',' && paste[1..][0] == ','; }
    assert paste[..1] + "." + paste[2..] == "1.5,3";
  }

  lemma SamplePasteDot(v: string)
    requires v == "1.5,3"
    ensures '.' in v && IndexOf(v, '.') == 1
    ensures v[..1] == "1" && v[2..] == "5,3" && '.' !in v[2..]
  {
    assert v[1] == '.' && '.' !in v[..1];
  }

  // ----- key filter ---------------------------------------------------------

  /** The keys `onKeyPress` always lets through. */
  const ControlKeys: seq<string> :=
    ["Backspace", "Delete", "Tab", "Escape", "Enter", "ArrowLeft", "ArrowRight", "ArrowUp", "ArrowDown"]

  /** `key >= '0' && key <= '9'`, compared as JavaScript strings. */
  predicate IsDigitKey(key: string)
  {
    !LexLess(key, "0") && !LexLess("9", key)
  }

  /**
   * `onKeyPress`: true lets the key through; false is the case where the
   * handler also calls `preventDefault`.
   */
  function OnKeyPress(key: string, currentValue: string): (allowed: bool)
    ensures key in ControlKeys ==> allowed
    ensures key == "." || key == "," ==> (allowed <==> '.' !in currentValue && ',' !in currentValue)
  {
    if key in ControlKeys then true
    else if IsDigitKey(key) then true
    else if (key == "." || key == ",") && '.' !in currentValue && ',' !in currentValue then true
    else false
  }

  /**
   * For a key that types one character: digits pass, a dot or a comma passes
   * only when the field holds neither yet, and every other character is blocked.
   */
  lemma OnKeyPressSingleChar(key: string, currentValue: string)
    requires |key| == 1
    ensures OnKeyPress(key, currentValue) <==>
              IsDigit(key[0]) || ((key[0] == '.' || key[0] == ',') && '.' !in currentValue && ',' !in currentValue)
  {
    assert forall i :: 0 <= i < |ControlKeys| ==> |ControlKeys[i]| > 1;
    assert key !in ControlKeys;
    assert key == [key[0]];
    if IsDigit(key[0]) {
      assert !LexLess(key, "0") && !LexLess("9", key);
    } else if key[0] < '0' {
      assert LexLess(key, "0");
    } else {
      assert LexLess("9", key);
    }
  }

  /** Dots plus commas in a field's text. */
  function Separators(s: string): nat { Count(s, '.') + Count(s, ',') }

  /**
   * Typing only keys that `onKeyPress` lets through never gives a field a
   * second separator, wherever the character is inserted.
   */
  lemma OnKeyPressKeepsOneSeparator(key: string, currentValue: string, at: nat)
    requires |key| == 1 && at <= |currentValue|
    requires Separators(currentValue) <= 1
    requires OnKeyPress(key, currentValue)
    ensures Separators(currentValue[..at] + key + currentValue[at..]) <= 1
  {
    OnKeyPressSingleChar(key, currentValue);
    var before, after := currentValue[..at], currentValue[at..];
    assert currentValue == before + after;
    CountAppend(before, after, '.');
    CountAppend(before, after, ',');
    CountAppend(before + key, after, '.');
    CountAppend(before + key, after, ',');
    CountAppend(before, key, '.');
    CountAppend(before, key, ',');
    assert key == [key[0]];
  }

  // ----- last update --------------------------------------------------------

  /** `Math.floor(x / n)`: for a positive `n`, integer division rounding down. */
  function FloorQuotient(x: int, n: int): (q: int)
    requires n > 0
    ensures q == x / n
    ensures q * n <= x < q * n + n
  {
    var q, r := x / n, x % n;
    assert x == q * n + r && 0 <= r < n;
    assert x as real / n as real == q as real + r as real / n as real;
    assert 0.0 <= r as real / n as real < 1.0;
    (x as real / n as real).Floor
  }

  /**
   * `getLastUpdated`: nothing before the first rates arrive, then the whole
   * seconds since the rates' timestamp (both in ms), shown in seconds under a
   * minute, in whole minutes under an hour, in whole hours beyond.
   */
  function GetLastUpdated(exchangeRates: Option<ExchangeRates>, now: int): (text: string)
    ensures text == "" <==> exchangeRates.None?
  {
    if exchangeRates.None? then ""
    else AgoText(ElapsedSeconds(exchangeRates.value, now))
  }

  /** The label for `diff` whole seconds: seconds, minutes or hours, never empty. */
  function AgoText(diff: int): (text: string)
    ensures text != ""
  {
    if diff < 60 then IntText(diff) + "s ago"
    else if diff < 3600 then IntText(FloorQuotient(diff, 60)) + "m ago"
    else IntText(FloorQuotient(diff, 3600)) + "h ago"
  }

  /** `Math.floor((now - lastUpdated) / 1000)`: whole seconds elapsed since the rates were updated. */
  function ElapsedSeconds(rates: ExchangeRates, now: int): (seconds: int)
    ensures seconds * 1000 <= now - rates.lastUpdated < seconds * 1000 + 1000
  {
    FloorQuotient(now - rates.lastUpdated, 1000)
  }

  /** Under a minute: the whole seconds (negative when the clock is behind the update). */
  lemma LastUpdatedSeconds(rates: ExchangeRates, now: int)
    requires ElapsedSeconds(rates, now) < 60
    ensures GetLastUpdated(Some(rates), now) == IntText(ElapsedSeconds(rates, now)) + "s ago"
  {
  }

  /** Under an hour: the whole minutes, from 1 to 59. */
  lemma LastUpdatedMinutes(rates: ExchangeRates, now: int)
    requires 60 <= ElapsedSeconds(rates, now) < 3600
    ensures var m := ElapsedSeconds(rates, now) / 60;
      1 <= m < 60 && GetLastUpdated(Some(rates), now) == NatText(m) + "m ago"
  {
  }

  /** From an hour on: the whole hours. */
  lemma LastUpdatedHours(rates: ExchangeRates, now: int)
    requires 3600 <= ElapsedSeconds(rates, now)
    ensures var h := ElapsedSeconds(rates, now) / 3600;
      1 <= h && GetLastUpdated(Some(rates), now) == NatText(h) + "h ago"
  {
  }

  // ----- the component's fields and handlers --------------------------------

  /** The text of a number, as `Number.prototype.toString` gives it: never empty. */
  type NumberText = f: real -> string | forall x :: f(x) != "" witness (x: real) => "0"

  class Body {
    var usdtAmount: real
    var bolivianoAmount: real
    var exchangeRates: Option<ExchangeRates>
    var usdtDisplayValue: string
    var bobDisplayValue: string
    var isFocusedUsdt: bool
    var isFocusedBob: bool
    var editingUsdt: bool
    var editingBob: bool

    /** The service's `convertBobToUsdt`, which is not part of this model. */
    const convertBobToUsdt: (real, ExchangeRates) -> real
    /** The service's `convertUsdtToBob`, which is not part of this model. */
    const convertUsdtToBob: (real, ExchangeRates) -> real
    /** `Number.prototype.toString`. */
    const numberText: NumberText

    /** A focused field is always marked as being edited. */
    ghost predicate Valid()
      reads this`isFocusedUsdt, this`editingUsdt, this`isFocusedBob, this`editingBob
    {
      && (isFocusedUsdt ==> editingUsdt)
      && (isFocusedBob ==> editingBob)
    }

    /** How a field shows an amount: zero as the empty string. */
    function AmountText(amount: real): (text: string)
      ensures text == "" <==> amount == 0.0
    {
      if amount == 0.0 then "" else numberText(amount)
    }

    constructor (convertBobToUsdt: (real, ExchangeRates) -> real,
                 convertUsdtToBob: (real, ExchangeRates) -> real,
                 numberText: NumberText)
      ensures Valid()
      ensures this.convertBobToUsdt == convertBobToUsdt && this.convertUsdtToBob == convertUsdtToBob
      ensures this.numberText == numberText
      ensures usdtAmount == 0.0 && bolivianoAmount == 0.0 && exchangeRates == None
      ensures usdtDisplayValue == "" && bobDisplayValue == ""
      ensures !isFocusedUsdt && !isFocusedBob && !editingUsdt && !editingBob
    {
      this.convertBobToUsdt := convertBobToUsdt;
      this.convertUsdtToBob := convertUsdtToBob;
      this.numberText := numberText;
      usdtAmount, bolivianoAmount := 0.0, 0.0;
      exchangeRates := None;
      usdtDisplayValue, bobDisplayValue := "", "";
      isFocusedUsdt, isFocusedBob := false, false;
      editingUsdt, editingBob := false, false;
    }

    /** `updateDisplayValues`: both fields show their amounts, a zero amount as the empty string. */
    method UpdateDisplayValues()
      requires Valid()
      modifies this`usdtDisplayValue, this`bobDisplayValue
      ensures Valid()
      ensures usdtDisplayValue == AmountText(usdtAmount) && bobDisplayValue == AmountText(bolivianoAmount)
      ensures usdtDisplayValue == "" <==> usdtAmount == 0.0
      ensures bobDisplayValue == "" <==> bolivianoAmount == 0.0
    {
      usdtDisplayValue := AmountText(usdtAmount);
      bobDisplayValue := AmountText(bolivianoAmount);
    }

    /**
     * A rate push (the subscription set up in `ngOnInit`): the rates are stored,
     * and the displays refreshed only when neither field is being edited.
     */
    method OnRatesPushed(rates: ExchangeRates)
      requires Valid()
      modifies this`exchangeRates, this`usdtDisplayValue, this`bobDisplayValue
      ensures Valid()
      ensures exchangeRates == Some(rates)
      ensures !editingUsdt && !editingBob ==>
                usdtDisplayValue == AmountText(usdtAmount) && bobDisplayValue == AmountText(bolivianoAmount)
      ensures editingUsdt || editingBob ==>
                usdtDisplayValue == old(usdtDisplayValue) && bobDisplayValue == old(bobDisplayValue)
      ensures isFocusedUsdt || isFocusedBob ==>
                usdtDisplayValue == old(usdtDisplayValue) && bobDisplayValue == old(bobDisplayValue)
    {
      exchangeRates := Some(rates);
      if !editingUsdt && !editingBob {
        UpdateDisplayValues();
      }
    }

    /**
     * `swapCurrencies`: with rates, the USDT field takes the BOB amount
     * converted to USDT and the BOB field the USDT amount converted to BOB;
     * without rates nothing changes.
     */
    method SwapCurrencies()
      requires Valid()
      modifies this`usdtAmount, this`bolivianoAmount, this`usdtDisplayValue, this`bobDisplayValue
      ensures Valid()
      ensures exchangeRates.None? ==> unchanged(this)
      ensures exchangeRates.Some? ==>
                && usdtAmount == convertBobToUsdt(old(bolivianoAmount), exchangeRates.value)
                && bolivianoAmount == convertUsdtToBob(old(usdtAmount), exchangeRates.value)
                && usdtDisplayValue == AmountText(usdtAmount)
                && bobDisplayValue == AmountText(bolivianoAmount)
    {
      if exchangeRates.None? {
        return;
      }
      var tempUsdt := usdtAmount;
      usdtAmount := convertBobToUsdt(bolivianoAmount, exchangeRates.value);
      bolivianoAmount := convertUsdtToBob(tempUsdt, exchangeRates.value);
      UpdateDisplayValues();
    }

    /**
     * `onUsdtInput`, with `value` the field's text: the field keeps the
     * processed text and its amount; with rates, the BOB amount follows, and the
     * BOB display too unless that field has the focus.
     */
    method OnUsdtInput(value: string)
      requires Valid()
      modifies this`editingUsdt, this`usdtDisplayValue, this`usdtAmount, this`bolivianoAmount, this`bobDisplayValue
      ensures Valid()
      ensures editingUsdt
      ensures usdtDisplayValue == ProcessInputValue(value)
      ensures usdtAmount == InputAmount(value)
      ensures exchangeRates.Some? ==> bolivianoAmount == convertUsdtToBob(usdtAmount, exchangeRates.value)
      ensures exchangeRates.Some? && !isFocusedBob ==> bobDisplayValue == AmountText(bolivianoAmount)
      ensures exchangeRates.None? || isFocusedBob ==> bobDisplayValue == old(bobDisplayValue)
      ensures exchangeRates.None? ==> bolivianoAmount == old(bolivianoAmount)
    {
      var processed := ProcessInputValue(value);
      var amount := InputAmount(value);
      var other, otherText := bolivianoAmount, bobDisplayValue;
      if exchangeRates.Some? {
        other := convertUsdtToBob(amount, exchangeRates.value);
        if !isFocusedBob {
          otherText := AmountText(other);
        }
      }
      editingUsdt, usdtDisplayValue, usdtAmount := true, processed, amount;
      bolivianoAmount, bobDisplayValue := other, otherText;
    }

    /** `onUsdtFocus`: the field is focused and edited, and shows its amount unless it is empty at zero. */
    method OnUsdtFocus()
      requires Valid()
      modifies this`isFocusedUsdt, this`editingUsdt, this`usdtDisplayValue
      ensures Valid()
      ensures isFocusedUsdt && editingUsdt
      ensures old(usdtAmount == 0.0 && usdtDisplayValue == "") ==> usdtDisplayValue == ""
      ensures !old(usdtAmount == 0.0 && usdtDisplayValue == "") ==> usdtDisplayValue == numberText(usdtAmount)
    {
      isFocusedUsdt := true;
      editingUsdt := true;
      if usdtAmount == 0.0 && usdtDisplayValue == "" {
        usdtDisplayValue := "";
      } else {
        usdtDisplayValue := numberText(usdtAmount);
      }
    }

    /**
     * `onUsdtBlur`, with `value` the field's text: the field loses focus and
     * editing; an empty or "0" text clears both fields.
     */
    method OnUsdtBlur(value: string)
      requires Valid()
      modifies this`isFocusedUsdt, this`editingUsdt, this`usdtAmount, this`usdtDisplayValue,
               this`bolivianoAmount, this`bobDisplayValue
      ensures Valid()
      ensures !isFocusedUsdt && !editingUsdt
      ensures value == "" || value == "0" ==>
                usdtAmount == 0.0 && bolivianoAmount == 0.0 && usdtDisplayValue == "" && bobDisplayValue == ""
      ensures value != "" && value != "0" ==>
                && usdtAmount == old(usdtAmount) && bolivianoAmount == old(bolivianoAmount)
                && usdtDisplayValue == old(usdtDisplayValue) && bobDisplayValue == old(bobDisplayValue)
    {
      isFocusedUsdt := false;
      editingUsdt := false;
      if value == "" || value == "0" {
        usdtAmount := 0.0;
        usdtDisplayValue := "";
        bolivianoAmount := 0.0;
        bobDisplayValue := "";
        return;
      }
    }

    /**
     * `onBobInput`, with `value` the field's text: the field keeps the
     * processed text and its amount; with rates, the USDT amount follows, and
     * the USDT display too unless that field has the focus.
     */
    method OnBobInput(value: string)
      requires Valid()
      modifies this`editingBob, this`bobDisplayValue, this`bolivianoAmount, this`usdtAmount, this`usdtDisplayValue
      ensures Valid()
      ensures editingBob
      ensures bobDisplayValue == ProcessInputValue(value)
      ensures bolivianoAmount == InputAmount(value)
      ensures exchangeRates.Some? ==> usdtAmount == convertBobToUsdt(bolivianoAmount, exchangeRates.value)
      ensures exchangeRates.Some? && !isFocusedUsdt ==> usdtDisplayValue == AmountText(usdtAmount)
      ensures exchangeRates.None? || isFocusedUsdt ==> usdtDisplayValue == old(usdtDisplayValue)
      ensures exchangeRates.None? ==> usdtAmount == old(usdtAmount)
    {
      var processed := ProcessInputValue(value);
      var amount := InputAmount(value);
      var other, otherText := usdtAmount, usdtDisplayValue;
      if exchangeRates.Some? {
        other := convertBobToUsdt(amount, exchangeRates.value);
        if !isFocusedUsdt {
          otherText := AmountText(other);
        }
      }
      editingBob, bobDisplayValue, bolivianoAmount := true, processed, amount;
      usdtAmount, usdtDisplayValue := other, otherText;
    }

    /** `onBobFocus`: the field is focused and edited, and shows its amount unless it is empty at zero. */
    method OnBobFocus()
      requires Valid()
      modifies this`isFocusedBob, this`editingBob, this`bobDisplayValue
      ensures Valid()
      ensures isFocusedBob && editingBob
      ensures old(bolivianoAmount == 0.0 && bobDisplayValue == "") ==> bobDisplayValue == ""
      ensures !old(bolivianoAmount == 0.0 && bobDisplayValue == "") ==> bobDisplayValue == numberText(bolivianoAmount)
    {
      isFocusedBob := true;
      editingBob := true;
      if bolivianoAmount == 0.0 && bobDisplayValue == "" {
        bobDisplayValue := "";
      } else {
        bobDisplayValue := numberText(bolivianoAmount);
      }
    }

    /**
     * `onBobBlur`, with `value` the field's text: the field loses focus and
     * editing; an empty or "0" text clears both fields.
     */
    method OnBobBlur(value: string)
      requires Valid()
      modifies this`isFocusedBob, this`editingBob, this`bolivianoAmount, this`bobDisplayValue,
               this`usdtAmount, this`usdtDisplayValue
      ensures Valid()
      ensures !isFocusedBob && !editingBob
      ensures value == "" || value == "0" ==>
                bolivianoAmount == 0.0 && usdtAmount == 0.0 && bobDisplayValue == "" && usdtDisplayValue == ""
      ensures value != "" && value != "0" ==>
                && usdtAmount == old(usdtAmount) && bolivianoAmount == old(bolivianoAmount)
                && usdtDisplayValue == old(usdtDisplayValue) && bobDisplayValue == old(bobDisplayValue)
    {
      isFocusedBob := false;
      editingBob := false;
      if value == "" || value == "0" {
        bolivianoAmount := 0.0;
        bobDisplayValue := "";
        usdtAmount := 0.0;
        usdtDisplayValue := "";
        return;
      }
    }

    /**
     * `onPaste`: the sanitized paste becomes the target field's text (the
     * returned value) and amount, and with rates the other amount follows; the
     * display strings are left as they were.
     */
    method OnPaste(paste: string, targetIsUsdt: bool) returns (inputValue: string)
      requires Valid()
      modifies this`usdtAmount, this`bolivianoAmount
      ensures Valid()
      ensures inputValue == SanitizePaste(paste)
      ensures forall x :: x in inputValue ==> IsNumericChar(x)
      ensures Count(inputValue, '.') <= 1
      ensures targetIsUsdt ==> usdtAmount == ParseAmount(inputValue)
      ensures targetIsUsdt && exchangeRates.Some? ==>
                bolivianoAmount == convertUsdtToBob(usdtAmount, exchangeRates.value)
      ensures targetIsUsdt && exchangeRates.None? ==> bolivianoAmount == old(bolivianoAmount)
      ensures !targetIsUsdt ==> bolivianoAmount == ParseAmount(inputValue)
      ensures !targetIsUsdt && exchangeRates.Some? ==>
                usdtAmount == convertBobToUsdt(bolivianoAmount, exchangeRates.value)
      ensures !targetIsUsdt && exchangeRates.None? ==> usdtAmount == old(usdtAmount)
    {
      inputValue := SanitizePaste(paste);
      SanitizePasteShape(paste);
      var amount := ParseAmount(inputValue);
      if targetIsUsdt {
        usdtAmount := amount;
        if exchangeRates.Some? {
          bolivianoAmount := convertUsdtToBob(amount, exchangeRates.value);
        }
      } else {
        bolivianoAmount := amount;
        if exchangeRates.Some? {
          usdtAmount := convertBobToUsdt(amount, exchangeRates.value);
        }
      }
    }
  }
}
