/**
 * The conversion controller: the `CurrencyConverter` class of script.js with
 * `convertCurrency`, `loadDefaultRates`, `swapCurrencies`, the debounced
 * amount listener and the display updates `showLoading`, `showError`,
 * `hideError` and `updateDisplay`.
 *
 * The display is abstract: the amount line and the date line are kinds with
 * the numbers and codes they would format, not formatted strings. The amount
 * field holds its parsed value (`parseFloat` of its text), `None` standing
 * for NaN; amounts and rates are exact reals.
 */
module Conversion {
  import opened Wrappers
  import opened RateCache
  import Debounce

  const InvalidAmountMessage: string := "Please enter a valid amount greater than 0"
  const RateUnavailableMessage: string := "Exchange rate not available for selected currencies"
  const InitialLoadFailedMessage: string := "Failed to load initial exchange rates"

  /**
   * The message of the TypeError thrown by `rates[to]` when the cached table
   * is `undefined` (a body without `rates`), in the wording of V8.
   */
  function UndefinedRatesMessage(to: string): string
  {
    "Cannot read properties of undefined (reading '" + to + "')"
  }

  /** What the `.result-amount` element shows. */
  datatype AmountLine =
    | AmountMarkup(text: string)   // the page's own content, before the script writes it
    | Converting
    | ConversionFailed
    | Converted(original: real, from: string, converted: real, to: string)

  /** What the `.result-date` element shows. */
  datatype DateLine =
    | DateMarkup(text: string)     // the page's own content, before the script writes it
    | PleaseWait
    | SeeErrorBelow
    | LastUpdated(time: int)
    | RatesLoading

  /** The whole display: the two result lines, the error text and whether the error panel shows. */
  datatype Screen = Screen(amountLine: AmountLine, dateLine: DateLine, errorText: string, errorVisible: bool)

  /** `showLoading`: both result lines switch to the in-progress texts. */
  function Loading(v: Screen): Screen
  {
    v.(amountLine := Converting, dateLine := PleaseWait)
  }

  /** `showError(message)`: the message replaces the error text, the panel shows, the result reads as failed. */
  function WithError(message: string): Screen
  {
    Screen(ConversionFailed, SeeErrorBelow, message, true)
  }

  /** `hideError`: the panel is hidden; its text stays. */
  function WithoutError(v: Screen): Screen
  {
    v.(errorVisible := false)
  }

  /** The date line `updateDisplay` writes from the shared last-update time. */
  function DateLineFor(lastUpdate: Option<int>): DateLine
  {
    if lastUpdate.Some? then LastUpdated(lastUpdate.value) else RatesLoading
  }

  /** `updateDisplay(original, from, to, converted)`, read against the current last-update time. */
  function WithResult(v: Screen, lastUpdate: Option<int>, original: real, from: string, to: string,
                      converted: real): Screen
  {
    v.(amountLine := Converted(original, from, converted, to), dateLine := DateLineFor(lastUpdate))
  }

  /** The validation test: `isNaN(amount) || amount <= 0` rejects. */
  predicate ValidAmount(amount: Option<real>)
  {
    amount.Some? && amount.value > 0.0
  }

  /** `rates[to]` with JavaScript truthiness: a missing code and a zero rate both count as unavailable. */
  function RateOf(table: RateTable, to: string): Option<real>
  {
    if to in table && table[to] != 0.0 then Some(table[to]) else None
  }

  /** The display and cache after one conversion, whether it issued a request, and whether it showed the loading state. */
  datatype Step = Step(screen: Screen, store: Store, fetched: bool, loadingShown: bool)

  /**
   * One run of `convertCurrency` from display `v` and cache state `s`, with
   * `net` the network's answer should a request be issued.
   */
  function Convert(v: Screen, s: Store, amount: Option<real>, from: string, to: string, now: int,
                   net: NetResult): (r: Step)
    // An amount that is NaN or not above 0: the validation error, nothing else happens.
    ensures !(amount.Some? && amount.value > 0.0) ==>
      r == Step(Screen(ConversionFailed, SeeErrorBelow, "Please enter a valid amount greater than 0", true),
                s, false, false)
    // Same currency: the amount is shown as its own conversion, with no request,
    // no loading state and the error panel left as it was.
    ensures ValidAmount(amount) && from == to ==>
      r.screen == Screen(Converted(amount.value, from, amount.value, to), DateLineFor(s.lastUpdate),
                         v.errorText, v.errorVisible) &&
      r.store == s && !r.fetched && !r.loadingShown
    // Otherwise the loading state is shown and the cache decides whether a request goes out.
    ensures ValidAmount(amount) && from != to ==>
      r.loadingShown &&
      r.store == Fetch(s, from, now, net).store &&
      r.fetched == Fetch(s, from, now, net).fetched
    // What the answer of the cache or the network leads to.
    ensures ValidAmount(amount) && from != to ==>
      match Fetch(s, from, now, net).result
      case Err(_) =>
        r.screen == Screen(ConversionFailed, SeeErrorBelow,
                           "Failed to fetch exchange rates. Please check your internet connection.", true)
      case Ok(None) =>
        r.screen == Screen(ConversionFailed, SeeErrorBelow, UndefinedRatesMessage(to), true)
      case Ok(Some(table)) =>
        // A missing code and a zero rate give "not available"; any other rate
        // gives amount times rate, the date line of the new last-update time,
        // and a hidden error panel.
        if to !in table || table[to] == 0.0 then
          r.screen == Screen(ConversionFailed, SeeErrorBelow, "Exchange rate not available for selected currencies", true)
        else
          r.screen == Screen(Converted(amount.value, from, amount.value * table[to], to),
                             DateLineFor(r.store.lastUpdate), v.errorText, false)
    // The result never stays on the in-progress texts.
    ensures r.screen.amountLine != Converting && r.screen.dateLine != PleaseWait
    // A result is shown exactly when the amount is valid and either the
    // currencies agree or a table with a usable rate came back; otherwise the
    // error panel shows.
    ensures r.screen.amountLine.Converted? <==>
      ValidAmount(amount) &&
      (from == to || (var res := Fetch(s, from, now, net).result;
                      res.Ok? && res.value.Some? && RateOf(res.value.value, to).Some?))
    ensures !r.screen.amountLine.Converted? ==> r.screen.errorVisible
  {
    if !ValidAmount(amount) then
      Step(WithError(InvalidAmountMessage), s, false, false)
    else if from == to then
      Step(WithResult(v, s.lastUpdate, amount.value, from, to, amount.value), s, false, false)
    else
      var f := Fetch(s, from, now, net);
      var waiting := Loading(v);
      var shown := match f.result
        case Err(message) => WithError(message)
        case Ok(None) => WithError(UndefinedRatesMessage(to))
        case Ok(Some(table)) =>
          match RateOf(table, to)
          case None => WithError(RateUnavailableMessage)
          case Some(rate) =>
            WithoutError(WithResult(waiting, f.store.lastUpdate, amount.value, from, to, amount.value * rate));
      assert f.result.Ok? && f.result.value.Some? && RateOf(f.result.value.value, to).Some? ==>
        shown.amountLine == Converted(amount.value, from, amount.value * f.result.value.value[to], to);

      Step(shown, f.store, f.fetched, true)
  }

  /**
   * Converting there and back with reciprocal rates gives the amount back:
   * `a` from X to Y at rate `q`, then the result from Y to X at rate `1/q`,
   * whether each table comes from the cache or from the network.
   */
  lemma RoundTrip(v: Screen, s: Store, a: real, x: string, y: string, now: int, net: NetResult,
                  table: RateTable, q: real, s2: Store, later: int, table2: RateTable, net2: NetResult)
    requires a > 0.0 && x != y && q > 0.0
    requires Fetch(s, x, now, net).result == Ok(Some(table)) && y in table && table[y] == q
    requires Fetch(s2, y, later, net2).result == Ok(Some(table2)) && x in table2 && table2[x] == 1.0 / q
    ensures var there := Convert(v, s, Some(a), x, y, now, net);
      there.screen.amountLine.Converted? &&
      var b := there.screen.amountLine.converted;
      var back := Convert(there.screen, s2, Some(b), y, x, later, net2);
      back.screen.amountLine.Converted? && back.screen.amountLine.converted == a
  {
    var b := a * q;
    assert b > 0.0;
    assert b * (1.0 / q) == a;
  }

  /**
   * A second conversion from the same base within five minutes of the
   * arrival of a refreshing one's response issues no request and, for the
   * same pair and amount, shows the same result whatever the network would
   * answer.
   */
  lemma RepeatWithinCacheDuration(v: Screen, s: Store, amount: Option<real>, from: string, to: string,
                                  t0: int, rates: Option<RateTable>, at: int, t1: int, net: NetResult)
    requires ValidAmount(amount) && from != to
    requires !IsFresh(s.cache, from, t0)
    requires t1 - at < CacheDuration
    ensures var first := Convert(v, s, amount, from, to, t0, Delivered(rates, at));
      var second := Convert(first.screen, first.store, amount, from, to, t1, net);
      first.fetched && !second.fetched && second.store == first.store &&
      second.screen.amountLine == first.screen.amountLine
  {
    SecondCallServedFromCache(s, from, t0, rates, at, t1, net);
  }

  /**
   * The same-currency path does not hide the error panel: after a rejected
   * amount, a valid same-currency conversion shows its result while the
   * validation message stays visible beneath it.
   */
  lemma SameCurrencyKeepsEarlierError(v: Screen, s: Store, bad: Option<real>, a: real, code: string,
                                      now: int, net: NetResult, later: int, net2: NetResult)
    requires !ValidAmount(bad) && a > 0.0
    ensures var rejected := Convert(v, s, bad, code, code, now, net);
      var after := Convert(rejected.screen, rejected.store, Some(a), code, code, later, net2);
      after.screen.amountLine == Converted(a, code, a, code) &&
      after.screen.errorVisible && after.screen.errorText == InvalidAmountMessage
  {
  }

  /**
   * One run of `loadDefaultRates` from display `v` and cache state `s`: the
   * USD table is requested through the cache, and the fixed placeholder
   * "1 USD = 0.85 EUR" is shown whenever the call does not throw.
   */
  function LoadDefault(v: Screen, s: Store, now: int, net: NetResult): (r: Step)
    ensures r.store == Fetch(s, "USD", now, net).store && r.fetched == Fetch(s, "USD", now, net).fetched
    ensures !r.loadingShown
    // The placeholder appears exactly when a table (or a body without one) was obtained.
    ensures r.screen.amountLine == Converted(1.0, "USD", 0.85, "EUR") <==> Fetch(s, "USD", now, net).result.Ok?
    // On success the error panel is left as it was, and the date line follows the new last-update time.
    ensures Fetch(s, "USD", now, net).result.Ok? ==>
      r.screen.dateLine == DateLineFor(r.store.lastUpdate) &&
      r.screen.errorText == v.errorText && r.screen.errorVisible == v.errorVisible
    // A failed request shows the initial-load message, not the connectivity one.
    ensures !Fetch(s, "USD", now, net).result.Ok? ==>
      r.screen == Screen(ConversionFailed, SeeErrorBelow, "Failed to load initial exchange rates", true) &&
      r.store == s
  {
    var f := Fetch(s, "USD", now, net);
    var shown := if f.result.Ok? then WithResult(v, f.store.lastUpdate, 1.0, "USD", "EUR", 0.85)
                 else WithError(InitialLoadFailedMessage);
    Step(shown, f.store, f.fetched, false)
  }

  /**
   * The `CurrencyConverter` object: the display elements it writes, and the
   * amount field, selector values and timer handle it reads.
   */
  class Converter {
    /** The module-level cache and last-update time the converter shares. */
    const store: RateStore
    var amountLine: AmountLine
    var dateLine: DateLine
    var errorText: string
    var errorVisible: bool
    /** The parsed value of the amount field, `None` for NaN. */
    var amount: Option<real>
    /** The values of the `from` and `to` selectors. */
    var from: string
    var to: string
    /** The timer handle captured by the amount field's `input` listener. */
    var timeout: Debounce.Timer
    /** The page's amount before any edit, and the edits and ticks since. */
    ghost const initialAmount: Option<real>
    ghost var events: seq<Debounce.Event>

    function Display(): Screen
      reads this
    {
      Screen(amountLine, dateLine, errorText, errorVisible)
    }

    /** What the user controls and the debounce keeps: the inputs the display methods leave alone. */
    ghost function Inputs(): (Option<real>, string, string, Debounce.Timer, seq<Debounce.Event>)
      reads this
    {
      (amount, from, to, timeout, events)
    }

    /** The timer handle and the field's value are those the events since construction produce. */
    ghost predicate Debounced()
      reads this
    {
      timeout == Debounce.Run(events) && amount == Debounce.LastValue(events, initialAmount)
    }

    /**
     * A converter over the page's current display, amount and selector
     * values, with no pending timer; like the source's constructor it then
     * runs `loadDefaultRates`.
     */
    constructor (store: RateStore, page: Screen, amount: Option<real>, from: string, to: string,
                 now: int, net: NetResult)
      modifies store
      ensures this.store == store
      ensures var step := LoadDefault(page, old(store.State()), now, net);
        Display() == step.screen && store.State() == step.store
      ensures Inputs() == (amount, from, to, Debounce.Idle, []) && Debounced()
    {
      this.store := store;
      amountLine, dateLine := page.amountLine, page.dateLine;
      errorText, errorVisible := page.errorText, page.errorVisible;
      this.amount := amount;
      this.from, this.to := from, to;
      timeout := Debounce.Idle;
      initialAmount := amount;
      events := [];
      new;
      LoadDefaultRates(now, net);
    }

    method ShowLoading()
      modifies this
      ensures Display() == Loading(old(Display()))
      ensures Inputs() == old(Inputs())
    {
      amountLine := Converting;
      dateLine := PleaseWait;
    }

    method ShowError(message: string)
      modifies this
      ensures Display() == WithError(message)
      ensures Inputs() == old(Inputs())
    {
      errorText := message;
      errorVisible := true;
      amountLine := ConversionFailed;
      dateLine := SeeErrorBelow;
    }

    method HideError()
      modifies this
      ensures Display() == WithoutError(old(Display()))
      ensures Inputs() == old(Inputs())
    {
      errorVisible := false;
    }

    /** `updateDisplay`, reading the shared last-update time at the moment it runs. */
    method UpdateDisplay(original: real, from: string, to: string, converted: real)
      modifies this
      ensures Display() == WithResult(old(Display()), store.lastUpdateTime, original, from, to, converted)
      ensures Inputs() == old(Inputs())
    {
      amountLine := Converted(original, from, converted, to);
      dateLine := if store.lastUpdateTime.Some? then LastUpdated(store.lastUpdateTime.value) else RatesLoading;
    }

    /**
     * `convertCurrency`, reading the amount field and the selectors: the
     * display and the cache end as `Convert` says; the inputs are untouched.
     */
    method ConvertCurrency(now: int, net: NetResult) returns (fetched: bool, loadingShown: bool)
      modifies this, store
      ensures var step := Convert(old(Display()), old(store.State()), old(amount), old(from), old(to), now, net);
        Display() == step.screen && store.State() == step.store &&
        fetched == step.fetched && loadingShown == step.loadingShown
      ensures Inputs() == old(Inputs())
    {
      fetched, loadingShown := false, false;
      if amount.None? || amount.value <= 0.0 {
        ShowError(InvalidAmountMessage);
        return;
      }
      if from == to {
        UpdateDisplay(amount.value, from, to, amount.value);
        return;
      }
      ShowLoading();
      loadingShown := true;
      var rates;
      rates, fetched := store.FetchExchangeRates(from, now, net);
      match rates
      case Err(message) =>
        ShowError(message);
      case Ok(None) =>
        ShowError(UndefinedRatesMessage(to));
      case Ok(Some(table)) =>
        if to !in table || table[to] == 0.0 {
          ShowError(RateUnavailableMessage);
        } else {
          UpdateDisplay(amount.value, from, to, amount.value * table[to]);
          HideError();
        }
    }

    /**
     * `loadDefaultRates`: load the USD table; on success show the fixed
     * placeholder "1 USD = 0.85 EUR", otherwise the initial-load message.
     */
    method LoadDefaultRates(now: int, net: NetResult)
      modifies this, store
      ensures var step := LoadDefault(old(Display()), old(store.State()), now, net);
        Display() == step.screen && store.State() == step.store
      ensures Inputs() == old(Inputs())
    {
      var rates, fetched := store.FetchExchangeRates("USD", now, net);
      if rates.Ok? {
        UpdateDisplay(1.0, "USD", "EUR", 0.85);
      } else {
        ShowError(InitialLoadFailedMessage);
      }
    }

    /** `swapCurrencies`: exchange the two selector values, then convert. */
    method SwapCurrencies(now: int, net: NetResult) returns (fetched: bool)
      modifies this, store
      ensures from == old(to) && to == old(from)
      ensures amount == old(amount) && timeout == old(timeout) && events == old(events)
      ensures var step := Convert(old(Display()), old(store.State()), old(amount), old(to), old(from), now, net);
        Display() == step.screen && store.State() == step.store && fetched == step.fetched
    {
      var tempValue := from;
      from := to;
      to := tempValue;
      var loadingShown;
      fetched, loadingShown := ConvertCurrency(now, net);
    }

    /** The user picks `code` in the `from` selector, whose `change` listener then converts. */
    method ChangeFrom(code: string, now: int, net: NetResult) returns (fetched: bool)
      modifies this, store
      ensures from == code && to == old(to)
      ensures amount == old(amount) && timeout == old(timeout) && events == old(events)
      ensures var step := Convert(old(Display()), old(store.State()), old(amount), code, old(to), now, net);
        Display() == step.screen && store.State() == step.store && fetched == step.fetched
    {
      from := code;
      var loadingShown;
      fetched, loadingShown := ConvertCurrency(now, net);
    }

    /** The user picks `code` in the `to` selector, whose `change` listener then converts. */
    method ChangeTo(code: string, now: int, net: NetResult) returns (fetched: bool)
      modifies this, store
      ensures from == old(from) && to == code
      ensures amount == old(amount) && timeout == old(timeout) && events == old(events)
      ensures var step := Convert(old(Display()), old(store.State()), old(amount), old(from), code, now, net);
        Display() == step.screen && store.State() == step.store && fetched == step.fetched
    {
      to := code;
      var loadingShown;
      fetched, loadingShown := ConvertCurrency(now, net);
    }

    /**
     * An `input` event on the amount field at `now`, leaving `value` in it:
     * cancel the pending timer and arm a new one.
     */
    method AmountInput(now: int, value: Option<real>)
      modifies this
      ensures amount == value && timeout == Debounce.OnEdit(old(timeout), now)
      ensures events == old(events) + [Debounce.Edit(now, value)] && Debounced()
      ensures Display() == old(Display()) && from == old(from) && to == old(to)
    {
      amount := value;
      timeout := Debounce.Armed(now + Debounce.Delay);
      events := events + [Debounce.Edit(now, value)];
      assert events[..|events| - 1] == old(events);
    }

    /**
     * A turn of the event loop at time `now`: an expired timer runs the
     * conversion on the field's current value.
     */
    method TimerTick(now: int, net: NetResult) returns (fired: bool, fetched: bool)
      requires Debounced()
      modifies this, store
      ensures events == old(events) + [Debounce.Tick(now)] && Debounced()
      ensures fired == Debounce.OnTick(old(timeout), now).fired
      ensures fired == Debounce.FiredAt(events, |events| - 1)
      ensures timeout == Debounce.OnTick(old(timeout), now).timer
      ensures amount == old(amount) && from == old(from) && to == old(to)
      ensures fired ==>
        var step := Convert(old(Display()), old(store.State()), old(amount), from, to, now, net);
        Display() == step.screen && store.State() == step.store && fetched == step.fetched
      ensures !fired ==> Display() == old(Display()) && store.State() == old(store.State()) && !fetched
    {
      fired, fetched := false, false;
      if timeout.Armed? && timeout.deadline <= now {
        timeout := Debounce.Idle;
        fired := true;
        var loadingShown;
        fetched, loadingShown := ConvertCurrency(now, net);
      }
      events := events + [Debounce.Tick(now)];
      assert events[..|events| - 1] == old(events);
    }
  }
}
