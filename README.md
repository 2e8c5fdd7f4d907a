# Currency converter widget: a Dafny model of its decision logic

The repository is a browser widget (`script.js`). It reads an amount and a
pair of currencies, fetches the rate table of the source currency from a
public rate service, and shows the converted amount with a "last updated"
line. Most of the file is DOM and network glue. This project models the
logic under that glue:

- **The rate cache** (`rate_cache.dfy`, module `RateCache`). The cache maps
  a base currency to `{rates, timestamp}`, and one `lastUpdateTime` is shared
  by all bases. An entry is fresh while its age is under 300000 ms. A fresh
  entry is returned without a request. A delivered response overwrites
  exactly one key, stamped with the time the response arrived, and sets
  `lastUpdateTime` to that time. A failed request changes nothing
  and raises one fixed message. `Fetch` is the pure specification. The class
  `RateStore` holds the module-level state, and its method
  `FetchExchangeRates` updates it in place and is proved against `Fetch`.
- **The conversion controller** (`conversion.dfy`, module `Conversion`).
  `convertCurrency` is modelled over an explicit display: the amount line,
  the date line, the error text and the error panel's visibility. It runs in
  the source's fixed order: validate, same-currency fast path, loading
  state, fetch, rate lookup, multiply, render. `Convert` is the pure
  decision procedure. The class `Converter` stands for `CurrencyConverter`.
  Its methods `ShowLoading`, `ShowError`, `HideError` and `UpdateDisplay`
  overwrite display fields. `ConvertCurrency`, `LoadDefaultRates`,
  `SwapCurrencies` and the debounced amount listener (`AmountInput`,
  `TimerTick`) are built from them and proved against `Convert` and
  `LoadDefault`. The converter also holds the amount field's parsed value,
  which only `AmountInput` changes and every conversion reads.
- **The debounce** (`debounce.dfy`, module `Debounce`). The captured timer
  handle becomes a one-slot state machine. An edit re-arms the timer 500 ms
  ahead and leaves its value in the field. A tick at or after the deadline
  fires the pending conversion once. The lemmas relate this machine to an
  independent description of "the last edit was followed by a quiet
  period", and show that a conversion it fires reads that last edit's
  value. The converter keeps, as a ghost history, the edits and ticks it has
  seen; its timer and amount field are always those that history produces.
- **Dropdown population** (`dropdowns.dfy`, module `Dropdowns`). Each
  selector keeps its first seven options. Then every catalog currency whose
  code is not yet an option's value is appended. The selectors are `Select`
  objects whose option list the methods change in place. The `while` loops
  and the `forEach` are loops with invariants, proved against the function
  `Populated`.

Modelling choices:

- The clock (`Date.now()`) is the parameter `now`, in milliseconds.
- The network round trip (`fetch` and `response.json()`) is the parameter
  `net`. `Delivered(Some(table), at)` is a body with `rates`, and
  `Delivered(None, at)` is a body without them. In both, `at` is the clock
  reading once the body has arrived. `Failed` is a status that is not
  ok, a transport error, or a body that is not JSON. The source catches all
  three in one handler and rethrows the same message.
- `parseFloat(...)` of the amount field is an `Option<real>`; `None` stands
  for NaN.
- Amounts and rates are exact `real`s, so `amount * rate` is exact.
- `lastUpdateTime` keeps the arrival time instead of its locale string.
- `rates[to]` uses JavaScript truthiness, so a missing code and a rate of 0
  are both "not available" (`RateOf`).
- `exchangeRatesCache[base].timestamp || 0` is the timestamp itself, since
  a stored timestamp is always a number.

Behaviours of the code that the model keeps, although a cleaner design
would differ:

- A response body without `rates` is not rejected. Its `undefined` table is
  cached and returned. The lookup `rates[to]` then throws a TypeError, whose
  message (in V8's wording, `UndefinedRatesMessage`) is what the error panel
  shows.
- A status that is not ok surfaces the generic connectivity message, not
  "Network response was not ok".
- A zero rate is treated like a missing one.
- The last-update time stays global, shared by all bases.
- The same-currency path does not hide the error panel. After a rejected
  amount, a same-currency result appears with the old validation message
  still visible (`SameCurrencyKeepsEarlierError`).

## Model

| member | source | states |
|---|---|---|
| `RateCache.IsFresh` | script.js:64-65 | Defines freshness: an entry exists for the base and is less than 300000 ms old at the time of the call. |
| `RateCache.Fetch` | script.js:62-91 | A request is issued exactly when there is no entry or the entry is 300000 ms old or older, judged at the call's time `now`. Otherwise the stored table is returned and nothing changes. A failed request changes nothing and yields the fixed connectivity message. A delivered body yields its table, sets `cache[base]` to that table stamped with the response's arrival time, and sets the last-update time to that arrival time. No other key's entry changes and no entry is removed. |
| `RateCache.FreshUntilExpiry` | script.js:64-82 | After a refresh whose response arrived at `at`, the entry is fresh at each later time before `at + 300000` and stale from then on. |
| `RateCache.SecondCallServedFromCache` | script.js:64-82 | A second call for the same base within 300000 ms of a refresh's arrival issues no request and returns the same table with the same state, whatever the network would answer. |
| `RateCache.OtherBaseUnaffected` | script.js:79-84 | A call for one base does not change whether a later call for another base fetches, nor what it returns. |
| `RateCache.RateStore.constructor` | script.js:5-6 | The script starts with an empty cache and no last-update time. |
| `RateCache.RateStore.FetchExchangeRates` | script.js:62-91 | The in-place method returns, reports and stores exactly what `Fetch` specifies. |
| `Conversion.UndefinedRatesMessage` | script.js:112 | Defines the message of the TypeError that `rates[to]` throws on an `undefined` table. |
| `Conversion.Loading` | script.js:150-154 | Defines the display after `showLoading`: "Converting..." and "Please wait", the error panel as it was. |
| `Conversion.WithError` | script.js:156-164 | Defines the display after `showError(message)`: the message shown in the panel and the result "Conversion failed" / "See error below". |
| `Conversion.WithoutError` | script.js:166-169 | Defines the display after `hideError`: only the panel hidden. |
| `Conversion.DateLineFor` | script.js:135 | Defines the date line: "Last updated" with the last-update time when there is one, "Rates loading..." otherwise. |
| `Conversion.WithResult` | script.js:127-136 | Defines the display after `updateDisplay`: both amounts and codes, and the date line of the current last-update time. |
| `Conversion.ValidAmount` | script.js:99 | Defines the validation: an amount that is not NaN and greater than 0. |
| `Conversion.RateOf` | script.js:112-114 | Defines the rate lookup with JavaScript truthiness: a missing code and a zero rate both give no rate. |
| `Conversion.Convert` | script.js:93-125 | A NaN or non-positive amount loads the validation message: error panel shown, result "Conversion failed" / "See error below", no request, no loading state, cache unchanged. For the same currency on both sides, the amount is shown as its own conversion and the error text and visibility stay as they were, with no request, no loading state and no cache change. Otherwise the loading state is shown and the cache decides whether a request goes out. A failed request shows the connectivity message. A missing or zero rate shows "Exchange rate not available for selected currencies". A usable rate shows `amount * rate`, hides the error panel and gives the date line "Last updated" when a last-update time exists and "Rates loading..." otherwise. A result is shown if and only if the amount is valid and either the codes agree or a usable rate came back. The display never stays on "Converting...". |
| `Conversion.RoundTrip` | script.js:109-119 | Converting `a` from X to Y at rate `q`, then the result back at rate `1/q`, shows `a` again, whether each table came from the cache or from the network. |
| `Conversion.RepeatWithinCacheDuration` | script.js:109-119 | A second conversion from the same base within 300000 ms of the arrival of a refreshing one's response issues no request, leaves the cache unchanged and shows the same result line. |
| `Conversion.LoadDefault` | script.js:52-60 | The USD table is requested through the cache, and no loading state is shown. The placeholder "1 USD = 0.85 EUR" appears exactly when the call returned, even with a body lacking `rates`. Its date line follows the new last-update time, and the error panel stays as it was. A failed request shows "Failed to load initial exchange rates", not the connectivity message, and leaves the cache unchanged. |
| `Conversion.SameCurrencyKeepsEarlierError` | script.js:99-107 | After a rejected amount, a valid same-currency conversion shows its result while the validation message stays visible. |
| `Conversion.Converter.constructor` | script.js:10-13 | A converter takes the page's display, amount and selector values and starts with no pending timer and no events. Like the source's constructor, it then runs `loadDefaultRates`, so the display and cache end as `LoadDefault` gives from the page's display. |
| `Conversion.Converter.ShowLoading` | script.js:150-154 | The amount line becomes "Converting..." and the date line "Please wait". Nothing else changes. |
| `Conversion.Converter.ShowError` | script.js:156-164 | The message replaces the error text and the panel shows. The result reads "Conversion failed" / "See error below". The inputs are untouched. |
| `Conversion.Converter.HideError` | script.js:166-169 | Only the panel's visibility changes, to hidden. |
| `Conversion.Converter.UpdateDisplay` | script.js:127-136 | The amount line shows original and converted amounts with their codes. The date line is derived from the shared last-update time when the method runs. |
| `Conversion.Converter.ConvertCurrency` | script.js:93-125 | Reading the amount field and the selectors, display and cache end as `Convert` says. The reported request and loading flags are those of `Convert`. The amount, the selectors, the timer and the event history are untouched. |
| `Conversion.Converter.LoadDefaultRates` | script.js:52-60 | Display and cache end as `LoadDefault` says. The inputs are untouched. |
| `Conversion.Converter.SwapCurrencies` | script.js:138-148 | The two selector values are exchanged. Then the state is what `Convert` gives for the current amount and the swapped pair. |
| `Conversion.Converter.ChangeFrom` | script.js:34-36 | The user's pick becomes the `from` value and the `change` listener's conversion ends as `Convert` says for it. The amount, the other selector and the timer are untouched. |
| `Conversion.Converter.ChangeTo` | script.js:38-40 | The user's pick becomes the `to` value and the `change` listener's conversion ends as `Convert` says for it. The amount, the other selector and the timer are untouched. |
| `Conversion.Converter.AmountInput` | script.js:44-48 | The field takes the edit's value. Any pending timer is replaced by one due 500 ms after the edit. The edit joins the history, and timer and field stay those the history produces. The display and selectors are untouched. |
| `Conversion.Converter.TimerTick` | script.js:46-48 | The tick joins the history. The conversion runs exactly when `FiredAt` holds for the history at this tick. An expired timer is consumed and runs the conversion on the field's value as `Convert` says. Otherwise nothing changes and no request is issued. |
| `Debounce.OnEdit` | script.js:45-48 | The conversion an edit schedules runs at a tick 500 ms after the edit and at no earlier tick. |
| `Debounce.Run` | script.js:43-49 | Defines the timer after a sequence of edits and ticks, from the initially empty handle. |
| `Debounce.LastValue` | script.js:94 | Defines the amount field's value after a sequence of events: that of the last edit, or the page's initial value. |
| `Debounce.FiredAt` | script.js:46-48 | Defines a debounced conversion at an event: a tick that fires the timer the earlier events left. |
| `Debounce.EditReplacesPending` | script.js:45-46 | The timer after an edit does not depend on what was pending: `clearTimeout` drops it. |
| `Debounce.FiredTimerIsSpent` | script.js:46-48 | A timer that has fired is used up, so no later tick fires it again. |
| `Debounce.EditForgetsHistory` | script.js:44-48 | After an edit, the timer no longer depends on any event before that edit. |
| `Debounce.RunArmed` | script.js:43-49 | After any event sequence, the timer is armed with deadline `d` exactly when the last edit was followed only by ticks before its deadline, and `d` is that edit's time plus 500. |
| `Debounce.FiredAtIff` | script.js:43-49 | The conversion runs at an event exactly when it is a tick at or after the deadline of an edit that only early ticks have followed. |
| `Debounce.QuietValue` | script.js:44-48 | While only ticks follow an edit, the amount field holds that edit's value. |
| `Debounce.FiredConvertsLastEdit` | script.js:43-49 | When the debounced conversion runs, the field holds the value of the last edit before it, the one whose deadline has come. |
| `Debounce.EditBetweenFirings` | script.js:43-49 | Between any two debounced conversions there is an edit, so a burst of edits triggers at most one conversion. |
| `Debounce.ThreeEditsOneConversion` | script.js:43-49 | Edits at 0, 200 and 400 ms with ticks at 600, 900 and 1500 ms trigger the conversion only at 900 ms, on the third edit's value. |
| `Dropdowns.NewOption` | script.js:207 | Defines the option built for a catalog currency: label "code - name", value the code. |
| `Dropdowns.Truncate` | script.js:201-202 | Keeps a prefix of at most seven options, the whole list when it is no longer. |
| `Dropdowns.AddIfMissing` | script.js:206-214 | Defines one `forEach` step: the currency's option is appended unless its code is already the value of an option. |
| `Dropdowns.AddMissing` | script.js:205-215 | Defines the `forEach` over the catalog, each presence test seeing the options added so far. |
| `Dropdowns.AddMissingKeepsOptions` | script.js:205-215 | The `forEach` keeps the existing options as a prefix and appends at most one option per currency. |
| `Dropdowns.Populated` | script.js:196-216 | Defines one call on one selector: truncate, then the `forEach` over the catalog. |
| `Dropdowns.CatalogCodesDistinct` | script.js:180-193 | The twelve catalog codes are pairwise distinct. |
| `Dropdowns.AddMissingAppendsMissing` | script.js:205-215 | With distinct catalog codes, the `forEach` (whose presence test sees the options added so far) keeps the list. It appends exactly the options of the catalog codes absent from it, in catalog order. |
| `Dropdowns.PopulatedShape` | script.js:196-216 | One call leaves the truncated list followed by the options of the catalog codes it lacks, in catalog order. |
| `Dropdowns.PopulatedKeepsPrefix` | script.js:201-202 | One call keeps the first `min(7, n)` options unchanged and in order. |
| `Dropdowns.PopulatedAddsNoDuplicates` | script.js:205-215 | No appended option carries the code of a kept option, and no two appended options carry the same code. |
| `Dropdowns.PopulatedCoversCatalog` | script.js:205-215 | After one call every catalog code is the value of some option. |
| `Dropdowns.PopulatedIdempotent` | script.js:196-216 | Populating twice gives the same list as populating once. |
| `Dropdowns.Select.Remove` | script.js:201-202 | `remove(index)` drops the option at the index. An index out of range leaves the list as it is. |
| `Dropdowns.Select.Add` | script.js:208 | `add(option)` appends the option. |
| `Dropdowns.Select.HasOption` | script.js:206 | Defines the presence test: some option carries the value. |
| `Dropdowns.TruncateOptions` | script.js:201-202 | Removing option 7 until at most seven remain leaves exactly the first `min(7, n)` options. |
| `Dropdowns.AddIfAbsent` | script.js:206-214 | The body of the `forEach` for one selector leaves its options as `AddIfMissing` gives. |
| `Dropdowns.AddCatalogOptions` | script.js:205-215 | The loop over the catalog leaves each selector holding what the `forEach` specification gives. |
| `Dropdowns.PopulateCurrencyDropdowns` | script.js:196-216 | Both selectors end as `Populated` of their old options against the catalog. |

## Left out

- DOM lookup and event wiring (script.js:15-41), apart from the debounced `input` listener and the `change` listeners (`ChangeFrom`, `ChangeTo`): the click and Enter-key listeners only call `convertCurrency` (`ConvertCurrency`) or `swapCurrencies` (`SwapCurrencies`).
- The bootstrap (script.js:219-230). Its second `CurrencyConverter` instance and its call of `convertCurrency` on a DOM element are page plumbing.
- `Intl.NumberFormat` (script.js:171-176) and `toLocaleString` (script.js:84) are library calls. The display holds the numbers, codes and times they would format.
- `fetch`, `response.json()` and the request URL (script.js:2, 70, 76) are the `net` parameter. `console.error` (script.js:88) is logging only.
- IEEE-754 arithmetic: amounts and rates are exact reals, so `parseFloat` results such as Infinity, and rounding in `amount * rate`, are not represented. Rates in a body that are not numbers are not represented either, nor is a `rates` member that is `null` or not an object: `{"rates": null}` would make `rates[to]` throw with "null" in its message where `Delivered(None, at)` gives the `undefined` wording.
- JavaScript objects also answer `rates[to]` for inherited property names such as `constructor`. The catalog codes never hit them, so they are not modelled.
- Overlapping conversions: each `ConvertCurrency` runs to completion, so the race between in-flight requests at the `await` is not modelled.
- Conversion.Converter.constructor: the source starts `loadDefaultRates` without awaiting it (script.js:12), so the constructor returns with its request still in flight. The model's constructor runs `LoadDefaultRates` to completion, so conversions that start before the initial load finishes are not modelled.
- Real timer scheduling: the debounce is driven by explicit edit and tick events.
- RateCache.Fetch: the source reads the clock three times: the freshness test before the request (script.js:65), and the entry's timestamp and `lastUpdateTime` after the response (script.js:81, 84). The model takes the first as `now` and the other two as one arrival time `at`, so the two may not differ by the milliseconds between those statements. The gap between them is not modelled.
- A selector's value is a free string, not tied to its options. Setting `select.value` to a code that no option carries (script.js:143-144) leaves nothing selected in a browser, and the model does not capture that. `querySelector('option[value="…"]')` (script.js:206, 211) matches only options that carry a `value` attribute. The model gives every option a value, as `new Option(text, value)` does, so options in the page's markup without that attribute are not represented.
- `Dropdowns.PopulateCurrencyDropdowns` requires the two selectors to be different objects, as the elements `from` and `to` are.
- The lemmas on `Populated` are stated for any catalog with distinct codes; `CatalogCodesDistinct` discharges that for `PopularCurrencies`.
