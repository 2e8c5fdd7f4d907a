/**
 * The exchange-rate cache and the client that refreshes it
 * (`fetchExchangeRates` and the module-level `exchangeRatesCache` and
 * `lastUpdateTime` of script.js).
 *
 * The clock (`Date.now()`) and the network round trip (`fetch` followed by
 * `response.json()`) are parameters: `now` is the time in milliseconds and
 * `net` is what the round trip produced.
 */
module RateCache {
  import opened Wrappers

  /** How long a cached rate table counts as fresh: five minutes, in milliseconds. */
  const CacheDuration: int := 5 * 60 * 1000

  /** The one message every failed refresh surfaces, whatever the cause. */
  const FetchFailedMessage: string :=
    "Failed to fetch exchange rates. Please check your internet connection."

  /** A rate table: target currency code to the factor that converts one unit of the base into it. */
  type RateTable = map<string, real>

  /**
   * A cache entry. `rates` is `None` when the response body had no `rates`
   * member: the source stores `undefined` in that case and hands it on.
   */
  datatype Entry = Entry(rates: Option<RateTable>, timestamp: int)

  /** The whole module-level state: the cache keyed by base currency and the shared last-update time. */
  datatype Store = Store(cache: map<string, Entry>, lastUpdate: Option<int>)

  const EmptyStore: Store := Store(map[], None)

  /**
   * What one network round trip produced: a body that decoded (with or
   * without a `rates` member) together with the clock reading `at` taken once
   * it has arrived, or a failure. `Failed` stands for a status that is not
   * ok, a transport error and a body that is not JSON alike, since the source
   * catches all three in one handler.
   */
  datatype NetResult = Delivered(rates: Option<RateTable>, at: int) | Failed

  /** The state after one call, what the call returned or threw, and whether it went to the network. */
  datatype FetchStep = FetchStep(store: Store, result: Result<Option<RateTable>>, fetched: bool)

  /** The freshness test: an entry exists for `base` and is younger than the cache duration. */
  predicate IsFresh(cache: map<string, Entry>, base: string, now: int)
  {
    base in cache && now - cache[base].timestamp < CacheDuration
  }

  /**
   * One call of `fetchExchangeRates(base)` at time `now`. A fresh entry is
   * returned without a request; otherwise one request is issued, and only a
   * delivered body changes the state, stamped with the time it arrived.
   */
  function Fetch(s: Store, base: string, now: int, net: NetResult): (r: FetchStep)
    // A request is issued exactly when there is no entry or the entry is 300000 ms old or older.
    ensures r.fetched <==> base !in s.cache || now - s.cache[base].timestamp >= 300000
    // Served from the cache: the stored table, and nothing changes.
    ensures !r.fetched ==> r.store == s && r.result == Ok(s.cache[base].rates)
    // A failed request changes nothing and surfaces the one fixed message.
    ensures r.fetched && net.Failed? ==> r.store == s && r.result == Err(FetchFailedMessage)
    // A delivered body overwrites the entry for `base`, stamps it with its
    // arrival time and sets the shared last-update time to that time.
    ensures r.fetched && net.Delivered? ==>
      r.result == Ok(net.rates) &&
      r.store.lastUpdate == Some(net.at) &&
      r.store.cache.Keys == s.cache.Keys + {base} &&
      r.store.cache[base] == Entry(net.rates, net.at)
    // No other key's entry is touched, and no entry is ever removed.
    ensures forall k :: k in s.cache && k != base ==> k in r.store.cache && r.store.cache[k] == s.cache[k]
    ensures s.cache.Keys <= r.store.cache.Keys
  {
    if IsFresh(s.cache, base, now) then
      FetchStep(s, Ok(s.cache[base].rates), false)
    else
      match net
      case Failed => FetchStep(s, Err(FetchFailedMessage), true)
      case Delivered(rates, at) =>
        FetchStep(Store(s.cache[base := Entry(rates, at)], Some(at)), Ok(rates), true)
  }

  /**
   * After a refresh requested at `t0` whose response arrived at `at`, the
   * entry for `base` is fresh at every later time `t` before `at + 300000`
   * and stale from then on.
   */
  lemma FreshUntilExpiry(s: Store, base: string, t0: int, rates: Option<RateTable>, at: int, t: int)
    requires !IsFresh(s.cache, base, t0)
    requires at <= t
    ensures var s1 := Fetch(s, base, t0, Delivered(rates, at)).store;
      IsFresh(s1.cache, base, t) <==> t < at + CacheDuration
  {
  }

  /**
   * A refresh followed, within the cache duration of the response's arrival,
   * by a second call for the same base answers the second call from the
   * cache: no request, the same table, the same state, whatever the network
   * would have done.
   */
  lemma SecondCallServedFromCache(s: Store, base: string, t0: int, rates: Option<RateTable>, at: int,
                                  t1: int, net: NetResult)
    requires !IsFresh(s.cache, base, t0)
    requires t1 - at < CacheDuration
    ensures var first := Fetch(s, base, t0, Delivered(rates, at));
      var second := Fetch(first.store, base, t1, net);
      !second.fetched && second.result == Ok(rates) && second.store == first.store
  {
  }

  /**
   * A call for one base never changes what a later call for another base
   * sees, except for the shared last-update time.
   */
  lemma OtherBaseUnaffected(s: Store, base: string, other: string, now: int, net: NetResult, later: int, net2: NetResult)
    requires other != base
    ensures var s1 := Fetch(s, base, now, net).store;
      Fetch(s1, other, later, net2).fetched == Fetch(s, other, later, net2).fetched &&
      Fetch(s1, other, later, net2).result == Fetch(s, other, later, net2).result
  {
  }

  /** The module-level state of script.js as an object: the cache and the shared last-update time. */
  class RateStore {
    var cache: map<string, Entry>
    var lastUpdateTime: Option<int>

    function State(): Store
      reads this
    {
      Store(cache, lastUpdateTime)
    }

    /** The state when the script is loaded: an empty cache and no update yet. */
    constructor ()
      ensures State() == EmptyStore
    {
      cache := map[];
      lastUpdateTime := None;
    }

    /**
     * `fetchExchangeRates(base)`: returns or throws what `Fetch` says, reports
     * whether a request was issued, and leaves the state `Fetch` gives.
     */
    method FetchExchangeRates(base: string, now: int, net: NetResult)
      returns (result: Result<Option<RateTable>>, fetched: bool)
      modifies this
      ensures FetchStep(State(), result, fetched) == Fetch(old(State()), base, now, net)
    {
      if base in cache && now - cache[base].timestamp < CacheDuration {
        return Ok(cache[base].rates), false;
      }
      fetched := true;
      match net
      case Failed =>
        result := Err(FetchFailedMessage);
      case Delivered(rates, at) =>
        cache := cache[base := Entry(rates, at)];
        lastUpdateTime := Some(at);
        result := Ok(rates);
    }
  }
}
