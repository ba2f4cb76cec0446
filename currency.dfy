/**
 * Conversion of USD amounts into the display currency with a cached rate.
 *
 * The window keeps the selected currency, the cached rate, the instant of
 * the last staleness check (`last_updated_currency_date`, set once when the
 * window opens) and the instant of the last successful fetch
 * (`currency_rate_last_updated`). A refresh writes the rate and the second
 * of these, never the first, so a cache once found stale stays stale.
 */
module Currency {
  import opened Common
  import opened Dates

  const BaseCurrency := "USD"
  const StalenessSeconds := 600

  /** The rate fields that a refresh rewrites. */
  datatype RateCache = RateCache(rate: real, fetchedAt: Option<Instant>)

  /** How one conversion behaves, decided from the window's state and the time. */
  datatype Conversion = Identity | AtRate(rate: real) | Stale

  predicate IsStale(lastChecked: Instant, now: Instant) {
    TimedeltaSeconds(now, lastChecked) > StalenessSeconds
  }

  function Mode(currency: string, rate: real, lastChecked: Instant, now: Instant): (m: Conversion)
    ensures m.Identity? <==> currency == BaseCurrency
    ensures m.Stale? <==> currency != BaseCurrency && IsStale(lastChecked, now)
    ensures m.AtRate? ==> m.rate == rate
  {
    if currency == BaseCurrency then Identity
    else if IsStale(lastChecked, now) then Stale
    else AtRate(rate)
  }

  /**
   * What `convert_currency` returns: the amount itself for USD, the amount
   * at the cached rate while fresh, and nothing at all once stale (the
   * method refreshes and then returns no value).
   */
  function Apply(m: Conversion, amount: real): (r: Option<real>)
    ensures r.None? <==> m.Stale?
    ensures m.Identity? ==> r == Some(amount)
    ensures m.AtRate? ==> r == Some(amount * m.rate)
  {
    match m
    case Identity => Some(amount)
    case AtRate(_) => Some(amount * m.rate)
    case Stale => None
  }

  /** `update_currency`: a successful fetch replaces the rate and stamps the fetch time. */
  function Refreshed(cache: RateCache, fetched: Option<real>, now: Instant): (c: RateCache)
    ensures fetched.None? ==> c == cache
    ensures fetched.Some? ==> c.rate == fetched.value && c.fetchedAt == Some(now)
  {
    match fetched
    case None => cache
    case Some(r) => RateCache(r, Some(now))
  }

  /** Refreshing twice with the same reply at the same instant is refreshing once. */
  lemma RefreshedIdempotent(cache: RateCache, fetched: Option<real>, now: Instant)
    ensures Refreshed(Refreshed(cache, fetched, now), fetched, now) == Refreshed(cache, fetched, now)
  {
  }

  /**
   * A refresh cannot revive a stale cache: the mode after any refresh is
   * again Stale, because the staleness check reads a field refresh never writes.
   */
  lemma StaleAfterRefresh(currency: string, cache: RateCache, lastChecked: Instant,
                          fetched: Option<real>, now: Instant)
    requires Mode(currency, cache.rate, lastChecked, now) == Stale
    ensures Mode(currency, Refreshed(cache, fetched, now).rate, lastChecked, now) == Stale
  {
  }

  /**
   * Since `.seconds` drops whole days, the mode at `now` recurs every day:
   * a cache stale now is stale at the same time on every later day, and a
   * fresh one fresh again.
   */
  lemma {:induction false} ModeRecursDaily(currency: string, rate: real, lastChecked: Instant,
                                           now: Instant, days: nat)
    ensures Mode(currency, rate, lastChecked, now + days * MicrosPerDay) == Mode(currency, rate, lastChecked, now)
  {
    SecondsIgnoreWholeDays(now, lastChecked, days);
  }

  /** Converting in USD is the identity for every amount, whatever the cache holds. */
  lemma UsdIsIdentity(rate: real, lastChecked: Instant, now: Instant, amount: real)
    ensures Apply(Mode(BaseCurrency, rate, lastChecked, now), amount) == Some(amount)
  {
  }
}
