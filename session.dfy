/**
 * What every revision's token-refresh timer shares: the refresh happens five minutes
 * before the token expires, the sleep until then is converted to an unsigned number of
 * seconds, and that conversion panics when the instant is already past. Times are whole
 * seconds on one clock.
 */
module Session {

  import opened Wrappers

  const RefreshMargin: int := 300
  const RefreshRetry: int := 15

  /** The outcome of a login or refresh against the portal: an expiry if the client set one, or an error. */
  datatype AuthOutcome = AuthOk(expireDate: Option<int>) | AuthErr(error: string)

  /**
   * The client's `token_expire_date` after a login or refresh: a success leaves the expiry
   * it reported, a failure leaves the field as it was.
   */
  function ExpireAfter(previous: Option<int>, outcome: AuthOutcome): (r: Option<int>)
    ensures outcome.AuthErr? ==> r == previous
    ensures outcome.AuthOk? ==> r == outcome.expireDate
  {
    if outcome.AuthOk? then outcome.expireDate else previous
  }

  /**
   * `(expire_date - now - 5 min).num_seconds().try_into()`: the seconds to sleep, or
   * `None` for the panic when that number is negative.
   */
  function RefreshSleep(expire: int, now: int): (r: Option<nat>)
    ensures r.None? <==> expire - now < RefreshMargin
  {
    if expire - now - RefreshMargin < 0 then None else Some(expire - now - RefreshMargin)
  }

  /** After the sleep the clock reads the refresh instant: the margin before expiry. */
  lemma WakesAtRefreshInstant(expire: int, now: int)
    requires RefreshSleep(expire, now).Some?
    ensures now + RefreshSleep(expire, now).value == expire - RefreshMargin
  {
  }

  /** A later clock reading never sleeps longer, and the sleep shrinks second for second. */
  lemma SleepShrinks(expire: int, now: int, later: int)
    requires now <= later
    requires RefreshSleep(expire, later).Some?
    ensures RefreshSleep(expire, now).Some?
    ensures RefreshSleep(expire, now).value == RefreshSleep(expire, later).value + (later - now)
  {
  }
}
