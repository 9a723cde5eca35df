/** `shouldMarkAsNoResponse`: whether a record still waiting for a response
    was submitted more than 30 days ago. Dates are integer milliseconds since
    the epoch; the applied date is `None` when its text does not parse (the
    JavaScript date is then `NaN`, and every comparison with it is false). The
    current time is a parameter. */
module Utils {
  import opened JobTypes

  /** `30 * 24 * 60 * 60 * 1000`: thirty days in milliseconds. */
  const ThirtyDaysMs: int := 30 * 24 * 60 * 60 * 1000

  function ShouldMarkAsNoResponse(appliedMs: Option<int>, response: Response, nowMs: int): (b: bool)
    ensures response != Waiting ==> !b
    ensures appliedMs.None? ==> !b
    ensures b <==> response == Waiting && appliedMs.Some? && nowMs - appliedMs.value > 2592000000
  {
    if ResponseValue(response) != JsNull then false
    else match appliedMs
      case None => false
      case Some(applied) => nowMs - applied > ThirtyDaysMs
  }

  /** The threshold is strict: exactly thirty days elapsed is not stale, one
      millisecond more is. */
  lemma StalenessBoundary(applied: int)
    ensures !ShouldMarkAsNoResponse(Some(applied), Waiting, applied + ThirtyDaysMs)
    ensures ShouldMarkAsNoResponse(Some(applied), Waiting, applied + ThirtyDaysMs + 1)
  {
  }

  /** Once stale, a record stays stale as time passes. */
  lemma StalenessMonotone(applied: Option<int>, response: Response, now: int, later: int)
    requires now <= later
    requires ShouldMarkAsNoResponse(applied, response, now)
    ensures ShouldMarkAsNoResponse(applied, response, later)
  {
  }

  /** An applied date in the future is never stale. */
  lemma FutureNeverStale(applied: int, response: Response, now: int)
    requires now < applied
    ensures !ShouldMarkAsNoResponse(Some(applied), response, now)
  {
  }
}
