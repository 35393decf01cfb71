/**
 * `parse_timestamp` and the millisecond conversion applied to a bundle's
 * issuance date. The two `strptime` formats themselves are parameters:
 * each is a partial function from text to an instant, counted in
 * microseconds since 1970-01-01T00:00:00Z (the resolution of Python's
 * `datetime`).
 */
module Timestamps {
  import opened Wrappers

  /**
   * `fractional` stands for '%Y-%m-%dT%H:%M:%S.%f%z' and `whole` for
   * '%Y-%m-%dT%H:%M:%S%z'; `None` is the `ValueError` strptime raises.
   */
  datatype Formats = Formats(fractional: string -> Option<int>, whole: string -> Option<int>)

  /**
   * `parse_timestamp(s)`: the higher-precision format is tried first and
   * the whole-second format only when it fails; `None` when both fail.
   */
  function ParseTimestamp(fmt: Formats, s: string): (r: Option<int>)
    ensures r.Some? <==> fmt.fractional(s).Some? || fmt.whole(s).Some?
    ensures fmt.fractional(s).Some? ==> r == fmt.fractional(s)
    ensures fmt.fractional(s).None? ==> r == fmt.whole(s)
  {
    match fmt.fractional(s)
    case Some(t) => Some(t)
    case None => fmt.whole(s)
  }

  /**
   * `round(ts.timestamp() * 1000)` for an instant of `us` microseconds:
   * the nearest whole millisecond, ties going to the even one (Python's
   * `round`).
   */
  function MillisOf(us: int): (ms: int)
    ensures -500 <= us - 1000 * ms <= 500
    ensures us - 1000 * ms == 500 || us - 1000 * ms == -500 ==> ms % 2 == 0
  {
    var q, r := us / 1000, us % 1000;
    if r < 500 then q
    else if r > 500 then q + 1
    else if q % 2 == 0 then q
    else q + 1
  }

  /** Rounding is determined by its contract: any nearest-even millisecond is `MillisOf`. */
  lemma MillisOfUnique(us: int, ms: int)
    requires -500 <= us - 1000 * ms <= 500
    requires us - 1000 * ms == 500 || us - 1000 * ms == -500 ==> ms % 2 == 0
    ensures MillisOf(us) == ms
  {
    var m := MillisOf(us);
    assert -1000 <= 1000 * (m - ms) <= 1000;
  }
}
