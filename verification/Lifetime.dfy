/**
 One number of days becomes seconds, milliseconds, a nanosecond duration and a cutoff.
 Go's `int` is taken as 64 bits; every product is reduced as an int64 product is.
 */
module Lifetime {
  const TWO_63 := 0x8000_0000_0000_0000
  const TWO_64 := 0x1_0000_0000_0000_0000
  const DAY_SECONDS := 86_400
  const NS := 1_000_000_000
  const HOUR_NS := 3_600 * NS
  const DAY_NS := DAY_SECONDS * NS
  const LAST_DAYS := 106_751
  const LAST_COOKIE_DAYS := 106_751_991_167_300

  type Int64 = x: int | -TWO_63 <= x < TWO_63

  /** Two's-complement reduction. */
  function Wrap(x: int): Int64 {
    (x + TWO_63) % TWO_64 - TWO_63
  }

  function Times(x: Int64, y: Int64): Int64 {
    var product: int := x as int * y as int;
    Wrap(product)
  }

  /** NewServer: the cookie's Max-Age. */
  function MaxAgeSeconds(days: Int64): Int64 {
    Times(Times(Times(days, 24), 60), 60)
  }

  /** The cookie's life as the browser counts it. */
  function CookieNanos(days: Int64): int {
    MaxAgeSeconds(days) as int * NS
  }

  /** buildSessionData: originalMaxAge. */
  function MaxAgeMillis(days: Int64): Int64 {
    Times(Times(Times(Times(days, 24), 60), 60), 1000)
  }

  /** buildSessionData: the time.Duration added to the clock for `expires`. */
  function ExpiryNanos(days: Int64): Int64 {
    Times(Times(days, 24), HOUR_NS)
  }

  /** FindByUserID: AddDate(0, 0, -days) on a UTC time. */
  function WindowNanos(days: int): int {
    days * DAY_NS
  }

  lemma TimesExact(x: Int64, y: Int64, product: int)
    requires product == x as int * y as int && -TWO_63 <= product < TWO_63
    ensures Times(x, y) == product
  {
  }

  /** Every product the code takes, as int64 arithmetic gives it: hours, minutes, seconds, milliseconds, nanoseconds. */
  function Products(days: Int64): seq<int> {
    var hours := Times(days, 24);
    var minutes := Times(hours, 60);
    var seconds := Times(minutes, 60);
    [hours, minutes, seconds, Times(seconds, 1000), Times(hours, HOUR_NS)]
  }

  function ExactProducts(days: int): seq<int> {
    [days * 24, days * 1_440, days * DAY_SECONDS, days * 86_400_000, days * DAY_NS]
  }

  /** The four representations for every count that fits: nothing overflows, all are the same length. */
  lemma RepresentationsAgree(days: Int64)
    requires 0 < days <= LAST_DAYS
    ensures Products(days) == ExactProducts(days)
    ensures MaxAgeSeconds(days) == days * DAY_SECONDS
    ensures MaxAgeMillis(days) == MaxAgeSeconds(days) as int * 1000
    ensures ExpiryNanos(days) == WindowNanos(days) == MaxAgeSeconds(days) as int * NS
  {
    var d: int := days;
    TimesExact(days, 24, d * 24);
    TimesExact(d * 24, 60, d * 1_440);
    TimesExact(d * 1_440, 60, d * DAY_SECONDS);
    TimesExact(d * DAY_SECONDS, 1000, d * 86_400_000);
    TimesExact(d * 24, HOUR_NS, d * DAY_NS);
  }

  /**
   The nanosecond duration is the first to overflow: among the accepted counts, the expiry written
   to the row is the reuse window after the clock exactly up to LAST_DAYS.
   */
  lemma ExpiryMatchesWindowIff(days: Int64)
    requires days > 0
    ensures ExpiryNanos(days) == WindowNanos(days) <==> days <= LAST_DAYS
  {
    if days <= LAST_DAYS {
      RepresentationsAgree(days);
    } else {
      assert WindowNanos(days) >= (LAST_DAYS + 1) * DAY_NS > TWO_63;
    }
  }

  /** One day more, and `expires` lies in the past of the clock that was read. */
  lemma FirstOverflow()
    ensures ExpiryNanos(LAST_DAYS + 1) < 0
    ensures MaxAgeSeconds(LAST_DAYS + 1) == (LAST_DAYS + 1) * DAY_SECONDS
  {
  }

  /**
   Max-Age itself is right for far more days than `expires`: among the accepted counts, exactly up to
   LAST_COOKIE_DAYS. With the next count it is negative, so that the browser drops the cookie at once.
   */
  lemma MaxAgeIsExactIff(days: Int64)
    requires days > 0
    ensures MaxAgeSeconds(days) == days * DAY_SECONDS <==> days <= LAST_COOKIE_DAYS
    ensures MaxAgeSeconds(LAST_COOKIE_DAYS + 1) < 0
  {
    if days <= LAST_COOKIE_DAYS {
      var d: int := days;
      TimesExact(days, 24, d * 24);
      TimesExact(d * 24, 60, d * 1_440);
      TimesExact(d * 1_440, 60, d * DAY_SECONDS);
    } else {
      assert days * DAY_SECONDS >= (LAST_COOKIE_DAYS + 1) * DAY_SECONDS > TWO_63;
    }
  }
}
