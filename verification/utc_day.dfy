/** UTC day bucketing.

    The dashboard and the calendar both turn an instant into its UTC calendar
    date with `toISOString().split('T')[0]`, the `YYYY-MM-DD` date part of the
    ISO 8601 extended format (section 4.1.2.2 of ISO 8601:2004), or the
    expanded `±YYYYYY-MM-DD` form (section 4.1.2.4) outside years 0-9999.
    That string is a one-to-one rendering of ECMA-262's day number
    `Day(t) = floor(t / msPerDay)` (section 21.4.1.3 of ECMA-262), so
    comparing the strings is comparing day numbers. This module works with the day number directly.
 */
module UtcDay {

  /** Milliseconds in one day (ECMA-262 `msPerDay`). */
  const MsPerDay: int := 86_400_000

  /** Largest magnitude of a Date's time value: 100,000,000 days on either
      side of the epoch (ECMA-262 `TimeClip`). */
  const MaxTime: int := 8_640_000_000_000_000

  /** A time value held by a valid JavaScript Date, in milliseconds since
      1970-01-01T00:00:00Z. */
  type TimeValue = t: int | -MaxTime <= t <= MaxTime

  /** The UTC day the instant falls on, counted in days since the epoch.
      Dafny's `/` is Euclidean, which for a positive divisor is the floor
      division ECMA-262 asks for; instants before the epoch fall on negative
      days. */
  function DayKey(t: TimeValue): (d: int)
    ensures InDay(t, d)
    ensures -100_000_000 <= d <= 100_000_000
  {
    t / MsPerDay
  }

  /** Instant `t` lies in the millisecond window of day `k`. */
  predicate InDay(t: int, k: int) {
    k * MsPerDay <= t < k * MsPerDay + MsPerDay
  }

  /** Two instants share a bucket when they fall on the same UTC day. It is
      equality of day keys, so "the tasks of a day" is a well-defined bucket. */
  predicate SameDay(a: TimeValue, b: TimeValue) {
    DayKey(a) == DayKey(b)
  }

  /** The day key is THE day whose millisecond window holds the instant:
      any day window that contains `t` is the one `DayKey` picks. */
  lemma DayKeyUnique(t: TimeValue, k: int)
    requires InDay(t, k)
    ensures DayKey(t) == k
  {
  }

  /** Bucket membership is decided by the day window alone: two instants are
      on the same day iff one day window holds both. */
  lemma SameDayIffSameWindow(a: TimeValue, b: TimeValue)
    ensures SameDay(a, b) <==> exists k: int :: InDay(a, k) && InDay(b, k)
  {
    if SameDay(a, b) {
      assert InDay(a, DayKey(a)) && InDay(b, DayKey(a));
    }
    forall k: int | InDay(a, k) && InDay(b, k)
      ensures SameDay(a, b)
    {
      DayKeyUnique(a, k);
      DayKeyUnique(b, k);
    }
  }

  /** Day equality is coarser than instant equality: 08:00 and 23:00 on
      2025-06-01 share a bucket although they are distinct instants, while
      00:30 on 2025-06-02 does not. */
  lemma SameDayNotSameInstant()
    ensures SameDay(1_748_764_800_000, 1_748_818_800_000)
    ensures !SameDay(1_748_764_800_000, 1_748_824_200_000)
  {
    DayKeyUnique(1_748_764_800_000, 20_240);
    DayKeyUnique(1_748_818_800_000, 20_240);
    DayKeyUnique(1_748_824_200_000, 20_241);
  }

  /** One millisecond before the epoch is 1969-12-31, day -1: the bucket is
      the floor of the quotient, not the quotient truncated toward zero. */
  lemma DayKeyBeforeEpoch()
    ensures DayKey(-1) == -1
    ensures DayKey(0) == 0
    ensures !SameDay(-1, 0)
  {
    DayKeyUnique(-1, -1);
    DayKeyUnique(0, 0);
  }
}
