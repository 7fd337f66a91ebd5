/** The number of days a rental is billed for (internal/service/rental_service.go). The
    difference of two times is a 64-bit count of nanoseconds, and the subtraction saturates. */
module Billing {
  const NANOS_PER_DAY := 86_400_000_000_000
  const MAX_DURATION := 9_223_372_036_854_775_807
  const LAST_EXACT_SPAN := 106_751

  /** end.Sub(start) for two midnights, end not before start. */
  function Elapsed(start: int, end: int): int
    requires start <= end
  {
    var exact := (end - start) * NANOS_PER_DAY;
    if exact > MAX_DURATION then MAX_DURATION else exact
  }

  /** int(end.Sub(start).Hours()/24) + 1 */
  function BilledDays(start: int, end: int): int
    requires start <= end
  {
    Elapsed(start, end) / NANOS_PER_DAY + 1
  }

  function Charge(start: int, end: int, dailyRate: int): int
    requires start <= end
  {
    BilledDays(start, end) * dailyRate
  }

  /** The bill counts the days of the inclusive range up to a span of 106751 days and stays at
      106752 days from there on. */
  lemma BilledDaysCountTheRange(start: int, end: int)
    requires start <= end
    ensures BilledDays(start, end) == if end - start <= LAST_EXACT_SPAN then end - start + 1 else LAST_EXACT_SPAN + 1
    ensures BilledDays(start, end) == end - start + 1 <==> end - start <= LAST_EXACT_SPAN
  {
    var span := end - start;
    if span <= LAST_EXACT_SPAN {
      assert span * NANOS_PER_DAY <= LAST_EXACT_SPAN * NANOS_PER_DAY <= MAX_DURATION;
      assert span * NANOS_PER_DAY / NANOS_PER_DAY == span;
    } else {
      assert span * NANOS_PER_DAY >= (LAST_EXACT_SPAN + 1) * NANOS_PER_DAY > MAX_DURATION;
    }
  }

  /** Booking a range in two pieces costs what booking it at once costs, exactly for the ranges
      whose span does not saturate. */
  lemma SplitChargeAddsUp(start: int, cut: int, end: int, dailyRate: int)
    requires start <= cut < end
    requires dailyRate > 0
    ensures Charge(start, end, dailyRate) == Charge(start, cut, dailyRate) + Charge(cut + 1, end, dailyRate)
       <==> end - start <= LAST_EXACT_SPAN
  {
    BilledDaysCountTheRange(start, end);
    BilledDaysCountTheRange(start, cut);
    BilledDaysCountTheRange(cut + 1, end);
    var whole, first, second := BilledDays(start, end), BilledDays(start, cut), BilledDays(cut + 1, end);
    assert first * dailyRate + second * dailyRate == (first + second) * dailyRate;
    if end - start > LAST_EXACT_SPAN {
      assert whole < first + second;
      assert whole * dailyRate < (first + second) * dailyRate;
    }
  }
}
