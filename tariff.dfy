/**
 * The prices and the frequent-hours window of the rating engine.
 *
 * A minute is priced at its pricing instant: the call's start for the first
 * minute, and one second into the minute for minutes two to five.
 *
 * Money is counted in integer cents, which is exact in the same way as the
 * `BigDecimal` arithmetic of the original (1.00, 0.50 and 0.20 become 100, 50
 * and 20). Instants are integer seconds; the time of day of an instant is its
 * remainder modulo one day.
 */
module Tariff {

  /** Price of a minute whose pricing instant lies inside the frequent hours (1.00). */
  const FrequentHourMinutePrice: nat := 100
  /** Price of a minute whose pricing instant lies outside the frequent hours (0.50). */
  const NightHourMinutePrice: nat := 50
  /** Flat price of every minute after the fifth (0.20). */
  const LongCallMinutePrice: nat := 20

  const SixtySeconds: nat := 60
  /** Number of minutes priced by time of day before the long-call price applies. */
  const LongCallMinutes: nat := 5
  /** `Duration.ofMinutes(LongCallMinutes)`, in seconds. */
  const LongCallDuration: nat := 300

  const SecondsPerDay: nat := 86400
  /** 08:00:00, first second of the frequent hours. */
  const FrequentHoursFirst: nat := 28800
  /** 15:59:59, last second of the frequent hours (the range is closed). */
  const FrequentHoursLast: nat := 57599

  /** Seconds elapsed since midnight; Euclidean remainder, so also right before the epoch. */
  function TimeOfDay(t: int): (tod: nat)
    ensures tod < SecondsPerDay
    ensures (t - tod) % SecondsPerDay == 0
  {
    t % SecondsPerDay
  }

  /** The closed `LocalTime` range 08:00:00..15:59:59. */
  predicate InFrequentHours(t: int)
  {
    FrequentHoursFirst <= TimeOfDay(t) <= FrequentHoursLast
  }

  /** Price of one minute, chosen by the time of day of the instant that prices it. */
  function MinutePrice(t: int): (p: nat)
    ensures p == FrequentHourMinutePrice || p == NightHourMinutePrice
    // at second precision the closed range is the half-open window [08:00:00, 16:00:00)
    ensures p == FrequentHourMinutePrice <==> 8 * 3600 <= TimeOfDay(t) < 16 * 3600
  {
    if InFrequentHours(t) then FrequentHourMinutePrice else NightHourMinutePrice
  }

  /** `seconds / 60` rounded towards positive infinity (`RoundingMode.CEILING`). */
  function CeilMinutes(seconds: int): (m: int)
    ensures SixtySeconds * m - SixtySeconds < seconds <= SixtySeconds * m
  {
    (seconds + 59) / 60
  }

  function Min(a: int, b: int): int
  {
    if a <= b then a else b
  }

  /** Two instants with the same time of day keep it when both move by the same amount. */
  lemma TimeOfDayShift(a: int, b: int, x: int)
    requires TimeOfDay(a) == TimeOfDay(b)
    ensures TimeOfDay(a + x) == TimeOfDay(b + x)
  {
    var q := (a - b) / SecondsPerDay;
    assert a - b == q * SecondsPerDay;
    assert (b + x) + q * SecondsPerDay == a + x;
    ShiftByDays(b + x, q);
  }

  lemma ShiftByDays(t: int, q: int)
    ensures TimeOfDay(t + q * SecondsPerDay) == TimeOfDay(t)
  {
    var r := t % SecondsPerDay;
    var k := t / SecondsPerDay;
    assert t + q * SecondsPerDay == (k + q) * SecondsPerDay + r;
  }
}
