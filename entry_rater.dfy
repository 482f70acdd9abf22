/**
 * The cost of one call (`calculateLogEntryCost`).
 *
 * The first minute is priced by the time of day at which the call starts.
 * Minutes two to five are priced one by one: minute `i + 1` is charged when the
 * call still runs one second into it, at the instant `start + 60 i + 1`, and at
 * the price of that instant's time of day. When the call lasts more than five
 * minutes, every further started minute costs the flat long-call price.
 */
module EntryRater {
  import opened Tariff
  import opened Timestamps
  import opened PhoneLog

  function Duration(entry: LogEntry): int
  {
    entry.end - entry.start
  }

  /** The instant whose time of day prices minute `k` of a call (minute 0 is the first). */
  function PricingInstant(start: int, k: nat): int
  {
    if k == 0 then start else start + k * 60 + 1
  }

  /** How many of the first five minutes a call of `duration` seconds is charged for. */
  function ChargedFirstMinutes(duration: int): (n: int)
    requires duration > 0
    ensures 1 <= n <= LongCallMinutes
  {
    Min(LongCallMinutes, CeilMinutes(duration))
  }

  /** The price of minutes `0 .. n - 1` of a call that starts at `start`. */
  function FirstMinutesCost(start: int, n: nat): nat
  {
    if n == 0 then 0 else FirstMinutesCost(start, n - 1) + MinutePrice(PricingInstant(start, n - 1))
  }

  /** The flat-price charge for the started minutes after the fifth. */
  function LongCallSurcharge(duration: int): nat
  {
    if duration > LongCallDuration then LongCallMinutePrice * (CeilMinutes(duration) - LongCallMinutes) else 0
  }

  /** The cost of one call, in cents. */
  function EntryCost(entry: LogEntry): nat
    requires entry.start < entry.end
  {
    FirstMinutesCost(entry.start, ChargedFirstMinutes(Duration(entry))) + LongCallSurcharge(Duration(entry))
  }

  /**
   * Minute `i + 1` (for `i` in 1..4) is charged exactly when the call lasts into
   * it: the check instant `start + 60 i + 1` lies within the call.
   */
  lemma MinuteCharged(duration: int, i: nat)
    requires duration > 0 && 1 <= i < LongCallMinutes
    ensures i * 60 + 1 <= duration <==> i < ChargedFirstMinutes(duration)
  {
  }

  /**
   * The check instant of minute `k + 1` is `start.plusSeconds(1).plusMinutes(k)`
   * of the start's date-time, and the minute's price is chosen by that
   * date-time's clock time.
   */
  lemma PricingInstantOfDateTime(start: DateTime, k: nat)
    requires Valid(start) && 1 <= k < LongCallMinutes
    requires PlusSeconds(start, k * 60 + 1).Some?
    ensures var check := PlusSeconds(start, k * 60 + 1).value;
      PricingInstant(EpochSeconds(start), k) == EpochSeconds(check) &&
      (MinutePrice(PricingInstant(EpochSeconds(start), k)) == FrequentHourMinutePrice <==>
        8 * 3600 <= SecondOfDay(check) < 16 * 3600)
  {
  }

  /** `calculateLogEntryCost`: a running total over the first minute, minutes 2-5 and the long-call minutes. */
  method CalculateLogEntryCost(entry: LogEntry) returns (cost: nat)
    requires entry.start < entry.end
    ensures cost == EntryCost(entry)
  {
    var duration := Duration(entry);
    ghost var charged := ChargedFirstMinutes(duration);
    cost := MinutePrice(entry.start);
    for i := 1 to LongCallMinutes
      invariant cost == FirstMinutesCost(entry.start, Min(i, charged))
    {
      var startingCallMinute := entry.start + 1 + i * SixtySeconds;
      MinuteCharged(duration, i);
      if entry.start <= startingCallMinute <= entry.end {
        cost := cost + MinutePrice(startingCallMinute);
      }
    }
    if LongCallDuration < duration {
      var callMinutes := CeilMinutes(duration) - LongCallMinutes;
      cost := cost + LongCallMinutePrice * callMinutes;
    }
  }

  /** The first minutes cost between the night price and the day price each. */
  lemma {:induction false} FirstMinutesCostBounds(start: int, n: nat)
    ensures NightHourMinutePrice * n <= FirstMinutesCost(start, n) <= FrequentHourMinutePrice * n
  {
    if n > 0 {
      FirstMinutesCostBounds(start, n - 1);
    }
  }

  /** The surcharge: nothing up to five minutes, then 0.20 for each started minute after the fifth. */
  lemma SurchargeBounds(duration: int)
    ensures duration <= 300 ==> LongCallSurcharge(duration) == 0
    ensures duration > 300 ==> LongCallSurcharge(duration) == 20 * (CeilMinutes(duration) - 5) > 0
    ensures duration > 300 ==> 20 * (duration - 300) <= 60 * LongCallSurcharge(duration) < 20 * (duration - 240)
  {
  }

  /**
   * Each charged minute of the first five costs 0.50 or 1.00, so a call costs
   * between the night and the day price of its charged minutes plus the
   * surcharge, and every call costs something.
   */
  lemma EntryCostBounds(entry: LogEntry)
    requires entry.start < entry.end
    ensures var n, s := ChargedFirstMinutes(Duration(entry)), LongCallSurcharge(Duration(entry));
      50 * n + s <= EntryCost(entry) <= 100 * n + s
    ensures EntryCost(entry) >= NightHourMinutePrice
  {
    FirstMinutesCostBounds(entry.start, ChargedFirstMinutes(Duration(entry)));
  }

  /** The first minutes depend on the start only through its time of day. */
  lemma {:induction false} FirstMinutesByTimeOfDay(a: int, b: int, n: nat)
    requires TimeOfDay(a) == TimeOfDay(b)
    ensures FirstMinutesCost(a, n) == FirstMinutesCost(b, n)
  {
    if n > 0 {
      FirstMinutesByTimeOfDay(a, b, n - 1);
      var k := n - 1;
      TimeOfDayShift(a, b, if k == 0 then 0 else k * 60 + 1);
      assert PricingInstant(a, k) == a + (if k == 0 then 0 else k * 60 + 1);
      assert PricingInstant(b, k) == b + (if k == 0 then 0 else k * 60 + 1);
    }
  }

  /**
   * The cost depends only on the time of day of the start and on the duration:
   * not on the date and not on the number called.
   */
  lemma EntryCostIgnoresDate(a: LogEntry, b: LogEntry)
    requires a.start < a.end && b.start < b.end
    requires TimeOfDay(a.start) == TimeOfDay(b.start) && Duration(a) == Duration(b)
    ensures EntryCost(a) == EntryCost(b)
  {
    FirstMinutesByTimeOfDay(a.start, b.start, ChargedFirstMinutes(Duration(a)));
  }
}
