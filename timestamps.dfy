/**
 * Timestamps in the log's one format, "dd-MM-yyyy HH:mm:ss", and their
 * conversion to integer seconds.
 *
 * An instant is the number of seconds since 0001-01-01 00:00:00 in the
 * proleptic Gregorian calendar that `LocalDateTime` uses, so the difference of
 * two instants is the `ChronoUnit.SECONDS` distance between them, adding
 * seconds is `plusSeconds`, and the time of day of an instant is `toLocalTime`.
 * `PlusSeconds` shows that stepping a date-time second by second, across
 * midnights, month ends and year ends, moves its instant by one each step;
 * `EpochSecondsOrder` shows that comparing instants is `isBefore`.
 */
module Timestamps {
  import opened Text
  import opened Tariff

  datatype DateTime = DateTime(day: int, month: int, year: int, hour: int, minute: int, second: int)

  predicate IsLeapYear(year: int)
  {
    year % 4 == 0 && (year % 100 != 0 || year % 400 == 0)
  }

  function DaysInMonth(year: int, month: int): (n: int)
    requires 1 <= month <= 12
    ensures 28 <= n <= 31
  {
    if month == 2 then (if IsLeapYear(year) then 29 else 28)
    else if month == 4 || month == 6 || month == 9 || month == 11 then 30
    else 31
  }

  function DaysInYear(year: int): int
  {
    if IsLeapYear(year) then 366 else 365
  }

  /** A calendar date and a time of day that `LocalDateTime` can hold, with a four-digit year. */
  predicate Valid(dt: DateTime)
  {
    1 <= dt.year <= 9999 && 1 <= dt.month <= 12 && 1 <= dt.day <= DaysInMonth(dt.year, dt.month) &&
    0 <= dt.hour < 24 && 0 <= dt.minute < 60 && 0 <= dt.second < 60
  }

  /**
   * The text has the layout "dd-MM-yyyy HH:mm:ss": digits where the pattern has
   * a letter and the pattern's own character everywhere else.
   */
  predicate HasPatternShape(text: string)
  {
    |text| == 19 &&
    AllDigits(text[0..2]) && text[2] == '-' && AllDigits(text[3..5]) && text[5] == '-' &&
    AllDigits(text[6..10]) && text[10] == ' ' &&
    AllDigits(text[11..13]) && text[13] == ':' && AllDigits(text[14..16]) && text[16] == ':' &&
    AllDigits(text[17..19])
  }

  /**
   * `LocalDateTime.from(formatter.parse(text))` with the formatter of pattern
   * "dd-MM-yyyy HH:mm:ss" and its default resolver: the whole text must have
   * the pattern's layout (an unsigned year has exactly four digits); the month
   * must be 1..12, the day 1..31, the year of era at least 1, the hour 0..23,
   * minute and second 0..59; a day past the end of its month is moved back to
   * the month's last day. `None` is the `DateTimeParseException`.
   */
  function ParseDateTime(text: string): (r: Option<DateTime>)
    ensures r.Some? ==> Valid(r.value) && HasPatternShape(text)
  {
    if !HasPatternShape(text) then None
    else
      var day := DigitsValue(text[0..2]);
      var month := DigitsValue(text[3..5]);
      var year := DigitsValue(text[6..10]);
      var hour := DigitsValue(text[11..13]);
      var minute := DigitsValue(text[14..16]);
      var second := DigitsValue(text[17..19]);
      if 1 <= month <= 12 && 1 <= day <= 31 && 1 <= year && hour < 24 && minute < 60 && second < 60 then
        assert year < 10000 by { DigitsBound(text[6..10]); }
        Some(DateTime(Min(day, DaysInMonth(year, month)), month, year, hour, minute, second))
      else
        None
  }

  /** Text of the pattern's layout holds no comma and no line break. */
  lemma PatternHasNoSeparator(text: string)
    requires HasPatternShape(text)
    ensures ',' !in text && HasNoLineBreak(text)
  {
    forall k | 0 <= k < |text| ensures text[k] != ',' && !IsLineBreak(text[k]) {
      if k < 2 { assert text[k] == text[0..2][k]; }
      else if 2 < k < 5 { assert text[k] == text[3..5][k - 3]; }
      else if 5 < k < 10 { assert text[k] == text[6..10][k - 6]; }
      else if 10 < k < 13 { assert text[k] == text[11..13][k - 11]; }
      else if 13 < k < 16 { assert text[k] == text[14..16][k - 14]; }
      else if 16 < k { assert text[k] == text[17..19][k - 17]; }
    }
  }

  /** The inverse of `ParseDateTime`: the fields written with leading zeros. */
  function FormatDateTime(dt: DateTime): (text: string)
    requires Valid(dt)
  {
    var date := PadDigits(dt.day, 2) + "-" + (PadDigits(dt.month, 2) + "-" + PadDigits(dt.year, 4));
    var time := PadDigits(dt.hour, 2) + ":" + (PadDigits(dt.minute, 2) + ":" + PadDigits(dt.second, 2));
    date + " " + time
  }

  /** Every date-time the log can hold is read back from its formatted text. */
  lemma ParseFormat(dt: DateTime)
    requires Valid(dt)
    ensures ParseDateTime(FormatDateTime(dt)) == Some(dt)
  {
    FieldsOfFormat(dt);
    assert Min(dt.day, DaysInMonth(dt.year, dt.month)) == dt.day;
  }

  /** The formatted text has the pattern's layout, and each field reads back as its value. */
  lemma FieldsOfFormat(dt: DateTime)
    requires Valid(dt)
    ensures var text := FormatDateTime(dt);
      HasPatternShape(text) &&
      DigitsValue(text[0..2]) == dt.day && DigitsValue(text[3..5]) == dt.month &&
      DigitsValue(text[6..10]) == dt.year && DigitsValue(text[11..13]) == dt.hour &&
      DigitsValue(text[14..16]) == dt.minute && DigitsValue(text[17..19]) == dt.second
  {
    var day, month, year := PadDigits(dt.day, 2), PadDigits(dt.month, 2), PadDigits(dt.year, 4);
    var hour, minute, second := PadDigits(dt.hour, 2), PadDigits(dt.minute, 2), PadDigits(dt.second, 2);
    LayoutSlices(day, month, year, hour, minute, second);
  }

  /** The six fields of a text laid out as the pattern are found at the pattern's positions. */
  lemma LayoutSlices(day: string, month: string, year: string, hour: string, minute: string, second: string)
    requires |day| == 2 && |month| == 2 && |year| == 4 && |hour| == 2 && |minute| == 2 && |second| == 2
    ensures var text := day + "-" + (month + "-" + year) + " " + (hour + ":" + (minute + ":" + second));
      text[0..2] == day && text[2] == '-' && text[3..5] == month && text[5] == '-' && text[6..10] == year &&
      text[10] == ' ' && text[11..13] == hour && text[13] == ':' && text[14..16] == minute &&
      text[16] == ':' && text[17..19] == second && |text| == 19
  {
    var date, time := day + "-" + (month + "-" + year), hour + ":" + (minute + ":" + second);
    var text := date + " " + time;
    SliceOfJoin(date, ' ', time);
    SliceOfJoin(day, '-', month + "-" + year);
    SliceOfJoin(month, '-', year);
    SliceOfJoin(hour, ':', minute + ":" + second);
    SliceOfJoin(minute, ':', second);
    assert text[0..2] == day by { assert text[0..2] == text[..10][..2]; }
    assert text[3..5] == month by { assert text[3..5] == text[..10][3..][..2]; }
    assert text[6..10] == year by { assert text[6..10] == text[..10][3..][3..]; }
    assert text[11..13] == hour by { assert text[11..13] == text[11..][..2]; }
    assert text[14..16] == minute by { assert text[14..16] == text[11..][3..][..2]; }
    assert text[17..19] == second by { assert text[17..19] == text[11..][3..][3..]; }
  }

  lemma SliceOfJoin(x: string, c: char, y: string)
    ensures (x + [c] + y)[..|x|] == x && (x + [c] + y)[|x|] == c && (x + [c] + y)[|x| + 1..] == y
  {
  }

  /** Days from 0001-01-01 to the first day of `year`. */
  function DaysBeforeYear(year: int): int
    requires year >= 1
  {
    365 * (year - 1) + (year - 1) / 4 - (year - 1) / 100 + (year - 1) / 400
  }

  /** Days from the first of January to the first day of `month`. */
  function DaysBeforeMonth(year: int, month: int): (n: int)
    requires 1 <= month <= 12
  {
    (if month > 2 && IsLeapYear(year) then 1 else 0) +
    (match month
     case 1 => 0 case 2 => 31 case 3 => 59 case 4 => 90 case 5 => 120 case 6 => 151
     case 7 => 181 case 8 => 212 case 9 => 243 case 10 => 273 case 11 => 304 case _ => 334)
  }

  /** Days from 0001-01-01 to the date of `dt`. */
  function DayNumber(dt: DateTime): int
    requires Valid(dt)
  {
    DaysBeforeYear(dt.year) + DaysBeforeMonth(dt.year, dt.month) + dt.day - 1
  }

  function SecondOfDay(dt: DateTime): int
  {
    dt.hour * 3600 + dt.minute * 60 + dt.second
  }

  /** Seconds from 0001-01-01 00:00:00 to `dt`. */
  function EpochSeconds(dt: DateTime): (t: int)
    requires Valid(dt)
    ensures t >= 0
    ensures TimeOfDay(t) == SecondOfDay(dt)
  {
    DayNumberBounds(dt);
    var t := DayNumber(dt) * SecondsPerDay + SecondOfDay(dt);
    ShiftByDays(SecondOfDay(dt), DayNumber(dt));
    t
  }

  /** The last date-time the four-digit year can express, 31-12-9999 23:59:59. */
  const LastDateTime := DateTime(31, 12, 9999, 23, 59, 59)

  /**
   * `plusDays(1)`: the next day of the month, the first of the next month, or
   * the first of January of the next year. Its day number is one more.
   */
  function NextDay(dt: DateTime): (next: DateTime)
    requires Valid(dt) && !(dt.year == 9999 && dt.month == 12 && dt.day == 31)
    ensures Valid(next) && SecondOfDay(next) == SecondOfDay(dt)
    ensures DayNumber(next) == DayNumber(dt) + 1
  {
    if dt.day < DaysInMonth(dt.year, dt.month) then dt.(day := dt.day + 1)
    else if dt.month < 12 then dt.(day := 1, month := dt.month + 1)
    else
      YearStep(dt.year);
      dt.(day := 1, month := 1, year := dt.year + 1)
  }

  /**
   * `plusSeconds(1)`, carrying into the minute, the hour and the day. `None`
   * past the last date-time of a four-digit year.
   */
  function NextSecond(dt: DateTime): (next: Option<DateTime>)
    requires Valid(dt)
    ensures next.None? <==> dt == LastDateTime
    ensures next.Some? ==> Valid(next.value) && EpochSeconds(next.value) == EpochSeconds(dt) + 1
  {
    if dt.second < 59 then Some(dt.(second := dt.second + 1))
    else if dt.minute < 59 then Some(dt.(second := 0, minute := dt.minute + 1))
    else if dt.hour < 23 then Some(dt.(second := 0, minute := 0, hour := dt.hour + 1))
    else if dt.year == 9999 && dt.month == 12 && dt.day == 31 then None
    else
      var day := NextDay(dt);
      Some(day.(hour := 0, minute := 0, second := 0))
  }

  /**
   * `plusSeconds(k)` (and `plusMinutes(m)` as `plusSeconds(60 m)`): `k` steps of
   * one second. The instant moves by exactly `k`, so `ChronoUnit.SECONDS.between`
   * a date-time and the result is `k`, across midnights, month ends and year ends.
   */
  function PlusSeconds(dt: DateTime, k: nat): (r: Option<DateTime>)
    requires Valid(dt)
    ensures r.Some? ==> Valid(r.value) && EpochSeconds(r.value) == EpochSeconds(dt) + k
    ensures r.None? <==> EpochSeconds(dt) + k > EpochSeconds(LastDateTime)
    decreases k
  {
    if k == 0 then
      AtMostLast(dt);
      Some(dt)
    else
      match PlusSeconds(dt, k - 1)
      case None => None
      case Some(d) =>
        AtMostLast(d);
        NextSecond(d)
  }

  /** No valid date-time comes after the last one. */
  lemma AtMostLast(dt: DateTime)
    requires Valid(dt)
    ensures EpochSeconds(dt) <= EpochSeconds(LastDateTime)
    ensures EpochSeconds(dt) == EpochSeconds(LastDateTime) <==> dt == LastDateTime
  {
    EpochSecondsOrder(dt, LastDateTime);
  }

  /** `LocalDate.isBefore`: year, then month, then day. */
  predicate DateBefore(a: DateTime, b: DateTime)
  {
    a.year < b.year || (a.year == b.year && (a.month < b.month || (a.month == b.month && a.day < b.day)))
  }

  /** `LocalDateTime.isBefore`: the date, then the time of day. */
  predicate Before(a: DateTime, b: DateTime)
  {
    DateBefore(a, b) ||
    (a.year == b.year && a.month == b.month && a.day == b.day && SecondOfDay(a) < SecondOfDay(b))
  }

  /** The parsed timestamp as an instant. */
  function ParseTimestamp(text: string): (r: Option<int>)
    ensures r.Some? <==> ParseDateTime(text).Some?
    ensures r.Some? ==> r.value == EpochSeconds(ParseDateTime(text).value)
  {
    match ParseDateTime(text)
    case None => None
    case Some(dt) => Some(EpochSeconds(dt))
  }

  lemma DayNumberBounds(dt: DateTime)
    requires Valid(dt)
    ensures 0 <= DayNumber(dt) - DaysBeforeYear(dt.year) < DaysInYear(dt.year)
    ensures DaysBeforeYear(dt.year) >= 0
  {
  }

  lemma YearStep(year: int)
    requires year >= 1
    ensures DaysBeforeYear(year + 1) == DaysBeforeYear(year) + DaysInYear(year)
  {
    var n := year - 1;
    assert (n + 1) / 4 == n / 4 + (if year % 4 == 0 then 1 else 0);
    assert (n + 1) / 100 == n / 100 + (if year % 100 == 0 then 1 else 0);
    assert (n + 1) / 400 == n / 400 + (if year % 400 == 0 then 1 else 0);
  }

  lemma {:induction false} YearsMonotone(y1: int, y2: int)
    requires 1 <= y1 < y2
    ensures DaysBeforeYear(y1) + DaysInYear(y1) <= DaysBeforeYear(y2)
    decreases y2 - y1
  {
    YearStep(y1);
    if y1 + 1 < y2 {
      YearsMonotone(y1 + 1, y2);
    }
  }

  /** Date order is day-number order. */
  lemma DayNumberMonotone(a: DateTime, b: DateTime)
    requires Valid(a) && Valid(b) && DateBefore(a, b)
    ensures DayNumber(a) < DayNumber(b)
  {
    DayNumberBounds(a);
    DayNumberBounds(b);
    if a.year < b.year {
      YearsMonotone(a.year, b.year);
    }
  }

  /** Comparing instants is `LocalDateTime.isBefore` on valid date-times. */
  lemma EpochSecondsOrder(a: DateTime, b: DateTime)
    requires Valid(a) && Valid(b)
    ensures EpochSeconds(a) < EpochSeconds(b) <==> Before(a, b)
  {
    if DateBefore(a, b) {
      DayNumberMonotone(a, b);
    } else if DateBefore(b, a) {
      DayNumberMonotone(b, a);
    }
  }
}
