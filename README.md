# Telephone bill calculator, modelled in Dafny

This project models the rating engine `TelephoneBillCalculatorImpl`. It takes a
call log as text, one call per line in the form
`<digits>,<dd-MM-yyyy HH:mm:ss>,<dd-MM-yyyy HH:mm:ss>`, and returns the total
price of the calls.

- **Frequent hours.** A minute is priced at one instant: the call's start for
  the first minute, and one second into the minute for minutes two to five. It
  costs 1.00 when that instant's clock time lies between 08:00:00 and 15:59:59,
  and 0.50 otherwise.
- **First minute.** Priced by the time of day at which the call starts.
- **Minutes two to five.** Each is charged only if the call still runs one
  second into it, at the price of that instant.
- **Long calls.** Every started minute after the fifth costs a flat 0.20.
- **Most-called number.** All calls of the most-called number are free. Ties
  on the number of calls go to the numerically larger number.
- **Errors.** The first bad line of the log aborts the whole bill with the
  error of that line.

The model works in these units:

- Money is integer cents (100, 50 and 20).
- Instants are integer seconds since 0001-01-01 00:00:00 in the proleptic
  Gregorian calendar. The time of day is the remainder modulo 86400.

Modules, one per part of the engine:

- `Tariff`: prices, the frequent-hours window and rounding up to minutes.
- `Text`: digit strings, `split(",", limit = 3)` and Kotlin's `lines()`.
- `Timestamps`: the `dd-MM-yyyy HH:mm:ss` formatter and the conversion of a
  date and time to seconds.
- `PhoneLog`: `LogEntry` and `parsePhoneLog`.
- `Frequency`: `findMostCalledNumber`.
- `EntryRater`: `calculateLogEntryCost`. This is a loop in the original and a
  `method` with a loop here, proved equal to the function `EntryCost`.
- `Bill`: `calculate` and `calculatePhoneLogCost`.
- `WorkedBills`: the bills of the calls and logs that the unit tests use.

Parse failures are values of type `Result`, not exceptions:

- `InvalidArgument(PhoneNumberInvalid)` and `InvalidArgument(StartNotBeforeEnd)`
  stand for the two `require` failures (`IllegalArgumentException`).
- `MalformedTimestamp` stands for `DateTimeParseException`.
- `MissingFields` stands for the exception thrown when a line has fewer than
  three fields to destructure.

A log that ends with a line terminator has an empty last line. That line fails
with `MissingFields`, as Kotlin's `lines()` and the destructuring make it fail
in the original.

## Model

| member | source | states |
|---|---|---|
| Tariff.MinutePrice | src/main/kotlin/TelephoneBillCalculatorImpl.kt:19 | a minute costs 1.00 exactly when its instant's time of day lies in 08:00:00..15:59:59, and 0.50 otherwise |
| Tariff.CeilMinutes | src/main/kotlin/TelephoneBillCalculatorImpl.kt:52 | the number of minutes is the duration divided by 60 rounded up: `60m - 60 < s <= 60m` |
| Tariff.ShiftByDays | src/main/kotlin/TelephoneBillCalculatorImpl.kt:36 | moving an instant by whole days keeps its time of day (`toLocalTime`) |
| Text.SplitFields | src/main/kotlin/TelephoneBillCalculatorImpl.kt:64 | when the split succeeds, the line is the three fields joined by commas, and the first two fields hold no comma |
| Text.SplitFieldsFails | src/main/kotlin/TelephoneBillCalculatorImpl.kt:64 | the split yields fewer than three fields exactly when the line has fewer than two commas |
| Text.SplitFieldsOfJoin | src/main/kotlin/TelephoneBillCalculatorImpl.kt:64 | splitting `a,b,c` with comma-free `a` and `b` gives back `(a, b, c)`, even when `c` holds commas (limit 3) |
| Text.Lines | src/main/kotlin/TelephoneBillCalculatorImpl.kt:63 | `lines()` yields at least one line, and no line holds a line terminator |
| Text.LinesOfJoin | src/main/kotlin/TelephoneBillCalculatorImpl.kt:63 | `lines()` inverts joining lines without terminators by "\n" |
| Text.IsDigitString | src/main/kotlin/TelephoneBillCalculatorImpl.kt:17 | `\d+` matches: at least one character, each an ASCII digit; `PhoneLog.BadPhoneNumberRefused` and `PhoneLog.ParseLine` state that a number is refused exactly without it and every accepted record has it |
| Text.DigitsOrder | src/main/kotlin/TelephoneBillCalculatorImpl.kt:59 | of two equally long digit strings, the one with the larger digit at the first difference has the larger `toLong` value |
| Timestamps.ParseDateTime | src/main/kotlin/TelephoneBillCalculatorImpl.kt:67-68 | a parsed timestamp is a valid date and time, and the text has the pattern's exact layout |
| Timestamps.ParseFormat | src/main/kotlin/TelephoneBillCalculatorImpl.kt:16 | parsing a valid date and time written in the pattern gives it back |
| Timestamps.EpochSeconds | src/main/kotlin/TelephoneBillCalculatorImpl.kt:36 | the instant is non-negative, and its time of day is the clock time of the date and time |
| Timestamps.EpochSecondsOrder | src/main/kotlin/TelephoneBillCalculatorImpl.kt:69 | one instant is smaller than another exactly when its date and time is before the other's (`isBefore`) |
| Timestamps.NextDay | src/main/kotlin/TelephoneBillCalculatorImpl.kt:39 | `plusDays(1)` is a valid date at the same clock time whose day number is one more, inside a month, at a month end and at a year end |
| Timestamps.NextSecond | src/main/kotlin/TelephoneBillCalculatorImpl.kt:39 | `plusSeconds(1)` moves the instant by exactly one second, carrying into minute, hour and day; it fails only at the last four-digit-year date-time |
| Timestamps.PlusSeconds | src/main/kotlin/TelephoneBillCalculatorImpl.kt:39 | `plusSeconds(k)` moves the instant by exactly `k`, so `ChronoUnit.SECONDS.between` (:50) of the two date-times is `k`; it fails exactly when the result would lie past 31-12-9999 23:59:59 |
| Timestamps.ParseTimestamp | src/main/kotlin/TelephoneBillCalculatorImpl.kt:67-68 | a timestamp yields an instant exactly when `ParseDateTime` accepts it, and the instant is the seconds of the parsed date-time (partners: `PhoneLog.TimestampOfFormat`, `Timestamps.ParseFormat`) |
| PhoneLog.ParseLine | src/main/kotlin/TelephoneBillCalculatorImpl.kt:63-71 | every record the parser accepts has an all-digit number and starts strictly before it ends |
| PhoneLog.LogEntry | src/main/kotlin/TelephoneBillCalculatorImpl.kt:75 | a record is a number and two instants; `PhoneLog.ValidEntry` states what every parsed record satisfies (all-digit number, start before end) |
| PhoneLog.MissingFieldsRefused | src/main/kotlin/TelephoneBillCalculatorImpl.kt:64 | a line fails for missing fields exactly when it has fewer than two commas |
| PhoneLog.BadPhoneNumberRefused | src/main/kotlin/TelephoneBillCalculatorImpl.kt:65 | a line whose first field is not all digits fails with the phone-number argument error, whatever the timestamps are |
| PhoneLog.BadTimestampRefused | src/main/kotlin/TelephoneBillCalculatorImpl.kt:67-68 | a line with a valid number and an unparsable start or end fails with the timestamp error |
| PhoneLog.ParseFormattedLine | src/main/kotlin/TelephoneBillCalculatorImpl.kt:62-72 | a well-formed line parses to its record when the start is before the end, and fails with the start-not-before-end error otherwise |
| PhoneLog.ParseLines | src/main/kotlin/TelephoneBillCalculatorImpl.kt:63 | a successful parse yields one valid record per line |
| PhoneLog.ParseLinesSucceeds | src/main/kotlin/TelephoneBillCalculatorImpl.kt:63 | the log parses exactly when every line parses, and record `i` is line `i`'s record |
| PhoneLog.ParseLinesAborts | src/main/kotlin/TelephoneBillCalculatorImpl.kt:63 | the log fails with the error of its first failing line |
| PhoneLog.ParseJoinedLines | src/main/kotlin/TelephoneBillCalculatorImpl.kt:62-72 | parsing lines joined by "\n" is parsing each line in order |
| PhoneLog.Collect | src/main/kotlin/TelephoneBillCalculatorImpl.kt:63 | when every result succeeds, the values are the results in order; `PhoneLog.CollectSucceeds` and `PhoneLog.CollectAborts` give success exactly when all succeed and the first failure otherwise, as an aborting `map` |
| PhoneLog.ParsePhoneLog | src/main/kotlin/TelephoneBillCalculatorImpl.kt:62-72 | an accepted log has at least one record and every record is valid; `PhoneLog.ParseLinesSucceeds` and `PhoneLog.ParseLinesAborts` give the rest |
| Frequency.GroupKeys | src/main/kotlin/TelephoneBillCalculatorImpl.kt:59 | the group keys are exactly the called numbers, each once |
| Frequency.Count | src/main/kotlin/TelephoneBillCalculatorImpl.kt:59 | a group is no larger than the log; `Frequency.CountAppend` and `Frequency.CountUniform` state that group sizes add over concatenation and that a one-number log is one group |
| Frequency.Best | src/main/kotlin/TelephoneBillCalculatorImpl.kt:59 | the last key after sorting by (count, value) has the highest count, and the highest value among keys with that count |
| Frequency.MostCalledNumber | src/main/kotlin/TelephoneBillCalculatorImpl.kt:58-60 | the winner is called; no number is called more often; no equally often called number is numerically larger |
| Frequency.MostCalledIsUnique | src/main/kotlin/TelephoneBillCalculatorImpl.kt:59 | when no two numbers share a numeric value, the winner is the only number with the most-called property |
| Frequency.SingleRecord | src/main/kotlin/TelephoneBillCalculatorImpl.kt:59 | in a log of one record, its number is the most called |
| EntryRater.ChargedFirstMinutes | src/main/kotlin/TelephoneBillCalculatorImpl.kt:36-47 | between one and five of the first minutes are charged |
| EntryRater.FirstMinutesCost | src/main/kotlin/TelephoneBillCalculatorImpl.kt:36-47 | the first `n` minutes, each at its pricing instant's price; `EntryRater.FirstMinutesCostBounds` and `EntryRater.FirstMinutesByTimeOfDay` state 0.50 to 1.00 a minute and independence from the date |
| EntryRater.LongCallSurcharge | src/main/kotlin/TelephoneBillCalculatorImpl.kt:50-54 | the long-call part; `EntryRater.SurchargeBounds` states none up to 300 s and 0.20 per started minute after the fifth above |
| EntryRater.EntryCost | src/main/kotlin/TelephoneBillCalculatorImpl.kt:33-56 | the cost of one call; `EntryRater.CalculateLogEntryCost` computes it with the original's loop, and `EntryRater.EntryCostBounds` and `EntryRater.EntryCostIgnoresDate` bound it and show it ignores the date |
| EntryRater.PricingInstantOfDateTime | src/main/kotlin/TelephoneBillCalculatorImpl.kt:39-41 | the model's pricing instant of minute `k + 1` is the instant of `start.plusSeconds(1).plusMinutes(k)`, and the minute costs 1.00 exactly when that date-time's clock time is in 08:00:00..15:59:59 |
| EntryRater.MinuteCharged | src/main/kotlin/TelephoneBillCalculatorImpl.kt:38-40 | minute `i + 1` (i in 1..4) is charged exactly when the check instant `start + 60 i + 1` falls within the call |
| EntryRater.CalculateLogEntryCost | src/main/kotlin/TelephoneBillCalculatorImpl.kt:33-56 | the loop's running total equals `EntryCost`: the time-of-day prices of the charged first minutes plus the long-call surcharge |
| EntryRater.FirstMinutesCostBounds | src/main/kotlin/TelephoneBillCalculatorImpl.kt:36-47 | each of the first minutes costs between 0.50 and 1.00 |
| EntryRater.SurchargeBounds | src/main/kotlin/TelephoneBillCalculatorImpl.kt:50-54 | no surcharge up to 300 seconds; above that, 0.20 per started minute after the fifth, which is positive |
| EntryRater.EntryCostBounds | src/main/kotlin/TelephoneBillCalculatorImpl.kt:33-56 | a call costs between the night and the day price of its charged minutes plus the surcharge, and at least 0.50 |
| EntryRater.EntryCostIgnoresDate | src/main/kotlin/TelephoneBillCalculatorImpl.kt:33-56 | the cost depends only on the start's time of day and the duration, not on the date or the number |
| Bill.Billable | src/main/kotlin/TelephoneBillCalculatorImpl.kt:29 | the filter drops exactly the excluded number's records and keeps no record of it |
| Bill.TotalCost | src/main/kotlin/TelephoneBillCalculatorImpl.kt:30 | the fold's sum costs at least 0.50 per record; `Bill.TotalCostAppend` states it adds over concatenation |
| Bill.PhoneLogCost | src/main/kotlin/TelephoneBillCalculatorImpl.kt:27-31 | the sum over the records not of the excluded number; `Bill.PhoneLogCostSplit`, `Bill.PhoneLogCostAppend` and `Bill.PhoneLogCostPermutation` state its relation to the full total, concatenation and reordering |
| Bill.FilterPartition | src/main/kotlin/TelephoneBillCalculatorImpl.kt:29 | the kept records and the excluded number's records together are the log's records (as a multiset) |
| Bill.TotalCostAppend | src/main/kotlin/TelephoneBillCalculatorImpl.kt:30 | the fold's total over two logs is the sum of their totals |
| Bill.BillableAppend | src/main/kotlin/TelephoneBillCalculatorImpl.kt:29 | the filter distributes over concatenation |
| Bill.PhoneLogCostAppend | src/main/kotlin/TelephoneBillCalculatorImpl.kt:27-31 | for a fixed excluded number, the bill of two logs is the sum of their bills |
| Bill.PhoneLogCostSplit | src/main/kotlin/TelephoneBillCalculatorImpl.kt:27-31 | the bill plus the cost of the excluded number's records is the cost of every record |
| Bill.PhoneLogCostPermutation | src/main/kotlin/TelephoneBillCalculatorImpl.kt:27-31 | reordering the records does not change the bill |
| Bill.OneNumberIsFree | src/main/kotlin/TelephoneBillCalculatorImpl.kt:20-25 | a log whose records all have one number costs nothing |
| Bill.Calculate | src/main/kotlin/TelephoneBillCalculatorImpl.kt:21 | the empty log costs exactly zero |
| Bill.CalculateAborts | src/main/kotlin/TelephoneBillCalculatorImpl.kt:20-25 | a non-empty log whose first bad line is line `i` fails with that line's error |
| Bill.CalculateTotal | src/main/kotlin/TelephoneBillCalculatorImpl.kt:20-25 | the bill exists exactly when every line parses; it excludes a number with the most-called property; bill plus that number's cost is the cost of all records |
| Bill.SingleLine | src/main/kotlin/TelephoneBillCalculatorImpl.kt:20-25 | a one-line log fails with that line's error, or costs nothing because its number is the most called |
| Bill.OneRecordLog | src/test/kotlin/TelephoneBillCalculatorImplTest.kt:19-27 | a well-formed one-call log costs zero when the start is before the end, and otherwise fails with the start-not-before-end error (equal or reversed instants) |
| WorkedBills.OnFirstDay | src/main/kotlin/TelephoneBillCalculatorImpl.kt:33-56 | a call costs what the same call at the same clock time costs on the first day of the calendar |
| WorkedBills.ShortDayCalls | src/test/kotlin/TelephoneBillCalculatorImplTest.kt:39-57 | at 10:00:00, calls of 1, 60, 61 and 300 seconds cost 1.00, 1.00, 2.00 and 5.00 |
| WorkedBills.LongDayCalls | src/test/kotlin/TelephoneBillCalculatorImplTest.kt:59-72 | at 10:00:00, calls of 301, 360 and 361 seconds cost 5.20, 5.20 and 5.40 |
| WorkedBills.ShortNightCalls | src/test/kotlin/TelephoneBillCalculatorImplTest.kt:74-92 | at 00:00:00, calls of 1, 60, 61 and 300 seconds cost 0.50, 0.50, 1.00 and 2.50 |
| WorkedBills.LongNightCalls | src/test/kotlin/TelephoneBillCalculatorImplTest.kt:94-107 | at 00:00:00, calls of 301, 360 and 361 seconds cost 2.70, 2.70 and 2.90 |
| WorkedBills.CallIntoFrequentHours | src/test/kotlin/TelephoneBillCalculatorImplTest.kt:109-118 | a call of 07:58:00 to 08:03:01 costs 0.5 + 0.5 + 1 + 1 + 1 + 0.2 = 4.20 |
| WorkedBills.DayLongCall | src/main/kotlin/TelephoneBillCalculatorImpl.kt:33-56 | a call of 25 hours from midnight costs five night minutes plus 1495 minutes at 0.20 (the test of the same call only runs it: a one-line log's bill is 0) |
| WorkedBills.MorningCalls | src/test/kotlin/TelephoneBillCalculatorImplTest.kt:120-137 | at 08:00:00, calls of 60, 300 and 600 seconds cost 1.00, 5.00 and 6.00 |
| WorkedBills.OneBilledCall | src/test/kotlin/TelephoneBillCalculatorImplTest.kt:157-166 | a call followed by two records of another number: the other number is free and the bill is the call's cost |
| WorkedBills.BlocksLeader | src/main/kotlin/TelephoneBillCalculatorImpl.kt:59 | in three blocks of distinct numbers, the block strictly longer than the first and at least as long as the last wins, or the last block on a tie |
| WorkedBills.MostCallsWinner | src/test/kotlin/TelephoneBillCalculatorImplTest.kt:120-137 | with 1, 3 and 2 records, 421774577453 is the most called |
| WorkedBills.TieWinner | src/test/kotlin/TelephoneBillCalculatorImplTest.kt:139-155 | with 1, 2 and 2 records, the tie goes to the larger number 422774577453 |
| WorkedBills.MostCallsAreFree | src/test/kotlin/TelephoneBillCalculatorImplTest.kt:120-137 | the first filtering log: 421774577453 is free and the bill is 13.00 |
| WorkedBills.TieGoesToLargerNumber | src/test/kotlin/TelephoneBillCalculatorImplTest.kt:139-155 | the order-by-number log: 422774577453 is free and the bill is 11.00 |
| WorkedBills.LargerNumber | src/test/kotlin/TelephoneBillCalculatorImplTest.kt:139-155 | 421774577453 is numerically smaller than 422774577453 |

## Left out

- Frequency.NumericValue: `toLong()` throws `NumberFormatException` when the number's value exceeds `Long.MAX_VALUE` (9223372036854775807), whatever its length. The comparator calls it only on two groups of equal size, so the original fails only when the stable sort compares two equal-size groups and one of their numbers is that large. Which pairs the sort compares depends on the JVM's sort implementation. The model never fails here and compares the unbounded values.
- Frequency.MostCalledNumber: the function breaks a tie between two different numbers of the same value and count (for example "042" and "42") as the original does: the number whose group comes later wins. Its contract does not say which of the two wins. `Frequency.MostCalledIsUnique` pins the winner down for logs without such twins.
- Timestamps.ParseDateTime: only the formatter behaviour that the pattern reaches is modelled. This covers the exact layout, the field ranges and the smart resolver moving a day past the month's end back to its last day. Not modelled: signed or longer years (the text is then not 19 characters and is refused), the "24:00:00" end-of-day case (refused here), and the formatter's locale and chronology.
- Timestamps.PlusSeconds: date-times after 31-12-9999 23:59:59 are not modelled, as the four-digit year cannot express them; `LocalDateTime` goes further. A check instant past that point lies outside every call, so no bill depends on it.
- Time of day below one second: instants are whole seconds, as the format can only express whole seconds, so `LocalTime` nanoseconds never arise.
- `BigDecimal` scale: amounts are integer cents. The original's values compare equal to them after `setScale(2)`. The scale of the returned `BigDecimal` is not modelled.
- Exceptions: `IllegalArgumentException`, `DateTimeParseException` and the destructuring failure become `ParseError` values. The JVM exception classes and messages are not modelled.
- The interface `TelephoneBillCalculator` only declares `calculate`; it holds no logic.
- Reading the log from a file or other input, and printing the bill, are outside the engine.
- The unit tests' "invalid number" and "invalid timestamp" lines are covered by the generic lemmas `PhoneLog.BadPhoneNumberRefused` and `PhoneLog.BadTimestampRefused`. They are not stated for the literal test lines.
- `WorkedBills.ShortDayCalls` and the other single-call lemmas state the cost of the rated call. `WorkedBills.OneBilledCall` states that, in the tests' three-record log, this call is the whole bill. The two are not combined for the literal test text.
