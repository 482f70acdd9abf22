/**
 * Worked bills: single calls at day and night prices around the five-minute
 * mark, a call that crosses 08:00, a call of a whole day and more, and the two
 * logs in which the most-called number rides free.
 */
module WorkedBills {
  import opened Text
  import opened Tariff
  import opened PhoneLog
  import opened Frequency
  import opened EntryRater
  import opened Bill

  /** A call costs what the same call costs on the first day of the calendar. */
  lemma OnFirstDay(phoneNumber: string, start: int, duration: int)
    requires duration > 0
    ensures EntryCost(LogEntry(phoneNumber, start, start + duration)) ==
      EntryCost(LogEntry(phoneNumber, TimeOfDay(start), TimeOfDay(start) + duration))
  {
    EntryCostIgnoresDate(LogEntry(phoneNumber, start, start + duration),
      LogEntry(phoneNumber, TimeOfDay(start), TimeOfDay(start) + duration));
  }

  /** Calls of up to five minutes that start at 10:00:00 on any day, in cents. */
  lemma ShortDayCalls(phoneNumber: string, start: int)
    requires TimeOfDay(start) == 10 * 3600
    ensures EntryCost(LogEntry(phoneNumber, start, start + 1)) == 100
    ensures EntryCost(LogEntry(phoneNumber, start, start + 60)) == 100
    ensures EntryCost(LogEntry(phoneNumber, start, start + 61)) == 200
    ensures EntryCost(LogEntry(phoneNumber, start, start + 300)) == 500
  {
    OnFirstDay(phoneNumber, start, 1);
    OnFirstDay(phoneNumber, start, 60);
    OnFirstDay(phoneNumber, start, 61);
    OnFirstDay(phoneNumber, start, 300);
  }

  /** Calls of more than five minutes that start at 10:00:00 on any day, in cents. */
  lemma LongDayCalls(phoneNumber: string, start: int)
    requires TimeOfDay(start) == 10 * 3600
    ensures EntryCost(LogEntry(phoneNumber, start, start + 301)) == 520
    ensures EntryCost(LogEntry(phoneNumber, start, start + 360)) == 520
    ensures EntryCost(LogEntry(phoneNumber, start, start + 361)) == 540
  {
    OnFirstDay(phoneNumber, start, 301);
    OnFirstDay(phoneNumber, start, 360);
    OnFirstDay(phoneNumber, start, 361);
  }

  /** Calls of up to five minutes that start at midnight on any day, in cents. */
  lemma ShortNightCalls(phoneNumber: string, start: int)
    requires TimeOfDay(start) == 0
    ensures EntryCost(LogEntry(phoneNumber, start, start + 1)) == 50
    ensures EntryCost(LogEntry(phoneNumber, start, start + 60)) == 50
    ensures EntryCost(LogEntry(phoneNumber, start, start + 61)) == 100
    ensures EntryCost(LogEntry(phoneNumber, start, start + 300)) == 250
  {
    OnFirstDay(phoneNumber, start, 1);
    OnFirstDay(phoneNumber, start, 60);
    OnFirstDay(phoneNumber, start, 61);
    OnFirstDay(phoneNumber, start, 300);
  }

  /** Calls of more than five minutes that start at midnight on any day, in cents. */
  lemma LongNightCalls(phoneNumber: string, start: int)
    requires TimeOfDay(start) == 0
    ensures EntryCost(LogEntry(phoneNumber, start, start + 301)) == 270
    ensures EntryCost(LogEntry(phoneNumber, start, start + 360)) == 270
    ensures EntryCost(LogEntry(phoneNumber, start, start + 361)) == 290
  {
    OnFirstDay(phoneNumber, start, 301);
    OnFirstDay(phoneNumber, start, 360);
    OnFirstDay(phoneNumber, start, 361);
  }

  /**
   * A call from 07:58:00 to 08:03:01: two night minutes, three day minutes
   * (the third is priced at 08:00:01) and one long-call minute.
   */
  lemma CallIntoFrequentHours(phoneNumber: string, start: int)
    requires TimeOfDay(start) == 7 * 3600 + 58 * 60
    ensures EntryCost(LogEntry(phoneNumber, start, start + 301)) == 420
  {
    OnFirstDay(phoneNumber, start, 301);
  }

  /** A 25-hour call from midnight: five night minutes and 1495 long-call minutes. */
  lemma DayLongCall(phoneNumber: string, start: int)
    requires TimeOfDay(start) == 0
    ensures EntryCost(LogEntry(phoneNumber, start, start + 25 * 3600)) == 5 * 50 + 1495 * 20
  {
    OnFirstDay(phoneNumber, start, 25 * 3600);
  }

  /** Calls that start at 08:00:00 on any day, in cents. */
  lemma MorningCalls(phoneNumber: string, start: int)
    requires TimeOfDay(start) == 8 * 3600
    ensures EntryCost(LogEntry(phoneNumber, start, start + 60)) == 100
    ensures EntryCost(LogEntry(phoneNumber, start, start + 300)) == 500
    ensures EntryCost(LogEntry(phoneNumber, start, start + 600)) == 600
  {
    OnFirstDay(phoneNumber, start, 60);
    OnFirstDay(phoneNumber, start, 300);
    OnFirstDay(phoneNumber, start, 600);
  }

  /** Calls of `phoneNumber` that start at `starts`, each `duration` seconds long. */
  function Block(phoneNumber: string, starts: seq<int>, duration: int): (block: seq<LogEntry>)
    ensures |block| == |starts|
    ensures forall i | 0 <= i < |block| :: block[i] == LogEntry(phoneNumber, starts[i], starts[i] + duration)
  {
    seq(|starts|, i requires 0 <= i < |starts| => LogEntry(phoneNumber, starts[i], starts[i] + duration))
  }

  predicate AllAtEight(starts: seq<int>)
  {
    forall i | 0 <= i < |starts| :: TimeOfDay(starts[i]) == 8 * 3600
  }

  /** Records of equal cost cost that price times their number. */
  lemma {:induction false} UniformCost(block: seq<LogEntry>, price: nat)
    requires AllValid(block)
    requires forall i | 0 <= i < |block| :: EntryCost(block[i]) == price
    ensures TotalCost(block) == |block| * price
    decreases |block|
  {
    if block != [] {
      assert AllValid(block[1..]);
      UniformCost(block[1..], price);
      OneMore(|block| - 1, price);
    }
  }

  /** A block of equally priced calls costs that price times the number of calls. */
  lemma BlockCost(phoneNumber: string, starts: seq<int>, duration: int, price: nat)
    requires IsDigitString(phoneNumber) && duration > 0
    requires forall i | 0 <= i < |starts| ::
      EntryCost(LogEntry(phoneNumber, starts[i], starts[i] + duration)) == price
    ensures AllValid(Block(phoneNumber, starts, duration))
    ensures TotalCost(Block(phoneNumber, starts, duration)) == |starts| * price
  {
    UniformCost(Block(phoneNumber, starts, duration), price);
  }

  lemma OneMore(n: nat, p: nat)
    ensures (n + 1) * p == p + n * p
  {
  }

  /** A block of morning calls of one number, each of the same length. */
  lemma MorningBlock(phoneNumber: string, starts: seq<int>, duration: int, price: nat)
    requires IsDigitString(phoneNumber) && AllAtEight(starts)
    requires (duration, price) == (60, 100) || (duration, price) == (300, 500) || (duration, price) == (600, 600)
    ensures AllValid(Block(phoneNumber, starts, duration))
    ensures TotalCost(Block(phoneNumber, starts, duration)) == |starts| * price
  {
    forall i | 0 <= i < |starts| ensures EntryCost(LogEntry(phoneNumber, starts[i], starts[i] + duration)) == price {
      MorningCalls(phoneNumber, starts[i]);
    }
    BlockCost(phoneNumber, starts, duration, price);
  }

  /** The morning blocks of the two worked logs: one-minute, five-minute and ten-minute calls. */
  lemma MorningBlocks(a: seq<int>, b: seq<int>, c: seq<int>)
    requires AllAtEight(a) && AllAtEight(b) && AllAtEight(c)
    ensures AllValid(Block("420774577453", a, 60)) && TotalCost(Block("420774577453", a, 60)) == |a| * 100
    ensures AllValid(Block("421774577453", b, 300)) && TotalCost(Block("421774577453", b, 300)) == |b| * 500
    ensures AllValid(Block("422774577453", c, 600)) && TotalCost(Block("422774577453", c, 600)) == |c| * 600
  {
    MorningBlock("420774577453", a, 60, 100);
    MorningBlock("421774577453", b, 300, 500);
    MorningBlock("422774577453", c, 600, 600);
  }

  predicate OneNumber(entries: seq<LogEntry>, phoneNumber: string)
  {
    forall i | 0 <= i < |entries| :: entries[i].phoneNumber == phoneNumber
  }

  /** The record counts of a log made of three blocks, each of one number. */
  lemma BlocksCount(b1: seq<LogEntry>, n1: string, b2: seq<LogEntry>, n2: string, b3: seq<LogEntry>, n3: string)
    requires OneNumber(b1, n1) && OneNumber(b2, n2) && OneNumber(b3, n3)
    ensures forall n :: (Count(b1 + b2 + b3, n) ==
      (if n == n1 then |b1| else 0) + (if n == n2 then |b2| else 0) + (if n == n3 then |b3| else 0))
  {
    forall n ensures Count(b1 + b2 + b3, n) ==
      (if n == n1 then |b1| else 0) + (if n == n2 then |b2| else 0) + (if n == n3 then |b3| else 0)
    {
      CountAppend(b1, b2, n);
      CountAppend(b1 + b2, b3, n);
      CountUniform(b1, n1, n);
      CountUniform(b2, n2, n);
      CountUniform(b3, n3, n);
    }
  }

  /** The bill of a log made of three blocks, each of one number: the blocks of the other numbers. */
  lemma BlocksCost(b1: seq<LogEntry>, n1: string, b2: seq<LogEntry>, n2: string,
                   b3: seq<LogEntry>, n3: string, excluded: string)
    requires OneNumber(b1, n1) && OneNumber(b2, n2) && OneNumber(b3, n3)
    requires AllValid(b1) && AllValid(b2) && AllValid(b3)
    ensures AllValid(b1 + b2 + b3)
    ensures PhoneLogCost(b1 + b2 + b3, excluded) ==
      (if n1 == excluded then 0 else TotalCost(b1)) + (if n2 == excluded then 0 else TotalCost(b2)) +
      (if n3 == excluded then 0 else TotalCost(b3))
  {
    PhoneLogCostAppend(b1, b2, excluded);
    PhoneLogCostAppend(b1 + b2, b3, excluded);
    BillableUniform(b1, n1, excluded);
    BillableUniform(b2, n2, excluded);
    BillableUniform(b3, n3, excluded);
  }

  /**
   * In a log of three blocks of distinct numbers whose middle block is at least
   * as long as the others and longer than the first, the middle number is the
   * most called, or the last one when it has as many records.
   */
  lemma BlocksLeader(b1: seq<LogEntry>, n1: string, b2: seq<LogEntry>, n2: string, b3: seq<LogEntry>, n3: string)
    requires OneNumber(b1, n1) && OneNumber(b2, n2) && OneNumber(b3, n3)
    requires n1 != n2 && n2 != n3 && n1 != n3
    requires |b1| < |b2| && |b3| <= |b2|
    ensures var log := b1 + b2 + b3;
      |log| > 0 && Count(log, n2) == |b2| && Count(log, n3) == |b3| &&
      (MostCalledNumber(log) == n2 || (|b3| == |b2| && MostCalledNumber(log) == n3))
  {
    var log := b1 + b2 + b3;
    assert log[|b1|] == b2[0];
    BlocksCount(b1, n1, b2, n2, b3, n3);
    var w := MostCalledNumber(log);
    assert Count(log, w) >= Count(log, log[|b1|].phoneNumber);
  }

  /**
   * A call followed by two records of another number: the other number is the
   * most called, so the bill is the cost of that one call.
   */
  lemma OneBilledCall(call: LogEntry, others: seq<LogEntry>, other: string)
    requires ValidEntry(call) && AllValid(others) && OneNumber(others, other)
    requires |others| == 2 && call.phoneNumber != other
    ensures AllValid([call] + others)
    ensures MostCalledNumber([call] + others) == other
    ensures PhoneLogCost([call] + others, other) == EntryCost(call)
  {
    var log := [call] + others;
    assert log[1] == others[0];
    BlocksCount([call], call.phoneNumber, others, other, [], other);
    assert log == [call] + others + [];
    var w := MostCalledNumber(log);
    assert Count(log, w) >= Count(log, log[1].phoneNumber);
    BlocksCost([call], call.phoneNumber, others, other, [], other, other);
  }

  /** The three numbers of the worked logs are different. */
  lemma DistinctNumbers()
    ensures "420774577453" != "421774577453" && "421774577453" != "422774577453" &&
      "420774577453" != "422774577453"
  {
    assert "420774577453"[2] == '0' && "421774577453"[2] == '1' && "422774577453"[2] == '2';
  }

  /** One record of 420774577453, three of 421774577453 and two of 422774577453: the second is the most called. */
  lemma MostCallsWinner(b1: seq<LogEntry>, b2: seq<LogEntry>, b3: seq<LogEntry>)
    requires OneNumber(b1, "420774577453") && OneNumber(b2, "421774577453") && OneNumber(b3, "422774577453")
    requires |b1| == 1 && |b2| == 3 && |b3| == 2
    ensures MostCalledNumber(b1 + b2 + b3) == "421774577453"
  {
    DistinctNumbers();
    BlocksLeader(b1, "420774577453", b2, "421774577453", b3, "422774577453");
  }

  /**
   * One record of 420774577453, two of 421774577453 and two of 422774577453:
   * the last two tie on count and the numerically larger one is the most called.
   */
  lemma TieWinner(b1: seq<LogEntry>, b2: seq<LogEntry>, b3: seq<LogEntry>)
    requires OneNumber(b1, "420774577453") && OneNumber(b2, "421774577453") && OneNumber(b3, "422774577453")
    requires |b1| == 1 && |b2| == 2 && |b3| == 2
    ensures MostCalledNumber(b1 + b2 + b3) == "422774577453"
  {
    var log := b1 + b2 + b3;
    assert log[3] == b3[0];
    DistinctNumbers();
    BlocksLeader(b1, "420774577453", b2, "421774577453", b3, "422774577453");
    LargerNumber();
    TieBreak(log, 3, "421774577453", "422774577453");
  }

  /** Of two numbers called equally often, the winner is not the numerically smaller one. */
  lemma TieBreak(log: seq<LogEntry>, i: nat, smaller: string, larger: string)
    requires i < |log| && log[i].phoneNumber == larger && Count(log, smaller) == Count(log, larger)
    requires MostCalledNumber(log) == smaller || MostCalledNumber(log) == larger
    requires NumericValue(smaller) < NumericValue(larger)
    ensures MostCalledNumber(log) == larger
  {
  }

  /**
   * Three five-minute calls of 421774577453 are free; one minute of
   * 420774577453 and two ten-minute calls of 422774577453 cost 1 + 2 * 6.
   */
  lemma MostCallsAreFree(a: seq<int>, b: seq<int>, c: seq<int>)
    requires |a| == 1 && |b| == 3 && |c| == 2 && AllAtEight(a) && AllAtEight(b) && AllAtEight(c)
    ensures var log := Block("420774577453", a, 60) + Block("421774577453", b, 300) +
        Block("422774577453", c, 600);
      AllValid(log) && MostCalledNumber(log) == "421774577453" &&
      PhoneLogCost(log, MostCalledNumber(log)) == 1300
  {
    var b1, b2, b3 := Block("420774577453", a, 60), Block("421774577453", b, 300),
      Block("422774577453", c, 600);
    MorningBlocks(a, b, c);
    MostCallsWinner(b1, b2, b3);
    BlocksCost(b1, "420774577453", b2, "421774577453", b3, "422774577453", "421774577453");
  }

  /**
   * Two five-minute calls of 421774577453 and two ten-minute calls of
   * 422774577453 tie on count; the larger number, 422774577453, is free, and
   * the bill is one minute plus two times five minutes.
   */
  lemma TieGoesToLargerNumber(a: seq<int>, b: seq<int>, c: seq<int>)
    requires |a| == 1 && |b| == 2 && |c| == 2 && AllAtEight(a) && AllAtEight(b) && AllAtEight(c)
    ensures var log := Block("420774577453", a, 60) + Block("421774577453", b, 300) +
        Block("422774577453", c, 600);
      AllValid(log) && MostCalledNumber(log) == "422774577453" &&
      PhoneLogCost(log, MostCalledNumber(log)) == 1100
  {
    var b1, b2, b3 := Block("420774577453", a, 60), Block("421774577453", b, 300),
      Block("422774577453", c, 600);
    MorningBlocks(a, b, c);
    TieWinner(b1, b2, b3);
    BlocksCost(b1, "420774577453", b2, "421774577453", b3, "422774577453", "422774577453");
  }

  lemma LargerNumber()
    ensures NumericValue("421774577453") < NumericValue("422774577453")
  {
    assert "421774577453" == "42" + ['1'] + "774577453";
    assert "422774577453" == "42" + ['2'] + "774577453";
    DigitsOrder("42", '1', "774577453", '2', "774577453");
  }
}
