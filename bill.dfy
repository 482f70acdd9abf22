/**
 * The bill for a whole log (`calculate` and `calculatePhoneLogCost`).
 *
 * An empty log costs nothing. Otherwise the log is parsed, the most-called
 * number is found, and the costs of all records of every other number are
 * added up; the records of the most-called number are free.
 */
module Bill {
  import opened Text
  import opened Timestamps
  import opened PhoneLog
  import opened Frequency
  import opened EntryRater

  /** `filter { it.phoneNumber != excluded }`. */
  function Billable(entries: seq<LogEntry>, excluded: string): (billed: seq<LogEntry>)
    ensures |billed| == |entries| - Count(entries, excluded)
    ensures forall i | 0 <= i < |billed| :: billed[i].phoneNumber != excluded
    decreases |entries|
  {
    if entries == [] then []
    else
      var rest := Billable(entries[1..], excluded);
      if entries[0].phoneNumber != excluded then [entries[0]] + rest else rest
  }

  /** The records of one number, the ones the filter drops. */
  function RecordsOf(entries: seq<LogEntry>, phoneNumber: string): (records: seq<LogEntry>)
    ensures |records| == Count(entries, phoneNumber)
    ensures forall i | 0 <= i < |records| :: records[i].phoneNumber == phoneNumber
    decreases |entries|
  {
    if entries == [] then []
    else
      var rest := RecordsOf(entries[1..], phoneNumber);
      if entries[0].phoneNumber == phoneNumber then [entries[0]] + rest else rest
  }

  /**
   * The filter splits the log: the records it keeps and the records of the
   * excluded number are, together, exactly the records of the log.
   */
  lemma {:induction false} FilterPartition(entries: seq<LogEntry>, excluded: string)
    ensures multiset(Billable(entries, excluded)) + multiset(RecordsOf(entries, excluded)) == multiset(entries)
    decreases |entries|
  {
    if entries != [] {
      FilterPartition(entries[1..], excluded);
      assert entries == [entries[0]] + entries[1..];
    }
  }

  lemma {:induction false} FilterValid(entries: seq<LogEntry>, excluded: string)
    requires AllValid(entries)
    ensures AllValid(Billable(entries, excluded)) && AllValid(RecordsOf(entries, excluded))
    decreases |entries|
  {
    if entries != [] {
      assert AllValid(entries[1..]);
      FilterValid(entries[1..], excluded);
    }
  }

  lemma AllValidSub(small: seq<LogEntry>, big: seq<LogEntry>)
    requires AllValid(big) && multiset(small) <= multiset(big)
    ensures AllValid(small)
  {
    forall i | 0 <= i < |small| ensures ValidEntry(small[i]) {
      assert small[i] in multiset(small);
      assert small[i] in multiset(big);
      var j :| 0 <= j < |big| && big[j] == small[i];
    }
  }

  /** `fold(ZERO) { currentCost, entry -> currentCost + calculateLogEntryCost(entry) }`. */
  function TotalCost(entries: seq<LogEntry>): (total: nat)
    requires AllValid(entries)
    ensures total >= 50 * |entries|
    decreases |entries|
  {
    if entries == [] then 0
    else
      EntryCostBounds(entries[0]);
      EntryCost(entries[0]) + TotalCost(entries[1..])
  }

  /** `calculatePhoneLogCost`: the total of every record not of the most-called number. */
  function PhoneLogCost(entries: seq<LogEntry>, mostCalledNumber: string): nat
    requires AllValid(entries)
  {
    FilterValid(entries, mostCalledNumber);
    TotalCost(Billable(entries, mostCalledNumber))
  }

  /** `calculate`. */
  function Calculate(phoneLog: string): (r: Result<nat>)
    ensures phoneLog == "" ==> r == Success(0)
  {
    if phoneLog == "" then Success(0)
    else
      match ParsePhoneLog(phoneLog)
      case Failure(err) => Failure(err)
      case Success(entries) => Success(PhoneLogCost(entries, MostCalledNumber(entries)))
  }

  lemma {:induction false} TotalCostAppend(a: seq<LogEntry>, b: seq<LogEntry>)
    requires AllValid(a) && AllValid(b)
    ensures AllValid(a + b) && TotalCost(a + b) == TotalCost(a) + TotalCost(b)
    decreases |a|
  {
    if a != [] {
      assert (a + b)[1..] == a[1..] + b;
      TotalCostAppend(a[1..], b);
    } else {
      assert a + b == b;
    }
  }

  lemma {:induction false} BillableAppend(a: seq<LogEntry>, b: seq<LogEntry>, excluded: string)
    ensures Billable(a + b, excluded) == Billable(a, excluded) + Billable(b, excluded)
    decreases |a|
  {
    if a == [] {
      assert a + b == b;
    } else {
      assert (a + b)[0] == a[0] && (a + b)[1..] == a[1..] + b;
      BillableAppend(a[1..], b, excluded);
    }
  }

  lemma {:induction false} RecordsOfAppend(a: seq<LogEntry>, b: seq<LogEntry>, phoneNumber: string)
    ensures RecordsOf(a + b, phoneNumber) == RecordsOf(a, phoneNumber) + RecordsOf(b, phoneNumber)
    decreases |a|
  {
    if a == [] {
      assert a + b == b;
    } else {
      assert (a + b)[0] == a[0] && (a + b)[1..] == a[1..] + b;
      RecordsOfAppend(a[1..], b, phoneNumber);
    }
  }

  /** The bill of two logs together is the sum of their bills. */
  lemma PhoneLogCostAppend(a: seq<LogEntry>, b: seq<LogEntry>, excluded: string)
    requires AllValid(a) && AllValid(b)
    ensures AllValid(a + b)
    ensures PhoneLogCost(a + b, excluded) == PhoneLogCost(a, excluded) + PhoneLogCost(b, excluded)
  {
    TotalCostAppend(a, b);
    BillableAppend(a, b, excluded);
    FilterValid(a, excluded);
    FilterValid(b, excluded);
    TotalCostAppend(Billable(a, excluded), Billable(b, excluded));
  }

  /**
   * Every record is either billed once or is a free record of the excluded
   * number: the bill and the cost of the excluded records add up to the cost of
   * the whole log.
   */
  lemma {:induction false} PhoneLogCostSplit(entries: seq<LogEntry>, excluded: string)
    requires AllValid(entries)
    ensures AllValid(RecordsOf(entries, excluded))
    ensures PhoneLogCost(entries, excluded) + TotalCost(RecordsOf(entries, excluded)) == TotalCost(entries)
    decreases |entries|
  {
    if entries != [] {
      var head, tail := [entries[0]], entries[1..];
      assert entries == head + tail;
      assert AllValid(tail);
      PhoneLogCostSplit(tail, excluded);
      RecordsOfAppend(head, tail, excluded);
      PhoneLogCostAppend(head, tail, excluded);
      var rHead, rTail := RecordsOf(head, excluded), RecordsOf(tail, excluded);
      assert rHead == if entries[0].phoneNumber == excluded then head else [];
      TotalCostAppend(rHead, rTail);
      assert TotalCost(head) == EntryCost(entries[0]);
    }
  }

  /** Taking one record out of a log takes its own bill out of the log's bill. */
  lemma PhoneLogCostRemove(b: seq<LogEntry>, k: nat, excluded: string)
    requires AllValid(b) && k < |b|
    ensures AllValid(b[..k] + b[k + 1..])
    ensures PhoneLogCost(b, excluded) == PhoneLogCost([b[k]], excluded) + PhoneLogCost(b[..k] + b[k + 1..], excluded)
  {
    var left, right := b[..k], b[k + 1..];
    assert b == left + [b[k]] + right;
    assert AllValid(left) && AllValid(right);
    PhoneLogCostAppend(left, [b[k]], excluded);
    PhoneLogCostAppend(left + [b[k]], right, excluded);
    PhoneLogCostAppend(left, right, excluded);
  }

  lemma RemoveAt(s: seq<LogEntry>, k: nat)
    requires k < |s|
    ensures multiset(s[..k] + s[k + 1..]) + multiset{s[k]} == multiset(s)
  {
    assert s == s[..k] + [s[k]] + s[k + 1..];
  }

  /** Taking the first record out of one log and a copy of it out of a permutation leaves permutations. */
  lemma RemoveMatching(a: seq<LogEntry>, b: seq<LogEntry>, k: nat)
    requires multiset(a) == multiset(b) && a != [] && k < |b| && b[k] == a[0]
    ensures multiset(a[1..]) == multiset(b[..k] + b[k + 1..])
  {
    RemoveAt(a, 0);
    RemoveAt(b, k);
    assert a[..0] + a[1..] == a[1..];
    Cancel(multiset(a[1..]), multiset(b[..k] + b[k + 1..]), multiset{a[0]});
  }

  lemma Cancel(m: multiset<LogEntry>, n: multiset<LogEntry>, x: multiset<LogEntry>)
    requires m + x == n + x
    ensures m == n
  {
    forall y ensures m[y] == n[y] {
      assert (m + x)[y] == (n + x)[y];
    }
  }

  /** The bill does not depend on the order of the records. */
  lemma {:induction false} PhoneLogCostPermutation(a: seq<LogEntry>, b: seq<LogEntry>, excluded: string)
    requires AllValid(a) && multiset(a) == multiset(b)
    ensures AllValid(b) && PhoneLogCost(a, excluded) == PhoneLogCost(b, excluded)
    decreases |a|
  {
    AllValidSub(b, a);
    if a == [] {
      assert |b| == |multiset(b)| == 0;
    } else {
      var x, tail := a[0], a[1..];
      assert a == [x] + tail;
      assert x in multiset(b);
      var k :| 0 <= k < |b| && b[k] == x;
      var rest := b[..k] + b[k + 1..];
      RemoveMatching(a, b, k);
      PhoneLogCostRemove(b, k, excluded);
      PhoneLogCostPermutation(tail, rest, excluded);
      PhoneLogCostAppend([x], tail, excluded);
    }
  }

  /** A log of one number is dropped whole when that number is excluded and kept whole otherwise. */
  lemma {:induction false} BillableUniform(entries: seq<LogEntry>, owner: string, excluded: string)
    requires forall i | 0 <= i < |entries| :: entries[i].phoneNumber == owner
    ensures Billable(entries, excluded) == if owner == excluded then [] else entries
    decreases |entries|
  {
    if entries != [] {
      assert forall i | 0 <= i < |entries| - 1 :: entries[1..][i] == entries[i + 1];
      BillableUniform(entries[1..], owner, excluded);
      assert entries == [entries[0]] + entries[1..];
    }
  }

  /** When every record is of one number, that number is the most called and the bill is zero. */
  lemma OneNumberIsFree(entries: seq<LogEntry>)
    requires |entries| > 0 && AllValid(entries)
    requires forall i | 0 <= i < |entries| :: entries[i].phoneNumber == entries[0].phoneNumber
    ensures PhoneLogCost(entries, MostCalledNumber(entries)) == 0
  {
    var w := MostCalledNumber(entries);
    assert w == entries[0].phoneNumber;
    CountUniform(entries, w, w);
    assert |Billable(entries, w)| == 0;
  }

  /** A log whose first failing line is line `i` is refused with that line's error. */
  lemma CalculateAborts(phoneLog: string, i: nat)
    requires phoneLog != ""
    requires i < |Lines(phoneLog)| && ParseLine(Lines(phoneLog)[i]).Failure?
    requires forall j | 0 <= j < i :: ParseLine(Lines(phoneLog)[j]).Success?
    ensures Calculate(phoneLog) == Failure(ParseLine(Lines(phoneLog)[i]).error)
  {
    ParseLinesAborts(Lines(phoneLog), i);
  }

  /**
   * A non-empty log is billed exactly when every line parses, and then the bill
   * plus the cost of the most-called number's records is the cost of all
   * records, where the most-called number has the most records and, among
   * numbers with as many, the largest value.
   */
  lemma CalculateTotal(phoneLog: string)
    requires phoneLog != ""
    ensures Calculate(phoneLog).Success? <==>
      forall i | 0 <= i < |Lines(phoneLog)| :: ParseLine(Lines(phoneLog)[i]).Success?
    ensures Calculate(phoneLog).Success? ==>
      var entries := ParsePhoneLog(phoneLog).value;
      var winner := MostCalledNumber(entries);
      IsMostCalled(entries, winner) && AllValid(RecordsOf(entries, winner)) &&
      Calculate(phoneLog).value + TotalCost(RecordsOf(entries, winner)) == TotalCost(entries)
  {
    ParseLinesSucceeds(Lines(phoneLog));
    assert ParsePhoneLog(phoneLog) == ParseLines(Lines(phoneLog));
    assert Calculate(phoneLog).Success? == ParsePhoneLog(phoneLog).Success?;
    if Calculate(phoneLog).Success? {
      var entries := ParsePhoneLog(phoneLog).value;
      PhoneLogCostSplit(entries, MostCalledNumber(entries));
    }
  }

  /** A one-line log is billed as that line alone: its error when refused, and nothing otherwise. */
  lemma SingleLine(line: string)
    requires line != "" && HasNoLineBreak(line)
    ensures ParseLine(line).Failure? ==> Calculate(line) == Failure(ParseLine(line).error)
    ensures ParseLine(line).Success? ==> Calculate(line) == Success(0)
  {
    LinesOfJoin([line]);
    assert JoinLines([line]) == line;
    if ParseLine(line).Failure? {
      CalculateAborts(line, 0);
    } else {
      SingleRecordIsFree(line);
    }
  }

  lemma SingleRecordIsFree(line: string)
    requires line != "" && Lines(line) == [line] && ParseLine(line).Success?
    ensures Calculate(line) == Success(0)
  {
    ParseLinesSucceeds([line]);
    assert ParsePhoneLog(line) == ParseLines([line]);
    var entries := ParsePhoneLog(line).value;
    assert entries == [ParseLine(line).value];
    OneNumberIsFree(entries);
    assert Calculate(line) == Success(PhoneLogCost(entries, MostCalledNumber(entries)));
  }

  /**
   * A log of one formatted record costs nothing, its number being the most
   * called, unless the call does not start strictly before it ends.
   */
  lemma OneRecordLog(phoneNumber: string, start: DateTime, end: DateTime)
    requires IsDigitString(phoneNumber) && Valid(start) && Valid(end)
    ensures Calculate(FormatLine(phoneNumber, start, end)) ==
      if Before(start, end) then Success(0) else Failure(InvalidArgument(StartNotBeforeEnd))
  {
    ParseFormattedLine(phoneNumber, start, end);
    FormatLineHasNoLineBreak(phoneNumber, start, end);
    SingleLine(FormatLine(phoneNumber, start, end));
  }
}
