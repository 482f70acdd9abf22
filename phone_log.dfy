/**
 * The call records and the parser that reads them from the log text
 * (`LogEntry` and `parsePhoneLog`).
 *
 * Each line is `<digits>,<dd-MM-yyyy HH:mm:ss>,<dd-MM-yyyy HH:mm:ss>`. The
 * lines are read in order, and the first line that breaks a rule aborts the
 * whole log with the error of the first rule it breaks.
 */
module PhoneLog {
  import opened Text
  import opened Timestamps

  /** One call: the number called and the instants, in seconds, it started and ended. */
  datatype LogEntry = LogEntry(phoneNumber: string, start: int, end: int)

  /** Which `require` of the parser a line broke (`IllegalArgumentException`). */
  datatype ArgumentRule = PhoneNumberInvalid | StartNotBeforeEnd

  datatype ParseError =
    | InvalidArgument(rule: ArgumentRule)  // a `require` failed
    | MalformedTimestamp                   // `DateTimeParseException`
    | MissingFields                        // fewer than three fields to destructure

  datatype Result<+T> = Success(value: T) | Failure(error: ParseError)

  /** What every record handed to the rating engine satisfies. */
  predicate ValidEntry(e: LogEntry)
  {
    IsDigitString(e.phoneNumber) && e.start < e.end
  }

  predicate AllValid(entries: seq<LogEntry>)
  {
    forall i | 0 <= i < |entries| :: ValidEntry(entries[i])
  }

  /**
   * One line of the log: split into three fields, check the number, parse the
   * start, then the end, then check that the call starts before it ends.
   */
  function ParseLine(line: string): (r: Result<LogEntry>)
    ensures r.Success? ==> ValidEntry(r.value)
  {
    match SplitFields(line)
    case None => Failure(MissingFields)
    case Some((phoneNumber, startText, endText)) =>
      if !IsDigitString(phoneNumber) then Failure(InvalidArgument(PhoneNumberInvalid))
      else
        match ParseTimestamp(startText)
        case None => Failure(MalformedTimestamp)
        case Some(start) =>
          match ParseTimestamp(endText)
          case None => Failure(MalformedTimestamp)
          case Some(end) =>
            if !(start < end) then Failure(InvalidArgument(StartNotBeforeEnd))
            else Success(LogEntry(phoneNumber, start, end))
  }

  /**
   * The outcome of `map` over results computed in order: every value when all
   * succeed, otherwise the first failure (the exception that stops the map).
   */
  function Collect<T>(results: seq<Result<T>>): (r: Result<seq<T>>)
    ensures r.Success? ==>
      |r.value| == |results| && forall i | 0 <= i < |results| :: results[i] == Success(r.value[i])
    decreases |results|
  {
    if results == [] then Success([])
    else
      match results[0]
      case Failure(err) => Failure(err)
      case Success(x) =>
        match Collect(results[1..])
        case Failure(err) => Failure(err)
        case Success(xs) => Success([x] + xs)
  }

  /** The collection succeeds exactly when every result does. */
  lemma {:induction false} CollectSucceeds<T>(results: seq<Result<T>>)
    ensures Collect(results).Success? <==> forall i | 0 <= i < |results| :: results[i].Success?
    decreases |results|
  {
    if results != [] {
      CollectSucceeds(results[1..]);
      assert forall i | 1 <= i < |results| :: results[i] == results[1..][i - 1];
    }
  }

  /** The first failure aborts the collection, and its error is the collection's error. */
  lemma {:induction false} CollectAborts<T>(results: seq<Result<T>>, i: nat)
    requires i < |results| && results[i].Failure?
    requires forall j | 0 <= j < i :: results[j].Success?
    ensures Collect(results) == Failure(results[i].error)
    decreases i
  {
    if i > 0 {
      assert results[1..][i - 1] == results[i];
      assert forall j | 0 <= j < i - 1 :: results[1..][j] == results[j + 1];
      CollectAborts(results[1..], i - 1);
    }
  }

  /** Each line's own outcome, in order. */
  function LineResults(lines: seq<string>): (results: seq<Result<LogEntry>>)
    ensures |results| == |lines|
    ensures forall i | 0 <= i < |lines| :: results[i] == ParseLine(lines[i])
  {
    seq(|lines|, i requires 0 <= i < |lines| => ParseLine(lines[i]))
  }

  /** `lines.map { line -> ... }`: every line parsed, in order. */
  function ParseLines(lines: seq<string>): (r: Result<seq<LogEntry>>)
    ensures r.Success? ==> |r.value| == |lines| && AllValid(r.value)
  {
    Collect(LineResults(lines))
  }

  /** A log is accepted exactly when every one of its lines is, and then holds their records. */
  lemma ParseLinesSucceeds(lines: seq<string>)
    ensures ParseLines(lines).Success? <==> forall i | 0 <= i < |lines| :: ParseLine(lines[i]).Success?
    ensures ParseLines(lines).Success? ==>
      forall i | 0 <= i < |lines| :: ParseLine(lines[i]) == Success(ParseLines(lines).value[i])
  {
    CollectSucceeds(LineResults(lines));
  }

  /** The first line that fails aborts the log, and its error is the log's error. */
  lemma ParseLinesAborts(lines: seq<string>, i: nat)
    requires i < |lines| && ParseLine(lines[i]).Failure?
    requires forall j | 0 <= j < i :: ParseLine(lines[j]).Success?
    ensures ParseLines(lines) == Failure(ParseLine(lines[i]).error)
  {
    CollectAborts(LineResults(lines), i);
  }

  /** `parsePhoneLog`: the lines of the text, parsed in order. */
  function ParsePhoneLog(phoneLog: string): (r: Result<seq<LogEntry>>)
    ensures r.Success? ==> |r.value| >= 1 && AllValid(r.value)
  {
    ParseLines(Lines(phoneLog))
  }

  /** A line is refused for missing fields exactly when it has fewer than two commas. */
  lemma MissingFieldsRefused(line: string)
    ensures ParseLine(line) == Failure(MissingFields) <==> multiset(line)[','] < 2
  {
    SplitFieldsFails(line);
  }

  /** A number that is not a non-empty run of digits is refused before its timestamps are read. */
  lemma BadPhoneNumberRefused(phoneNumber: string, startText: string, endText: string)
    requires ',' !in phoneNumber && ',' !in startText && !IsDigitString(phoneNumber)
    ensures ParseLine(phoneNumber + "," + startText + "," + endText) == Failure(InvalidArgument(PhoneNumberInvalid))
  {
    SplitFieldsOfJoin(phoneNumber, startText, endText);
  }

  /** A valid number with a timestamp that does not parse is refused as malformed. */
  lemma BadTimestampRefused(phoneNumber: string, startText: string, endText: string)
    requires ',' !in phoneNumber && ',' !in startText && IsDigitString(phoneNumber)
    requires ParseDateTime(startText).None? || ParseDateTime(endText).None?
    ensures ParseLine(phoneNumber + "," + startText + "," + endText) == Failure(MalformedTimestamp)
  {
    SplitFieldsOfJoin(phoneNumber, startText, endText);
  }

  /** The line a record is written as, with both instants given as date-times. */
  function FormatLine(phoneNumber: string, start: DateTime, end: DateTime): string
    requires Valid(start) && Valid(end)
  {
    phoneNumber + "," + FormatDateTime(start) + "," + FormatDateTime(end)
  }

  /**
   * A well-formed line is read back as its record, and a line whose call does
   * not start strictly before it ends is refused with an argument error.
   */
  lemma ParseFormattedLine(phoneNumber: string, start: DateTime, end: DateTime)
    requires IsDigitString(phoneNumber) && Valid(start) && Valid(end)
    ensures Before(start, end) ==>
      ParseLine(FormatLine(phoneNumber, start, end)) ==
        Success(LogEntry(phoneNumber, EpochSeconds(start), EpochSeconds(end)))
    ensures !Before(start, end) ==>
      ParseLine(FormatLine(phoneNumber, start, end)) == Failure(InvalidArgument(StartNotBeforeEnd))
  {
    var line := FormatLine(phoneNumber, start, end);
    FormattedLineFields(phoneNumber, start, end);
    ParseLineOfFields(line, phoneNumber, FormatDateTime(start), FormatDateTime(end));
    EpochSecondsOrder(start, end);
  }

  /** A formatted line splits into its three fields, and both timestamps parse back. */
  lemma FormattedLineFields(phoneNumber: string, start: DateTime, end: DateTime)
    requires IsDigitString(phoneNumber) && Valid(start) && Valid(end)
    ensures SplitFields(FormatLine(phoneNumber, start, end)) ==
      Some((phoneNumber, FormatDateTime(start), FormatDateTime(end)))
    ensures ParseTimestamp(FormatDateTime(start)) == Some(EpochSeconds(start))
    ensures ParseTimestamp(FormatDateTime(end)) == Some(EpochSeconds(end))
  {
    DigitsHaveNoComma(phoneNumber);
    TimestampOfFormat(start);
    TimestampOfFormat(end);
    SplitFieldsOfJoin(phoneNumber, FormatDateTime(start), FormatDateTime(end));
  }

  /** The outcome of a line whose three fields are a number and two readable timestamps. */
  lemma ParseLineOfFields(line: string, phoneNumber: string, startText: string, endText: string)
    requires SplitFields(line) == Some((phoneNumber, startText, endText)) && IsDigitString(phoneNumber)
    requires ParseTimestamp(startText).Some? && ParseTimestamp(endText).Some?
    ensures var start, end := ParseTimestamp(startText).value, ParseTimestamp(endText).value;
      ParseLine(line) ==
        if start < end then Success(LogEntry(phoneNumber, start, end))
        else Failure(InvalidArgument(StartNotBeforeEnd))
  {
  }

  lemma DigitsHaveNoComma(s: string)
    requires AllDigits(s)
    ensures ',' !in s
  {
  }

  /** A formatted date-time holds no comma and parses back to its instant. */
  lemma TimestampOfFormat(dt: DateTime)
    requires Valid(dt)
    ensures ',' !in FormatDateTime(dt)
    ensures ParseTimestamp(FormatDateTime(dt)) == Some(EpochSeconds(dt))
  {
    ParseFormat(dt);
    PatternHasNoSeparator(FormatDateTime(dt));
  }

  /** A log written one record per line is read back line by line. */
  lemma ParseJoinedLines(lines: seq<string>)
    requires |lines| >= 1 && forall i | 0 <= i < |lines| :: HasNoLineBreak(lines[i])
    ensures ParsePhoneLog(JoinLines(lines)) == ParseLines(lines)
  {
    LinesOfJoin(lines);
  }

  /** A formatted line is one line of the log. */
  lemma FormatLineHasNoLineBreak(phoneNumber: string, start: DateTime, end: DateTime)
    requires IsDigitString(phoneNumber) && Valid(start) && Valid(end)
    ensures HasNoLineBreak(FormatLine(phoneNumber, start, end))
  {
    ParseFormat(start);
    ParseFormat(end);
    PatternHasNoSeparator(FormatDateTime(start));
    PatternHasNoSeparator(FormatDateTime(end));
    NoLineBreakInFields(phoneNumber, FormatDateTime(start), FormatDateTime(end));
  }

  lemma NoLineBreakInFields(a: string, b: string, c: string)
    requires AllDigits(a) && HasNoLineBreak(b) && HasNoLineBreak(c)
    ensures HasNoLineBreak(a + "," + b + "," + c)
  {
    var line := a + "," + b + "," + c;
    forall k | 0 <= k < |line| ensures !IsLineBreak(line[k]) {
      if k < |a| { assert line[k] == a[k]; }
      else if |a| < k < |a| + 1 + |b| { assert line[k] == b[k - |a| - 1]; }
      else if |a| + 1 + |b| < k { assert line[k] == c[k - |a| - 2 - |b|]; }
    }
  }
}
