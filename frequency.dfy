/**
 * The most-called number (`findMostCalledNumber`).
 *
 * The records are grouped by number, in the order each number first appears
 * (`groupBy`); the groups are sorted stably by record count and then by the
 * number's numeric value, and the last group wins. Taking the last of a stable
 * sort is the same as scanning the groups in order and moving to each group
 * that ranks at least as high as the best so far, which is what `Best` does.
 */
module Frequency {
  import opened Text
  import opened PhoneLog

  /** Number of records for `phoneNumber`, the size of its group. */
  function Count(entries: seq<LogEntry>, phoneNumber: string): (n: nat)
    ensures n <= |entries|
    decreases |entries|
  {
    if entries == [] then 0
    else (if entries[0].phoneNumber == phoneNumber then 1 else 0) + Count(entries[1..], phoneNumber)
  }

  /** Counting is additive over concatenated logs. */
  lemma {:induction false} CountAppend(a: seq<LogEntry>, b: seq<LogEntry>, phoneNumber: string)
    ensures Count(a + b, phoneNumber) == Count(a, phoneNumber) + Count(b, phoneNumber)
    decreases |a|
  {
    if a == [] {
      assert a + b == b;
    } else {
      assert (a + b)[0] == a[0] && (a + b)[1..] == a[1..] + b;
      CountAppend(a[1..], b, phoneNumber);
    }
  }

  /** In a log of one number, that number has every record and any other number none. */
  lemma {:induction false} CountUniform(entries: seq<LogEntry>, owner: string, phoneNumber: string)
    requires forall i | 0 <= i < |entries| :: entries[i].phoneNumber == owner
    ensures Count(entries, phoneNumber) == if phoneNumber == owner then |entries| else 0
    decreases |entries|
  {
    if entries != [] {
      assert forall i | 0 <= i < |entries| - 1 :: entries[1..][i] == entries[i + 1];
      CountUniform(entries[1..], owner, phoneNumber);
    }
  }

  predicate Calls(entries: seq<LogEntry>, phoneNumber: string)
  {
    exists i | 0 <= i < |entries| :: entries[i].phoneNumber == phoneNumber
  }

  /** The keys of `groupBy { it.phoneNumber }`: each number once, in order of first appearance. */
  function GroupKeys(entries: seq<LogEntry>): (keys: seq<string>)
    ensures forall k | 0 <= k < |keys| :: Calls(entries, keys[k])
    ensures forall i | 0 <= i < |entries| :: entries[i].phoneNumber in keys
    ensures forall k, l | 0 <= k < l < |keys| :: keys[k] != keys[l]
    decreases |entries|
  {
    if entries == [] then []
    else
      var init := entries[..|entries| - 1];
      var last := entries[|entries| - 1].phoneNumber;
      var keys := GroupKeys(init);
      assert forall k | 0 <= k < |keys| :: Calls(entries, keys[k]) by {
        forall k | 0 <= k < |keys| ensures Calls(entries, keys[k]) {
          var i :| 0 <= i < |init| && init[i].phoneNumber == keys[k];
          assert entries[i] == init[i];
        }
      }
      assert forall i | 0 <= i < |init| :: entries[i] == init[i];
      if last in keys then keys else keys + [last]
  }

  /** The numeric value of a number, `toLong()` without its 64-bit limit. */
  function NumericValue(phoneNumber: string): nat
  {
    if AllDigits(phoneNumber) then DigitsValue(phoneNumber) else 0
  }

  /** `compareBy({ it.value.size }, { it.key.toLong() })`: `a` ranks at least as high as `b`. */
  predicate RanksAtLeast(entries: seq<LogEntry>, a: string, b: string)
  {
    Count(entries, a) > Count(entries, b) ||
    (Count(entries, a) == Count(entries, b) && NumericValue(a) >= NumericValue(b))
  }

  /**
   * The last of `keys` after a stable sort by rank: the key that ranks highest,
   * and among equally ranked keys the one that comes last.
   */
  function Best(entries: seq<LogEntry>, keys: seq<string>): (best: string)
    requires |keys| > 0
    ensures best in keys
    ensures forall k | 0 <= k < |keys| :: Count(entries, keys[k]) <= Count(entries, best)
    ensures forall k | 0 <= k < |keys| :: Count(entries, keys[k]) == Count(entries, best) ==>
      NumericValue(keys[k]) <= NumericValue(best)
    decreases |keys|
  {
    if |keys| == 1 then keys[0]
    else
      var init := keys[..|keys| - 1];
      var previous := Best(entries, init);
      var candidate := keys[|keys| - 1];
      assert forall k | 0 <= k < |keys| - 1 :: keys[k] == init[k];
      if RanksAtLeast(entries, candidate, previous) then candidate else previous
  }

  /** `findMostCalledNumber`. */
  function MostCalledNumber(entries: seq<LogEntry>): (winner: string)
    requires |entries| > 0
    ensures Calls(entries, winner)
    ensures forall i | 0 <= i < |entries| :: Count(entries, entries[i].phoneNumber) <= Count(entries, winner)
    ensures forall i | 0 <= i < |entries| ::
      Count(entries, entries[i].phoneNumber) == Count(entries, winner) ==>
        NumericValue(entries[i].phoneNumber) <= NumericValue(winner)
  {
    var keys := GroupKeys(entries);
    assert entries[0].phoneNumber in keys;
    var winner := Best(entries, keys);
    assert forall i | 0 <= i < |entries| :: exists k | 0 <= k < |keys| :: keys[k] == entries[i].phoneNumber;
    winner
  }

  /**
   * The most-called number as a property: it is called, no number is called
   * more often, and no equally often called number is numerically larger.
   */
  predicate IsMostCalled(entries: seq<LogEntry>, m: string)
  {
    Calls(entries, m) &&
    (forall i | 0 <= i < |entries| :: Count(entries, entries[i].phoneNumber) <= Count(entries, m)) &&
    (forall i | 0 <= i < |entries| ::
      Count(entries, entries[i].phoneNumber) == Count(entries, m) ==>
        NumericValue(entries[i].phoneNumber) <= NumericValue(m))
  }

  /** No two different numbers of the log have the same numeric value (no leading-zero twins). */
  predicate DistinctValues(entries: seq<LogEntry>)
  {
    forall i, j | 0 <= i < |entries| && 0 <= j < |entries| ::
      NumericValue(entries[i].phoneNumber) == NumericValue(entries[j].phoneNumber) ==>
        entries[i].phoneNumber == entries[j].phoneNumber
  }

  /**
   * The property singles out the number the resolver picks: when no two numbers
   * share a numeric value, the most-called number is the only number with it.
   */
  lemma MostCalledIsUnique(entries: seq<LogEntry>, m: string)
    requires |entries| > 0 && DistinctValues(entries) && IsMostCalled(entries, m)
    ensures m == MostCalledNumber(entries)
  {
    var w := MostCalledNumber(entries);
    var i :| 0 <= i < |entries| && entries[i].phoneNumber == m;
    var j :| 0 <= j < |entries| && entries[j].phoneNumber == w;
    assert Count(entries, m) == Count(entries, w);
    assert NumericValue(m) == NumericValue(w);
  }

  /** With a single record its number is the most called. */
  lemma SingleRecord(entry: LogEntry)
    ensures MostCalledNumber([entry]) == entry.phoneNumber
  {
  }
}
