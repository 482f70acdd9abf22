/**
 * The string operations the parser relies on: Kotlin's `lines()`, the
 * `split(",", limit = 3)` that is destructured into three fields, and the
 * `\d+` phone-number pattern, together with fixed-width decimal numbers.
 */
module Text {

  datatype Option<+T> = None | Some(value: T)

  predicate IsDigit(c: char)
  {
    '0' <= c <= '9'
  }

  predicate AllDigits(s: string)
  {
    forall i | 0 <= i < |s| :: IsDigit(s[i])
  }

  /** `Regex("""\d+""").matches(s)`: at least one character, every one an ASCII digit. */
  predicate IsDigitString(s: string)
  {
    |s| > 0 && AllDigits(s)
  }

  function DigitValue(c: char): (v: nat)
    requires IsDigit(c)
    ensures v < 10
  {
    c as int - '0' as int
  }

  function Digit(v: nat): (c: char)
    requires v < 10
    ensures IsDigit(c) && DigitValue(c) == v
  {
    ('0' as int + v) as char
  }

  /** The natural number a string of decimal digits denotes (leading zeros allowed). */
  function DigitsValue(s: string): nat
    requires AllDigits(s)
    decreases |s|
  {
    if s == [] then 0 else DigitsValue(s[..|s| - 1]) * 10 + DigitValue(s[|s| - 1])
  }

  function Pow10(n: nat): (p: nat)
    ensures p >= 1
  {
    if n == 0 then 1 else 10 * Pow10(n - 1)
  }

  lemma {:induction false} DigitsBound(s: string)
    requires AllDigits(s)
    ensures DigitsValue(s) < Pow10(|s|)
    decreases |s|
  {
    if s != [] {
      DigitsBound(s[..|s| - 1]);
    }
  }

  /** The digits of `u` followed by those of `v` denote `u`'s value shifted past `v`'s digits plus `v`'s value. */
  lemma {:induction false} DigitsValueAppend(u: string, v: string)
    requires AllDigits(u) && AllDigits(v)
    ensures AllDigits(u + v) && DigitsValue(u + v) == DigitsValue(u) * Pow10(|v|) + DigitsValue(v)
    decreases |v|
  {
    var w := u + v;
    assert AllDigits(w) by {
      forall k | 0 <= k < |w| ensures IsDigit(w[k]) {
        if k >= |u| { assert w[k] == v[k - |u|]; }
      }
    }
    if v == [] {
      assert w == u;
    } else {
      var init, d := v[..|v| - 1], DigitValue(v[|v| - 1]);
      assert w[..|w| - 1] == u + init && w[|w| - 1] == v[|v| - 1];
      DigitsValueAppend(u, init);
      var a, p := DigitsValue(u), Pow10(|init|);
      assert DigitsValue(w) == (a * p + DigitsValue(init)) * 10 + d;
      assert DigitsValue(v) == DigitsValue(init) * 10 + d;
      assert Pow10(|v|) == p * 10;
      Regroup(a, p, DigitsValue(init), d);
    }
  }

  /**
   * Two digit strings of the same length compare by value as they compare
   * at the first digit where they differ.
   */
  lemma DigitsOrder(p: string, x: char, q: string, y: char, r: string)
    requires AllDigits(p) && IsDigit(x) && AllDigits(q) && IsDigit(y) && AllDigits(r)
    requires |q| == |r| && x < y
    ensures AllDigits(p + [x] + q) && AllDigits(p + [y] + r)
    ensures DigitsValue(p + [x] + q) < DigitsValue(p + [y] + r)
  {
    DigitsValueAppend(p, [x]);
    DigitsValueAppend(p, [y]);
    DigitsValueAppend(p + [x], q);
    DigitsValueAppend(p + [y], r);
    DigitsBound(q);
    var big := Pow10(|q|);
    var hx, hy := DigitsValue(p + [x]), DigitsValue(p + [y]);
    assert hx < hy by {
      assert DigitsValue([x]) == DigitValue(x) by { assert [x][..0] == []; }
      assert DigitsValue([y]) == DigitValue(y) by { assert [y][..0] == []; }
    }
    ShiftedLess(hx, DigitsValue(q), hy, DigitsValue(r), big);
  }

  lemma Regroup(a: int, p: int, b: int, d: int)
    ensures (a * p + b) * 10 + d == a * (p * 10) + (b * 10 + d)
  {
  }

  lemma ShiftedLess(high1: nat, low1: nat, high2: nat, low2: nat, base: nat)
    requires high1 < high2 && low1 < base
    ensures high1 * base + low1 < high2 * base + low2
  {
    assert (high1 + 1) * base <= high2 * base;
  }

  /** `n` written with exactly `width` digits, padded with leading zeros. */
  function PadDigits(n: nat, width: nat): (s: string)
    requires n < Pow10(width)
    ensures |s| == width && AllDigits(s)
    ensures DigitsValue(s) == n
    decreases width
  {
    if width == 0 then ""
    else
      var prefix := PadDigits(n / 10, width - 1);
      var s := prefix + [Digit(n % 10)];
      assert s[..|s| - 1] == prefix;
      s
  }

  /** Position of the first `c` at or after `from`, if any. */
  function IndexOf(s: string, c: char, from: nat): (r: Option<nat>)
    requires from <= |s|
    ensures r.None? <==> c !in s[from..]
    ensures r.Some? ==> from <= r.value < |s| && s[r.value] == c && c !in s[from..r.value]
    decreases |s| - from
  {
    if from == |s| then None
    else if s[from] == c then Some(from)
    else
      assert s[from..] == [s[from]] + s[from + 1..];
      var r := IndexOf(s, c, from + 1);
      assert r.Some? ==> s[from..r.value] == [s[from]] + s[from + 1..r.value];
      r
  }

  /**
   * `line.split(",", limit = 3)` destructured as `val (a, b, c)`: the text up to
   * the first comma, the text up to the second, and all the rest (which may hold
   * more commas). `None` when there are fewer than three parts, where the
   * destructuring throws.
   */
  function SplitFields(line: string): (r: Option<(string, string, string)>)
    ensures r.Some? ==> line == r.value.0 + "," + r.value.1 + "," + r.value.2
    ensures r.Some? ==> ',' !in r.value.0 && ',' !in r.value.1
  {
    match IndexOf(line, ',', 0)
    case None => None
    case Some(i) =>
      match IndexOf(line, ',', i + 1)
      case None => None
      case Some(j) =>
        JoinAtCommas(line, i, j);
        Some((line[..i], line[i + 1..j], line[j + 1..]))
  }

  /** Splitting fails exactly when the line holds fewer than two commas. */
  lemma SplitFieldsFails(line: string)
    ensures SplitFields(line).None? <==> multiset(line)[','] < 2
  {
    match IndexOf(line, ',', 0)
    case None =>
      assert line[0..] == line;
    case Some(i) =>
      assert line[0..i] == line[..i];
      CountAfterFirst(line, i);
      match IndexOf(line, ',', i + 1)
      case None =>
        NoneCounted(line[i + 1..]);
      case Some(j) =>
  }

  lemma JoinAtCommas(line: string, i: nat, j: nat)
    requires i < j < |line| && line[i] == ',' && line[j] == ','
    ensures line == line[..i] + "," + line[i + 1..j] + "," + line[j + 1..]
  {
    assert line == line[..i] + [line[i]] + line[i + 1..j] + [line[j]] + line[j + 1..];
  }

  lemma NoneCounted(s: string)
    requires ',' !in s
    ensures multiset(s)[','] == 0
  {
  }

  /** A comma with no comma before it adds one to the count of what follows it. */
  lemma CountAfterFirst(s: string, i: nat)
    requires i < |s| && s[i] == ',' && ',' !in s[..i]
    ensures multiset(s)[','] == 1 + multiset(s[i + 1..])[',']
  {
    assert s == s[..i] + [s[i]] + s[i + 1..];
    NoneCounted(s[..i]);
  }

  /** Splitting recovers the fields of a line whose first two fields hold no comma. */
  lemma SplitFieldsOfJoin(a: string, b: string, c: string)
    requires ',' !in a && ',' !in b
    ensures SplitFields(a + "," + b + "," + c) == Some((a, b, c))
  {
    var line := a + "," + b + "," + c;
    assert SplitFields(line).Some? by {
      AtLeastTwoCommas(a, b, c);
      SplitFieldsFails(line);
    }
    FieldsUnique(a, b, c, SplitFields(line).value);
  }

  /** Two splittings of one line whose first two fields hold no comma are the same. */
  lemma FieldsUnique(a: string, b: string, c: string, r: (string, string, string))
    requires ',' !in a && ',' !in b && ',' !in r.0 && ',' !in r.1
    requires a + "," + b + "," + c == r.0 + "," + r.1 + "," + r.2
    ensures r == (a, b, c)
  {
    var line := a + "," + b + "," + c;
    assert line == r.0 + "," + (r.1 + "," + r.2);
    assert line == a + "," + (b + "," + c);
    LeadingFieldUnique(a, b + "," + c, r.0, r.1 + "," + r.2);
    LeadingFieldUnique(b, c, r.1, r.2);
  }

  lemma AtLeastTwoCommas(a: string, b: string, c: string)
    ensures multiset(a + "," + b + "," + c)[','] >= 2
  {
    var line := a + "," + b + "," + c;
    assert line == a + [','] + (b + [','] + c);
    assert multiset(line) == multiset(a) + multiset{','} + (multiset(b) + multiset{','} + multiset(c));
  }

  /** The field before the first separator is determined by the line. */
  lemma LeadingFieldUnique(a: string, s: string, x: string, t: string)
    requires ',' !in a && ',' !in x
    requires a + "," + s == x + "," + t
    ensures a == x && s == t
  {
    var line := a + "," + s;
    assert line[|a|] == ',';
    if |a| < |x| {
      assert false;
    } else if |x| < |a| {
      IndexBeforeSeparator(a, s, |x|);
      assert false;
    }
    assert a == line[..|a|] == x;
    assert s == line[|a| + 1..] == t;
  }

  lemma IndexBeforeSeparator(x: string, t: string, i: nat)
    requires i < |x|
    ensures (x + "," + t)[i] == x[i]
  {
  }

  predicate IsLineBreak(c: char)
  {
    c == '\n' || c == '\r'
  }

  predicate HasNoLineBreak(s: string)
  {
    forall i | 0 <= i < |s| :: !IsLineBreak(s[i])
  }

  /**
   * Kotlin's `lines()`: the text between the line terminators "\r\n", "\n" and
   * "\r" (tried in that order). An empty text is one empty line, and a text that
   * ends with a terminator has an empty last line.
   */
  function Lines(s: string): (ls: seq<string>)
    ensures |ls| >= 1
    ensures forall i | 0 <= i < |ls| :: HasNoLineBreak(ls[i])
    decreases |s|
  {
    if s == [] then [""]
    else if s[0] == '\n' then [""] + Lines(s[1..])
    else if s[0] == '\r' then
      if |s| >= 2 && s[1] == '\n' then [""] + Lines(s[2..]) else [""] + Lines(s[1..])
    else
      var rest := Lines(s[1..]);
      [[s[0]] + rest[0]] + rest[1..]
  }

  /** The lines joined with "\n", the inverse of `Lines` on lines without terminators. */
  function JoinLines(ls: seq<string>): string
    requires |ls| >= 1
    decreases |ls|
  {
    if |ls| == 1 then ls[0] else ls[0] + "\n" + JoinLines(ls[1..])
  }

  /** Text without a line break before `t` extends the first line of `t`. */
  lemma {:induction false} LinesOfPrefix(x: string, t: string)
    requires HasNoLineBreak(x)
    ensures Lines(x + t) == [x + Lines(t)[0]] + Lines(t)[1..]
    decreases |x|
  {
    if x == [] {
      assert x + t == t;
      assert x + Lines(t)[0] == Lines(t)[0];
      assert [Lines(t)[0]] + Lines(t)[1..] == Lines(t);
    } else {
      assert (x + t)[1..] == x[1..] + t;
      assert !IsLineBreak((x + t)[0]);
      LinesOfPrefix(x[1..], t);
      var rest := Lines(x[1..] + t);
      assert Lines(x + t) == [[x[0]] + rest[0]] + rest[1..];
      assert [x[0]] + (x[1..] + Lines(t)[0]) == x + Lines(t)[0];
    }
  }

  lemma {:induction false} LinesOfJoin(ls: seq<string>)
    requires |ls| >= 1
    requires forall i | 0 <= i < |ls| :: HasNoLineBreak(ls[i])
    ensures Lines(JoinLines(ls)) == ls
    decreases |ls|
  {
    if |ls| == 1 {
      LinesOfPrefix(ls[0], "");
      assert ls[0] + "" == ls[0];
    } else {
      var rest := "\n" + JoinLines(ls[1..]);
      assert ls[0] + "\n" + JoinLines(ls[1..]) == ls[0] + rest;
      LinesOfPrefix(ls[0], rest);
      assert rest[0] == '\n' && rest[1..] == JoinLines(ls[1..]);
      LinesOfJoin(ls[1..]);
      assert Lines(rest) == [""] + Lines(rest[1..]);
      assert Lines(rest)[0] == "" && Lines(rest)[1..] == ls[1..];
      assert ls[0] + "" == ls[0];
      assert ls == [ls[0]] + ls[1..];
    }
  }
}
