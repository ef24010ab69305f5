/** String helpers the wrapper relies on: Python's str() of an int, ' '.join and str.rstrip. */
module Text {

  predicate IsDigit(c: char) {
    '0' <= c <= '9'
  }

  predicate AllDigits(s: string) {
    forall i :: 0 <= i < |s| ==> IsDigit(s[i])
  }

  function DigitChar(d: nat): (c: char)
    requires d < 10
    ensures IsDigit(c)
  {
    ('0' as int + d) as char
  }

  function DigitValue(c: char): nat
    requires IsDigit(c)
  {
    c as int - '0' as int
  }

  /** The decimal digits of n, most significant first, without leading zeros. */
  function Digits(n: nat): (s: string)
    ensures |s| > 0 && AllDigits(s)
    ensures s[0] == '0' ==> n == 0
    decreases n
  {
    if n < 10 then [DigitChar(n)] else Digits(n / 10) + [DigitChar(n % 10)]
  }

  /** Python's str(n) for an int: an optional minus sign followed by the digits of |n|. */
  function Decimal(n: int): (s: string)
    ensures |s| > 0
    ensures s[0] == '-' <==> n < 0
    ensures AllDigits(if n < 0 then s[1..] else s)
    ensures n < 0 ==> |s| > 1
    ensures (if n < 0 then s[1..] else s)[0] == '0' ==> n == 0
    ensures ' ' !in s
  {
    if n < 0 then
      var d := Digits(-n);
      assert ("-" + d)[1..] == d;
      "-" + d
    else Digits(n)
  }

  /** The value of a non-empty run of decimal digits (the inverse of Digits). */
  function DigitsValue(s: string): nat
    requires AllDigits(s)
    decreases |s|
  {
    if s == [] then 0 else DigitsValue(s[..|s| - 1]) * 10 + DigitValue(s[|s| - 1])
  }

  predicate IsDecimal(s: string) {
    if |s| > 0 && s[0] == '-' then |s| > 1 && AllDigits(s[1..]) else |s| > 0 && AllDigits(s)
  }

  /** Python's int(s) restricted to what str() of an int produces. */
  function ParseDecimal(s: string): int
    requires IsDecimal(s)
  {
    if s[0] == '-' then -(DigitsValue(s[1..]) as int) else DigitsValue(s)
  }

  lemma {:induction false} DigitsRoundTrip(n: nat)
    ensures DigitsValue(Digits(n)) == n
    decreases n
  {
    if n >= 10 {
      DigitsRoundTrip(n / 10);
      var s := Digits(n);
      assert s[..|s| - 1] == Digits(n / 10);
      assert DigitValue(s[|s| - 1]) == n % 10;
    }
  }

  /** Reading back the decimal text of psm gives psm again: the text is a faithful rendering. */
  lemma DecimalRoundTrip(n: int)
    ensures IsDecimal(Decimal(n))
    ensures ParseDecimal(Decimal(n)) == n
  {
    if n < 0 {
      DigitsRoundTrip(-n);
      assert Decimal(n)[1..] == Digits(-n);
    } else {
      DigitsRoundTrip(n);
    }
  }

  /** Python's ' '.join(parts). */
  function JoinWithSpaces(parts: seq<string>): (s: string)
    ensures |parts| > 0 ==> parts[0] <= s
    ensures |parts| > 1 ==> |s| > |parts[0]|
    decreases |parts|
  {
    if |parts| == 0 then ""
    else if |parts| == 1 then parts[0]
    else parts[0] + " " + JoinWithSpaces(parts[1..])
  }

  /** Appending a part to a non-empty list appends a space and that part to the joined text. */
  lemma {:induction false} JoinAppend(parts: seq<string>, x: string)
    requires |parts| > 0
    ensures JoinWithSpaces(parts + [x]) == JoinWithSpaces(parts) + " " + x
    decreases |parts|
  {
    if |parts| > 1 {
      assert (parts + [x])[1..] == parts[1..] + [x];
      JoinAppend(parts[1..], x);
    }
  }

  /** Text glued to the front of the first part comes first in the joined text. */
  lemma JoinPrefixFirst(a: string, b: string, rest: seq<string>)
    ensures JoinWithSpaces([a + b] + rest) == a + JoinWithSpaces([b] + rest)
  {
  }

  /** Python's s.rstrip(chars): drop every trailing character that belongs to chars. */
  function RStrip(s: string, chars: set<char>): (r: string)
    ensures r <= s
    ensures forall i :: |r| <= i < |s| ==> s[i] in chars
    ensures r == [] || r[|r| - 1] !in chars
    ensures (forall i :: 0 <= i < |s| ==> s[i] in chars) ==> r == []
    decreases |s|
  {
    if |s| > 0 && s[|s| - 1] in chars then RStrip(s[..|s| - 1], chars) else s
  }

  /** The three properties in RStrip's contract determine its result uniquely. */
  lemma RStripUnique(s: string, chars: set<char>, t: string)
    requires t <= s
    requires forall i :: |t| <= i < |s| ==> s[i] in chars
    requires t == [] || t[|t| - 1] !in chars
    ensures t == RStrip(s, chars)
  {
  }

  lemma RStripIdempotent(s: string, chars: set<char>)
    ensures RStrip(RStrip(s, chars), chars) == RStrip(s, chars)
  {
  }
}
