/**
 * The PHP string primitives that the client relies on, over Dafny strings.
 * A Dafny `char` is a Unicode scalar value; the PHP byte string it stands for
 * is its UTF-8 encoding (see module PercentEncoding). Case mapping in PHP's
 * strtolower, strtoupper and strcasecmp touches only the ASCII letters.
 */
module PhpString {
  import opened Wrappers

  /** PHP's truthiness of a string: only "" and "0" are false. */
  predicate Truthy(s: string) {
    s != "" && s != "0"
  }

  function LowerChar(c: char): char {
    if 'A' <= c <= 'Z' then (c as int + 32) as char else c
  }

  function UpperChar(c: char): char {
    if 'a' <= c <= 'z' then (c as int - 32) as char else c
  }

  /** strtolower */
  function Lower(s: string): string {
    if s == [] then [] else [LowerChar(s[0])] + Lower(s[1..])
  }

  /** strtoupper */
  function Upper(s: string): string {
    if s == [] then [] else [UpperChar(s[0])] + Upper(s[1..])
  }

  /** Upper-casing only looks at the case-folded form: two strings that agree
      up to ASCII case upper-case to the same string. */
  lemma {:induction false} UpperOfLower(s: string)
    ensures Upper(Lower(s)) == Upper(s)
  {
    if s != [] {
      UpperOfLower(s[1..]);
    }
  }

  /** No ASCII upper-case letter in the string. */
  predicate NoUpper(s: string) {
    forall i :: 0 <= i < |s| ==> !('A' <= s[i] <= 'Z')
  }

  /** strtolower leaves a string without upper-case letters as it is. */
  lemma {:induction false} LowerOfNoUpper(s: string)
    requires NoUpper(s)
    ensures Lower(s) == s
  {
    if s != [] {
      assert NoUpper(s[1..]) by {
        forall i | 0 <= i < |s[1..]| ensures !('A' <= s[1..][i] <= 'Z') {
          assert s[1..][i] == s[i + 1];
        }
      }
      LowerOfNoUpper(s[1..]);
      assert s == [s[0]] + s[1..];
    }
  }

  /**
   * strcasecmp: compares the ASCII-lower-cased strings lexicographically; a
   * proper prefix comes first. PHP 8.2 returns -1, 0 or 1 (earlier versions a
   * difference of the same sign); only the sign is ever used here.
   */
  function CaseCompare(a: string, b: string): (r: int)
    ensures -1 <= r <= 1
    ensures r == 0 <==> Lower(a) == Lower(b)
  {
    if a == [] then (if b == [] then 0 else -1)
    else if b == [] then 1
    else
    assert Lower(a)[0] == LowerChar(a[0]) && Lower(b)[0] == LowerChar(b[0]);
    if LowerChar(a[0]) < LowerChar(b[0]) then -1
    else if LowerChar(a[0]) > LowerChar(b[0]) then 1
    else
      var r := CaseCompare(a[1..], b[1..]);
      assert Lower(a) == [LowerChar(a[0])] + Lower(a[1..]);
      assert Lower(b) == [LowerChar(b[0])] + Lower(b[1..]);
      assert Lower(a) == Lower(b) ==> Lower(a)[1..] == Lower(b)[1..];
      r
  }

  /** Swapping the arguments of strcasecmp negates the result. */
  lemma {:induction false} CaseCompareFlip(a: string, b: string)
    ensures CaseCompare(b, a) == -CaseCompare(a, b)
  {
    if a != [] && b != [] && LowerChar(a[0]) == LowerChar(b[0]) {
      CaseCompareFlip(a[1..], b[1..]);
    }
  }

  /** "Not after" under strcasecmp is transitive. */
  lemma {:induction false} CaseCompareTransitive(a: string, b: string, c: string)
    requires CaseCompare(a, b) <= 0 && CaseCompare(b, c) <= 0
    ensures CaseCompare(a, c) <= 0
  {
    if a != [] && b != [] && c != []
       && LowerChar(a[0]) == LowerChar(b[0]) && LowerChar(b[0]) == LowerChar(c[0]) {
      CaseCompareTransitive(a[1..], b[1..], c[1..]);
    }
  }

  /** implode(sep, xs) with a one-character separator; implode of no items is "". */
  function Join(sep: char, xs: seq<string>): string {
    if |xs| == 0 then ""
    else if |xs| == 1 then xs[0]
    else xs[0] + [sep] + Join(sep, xs[1..])
  }

  /** explode(sep, s): the pieces between separators; always at least one. */
  function Split(sep: char, s: string): (r: seq<string>)
    ensures |r| >= 1
  {
    if s == [] then [""]
    else
      var rest := Split(sep, s[1..]);
      if s[0] == sep then [""] + rest
      else [[s[0]] + rest[0]] + rest[1..]
  }

  lemma {:induction false} SplitPlain(sep: char, x: string, tail: string)
    requires sep !in x
    ensures Split(sep, x + [sep] + tail) == [x] + Split(sep, tail)
    ensures Split(sep, x) == [x]
  {
    if x == [] {
      assert x + [sep] + tail == [sep] + tail;
      assert ([sep] + tail)[1..] == tail;
    } else {
      SplitPlain(sep, x[1..], tail);
      assert (x + [sep] + tail)[1..] == x[1..] + [sep] + tail;
      assert [x[0]] + x[1..] == x;
    }
  }

  /** Splitting a join gives back the items, provided none of them contains
      the separator and there is at least one. */
  lemma {:induction false} SplitJoin(sep: char, xs: seq<string>)
    requires |xs| >= 1
    requires forall i :: 0 <= i < |xs| ==> sep !in xs[i]
    ensures Split(sep, Join(sep, xs)) == xs
  {
    if |xs| == 1 {
      SplitPlain(sep, xs[0], "");
    } else {
      SplitJoin(sep, xs[1..]);
      SplitPlain(sep, xs[0], Join(sep, xs[1..]));
      assert [xs[0]] + xs[1..] == xs;
    }
  }

  predicate IsDigit(c: char) {
    '0' <= c <= '9'
  }

  function DigitChar(d: nat): char
    requires d < 10
  {
    "0123456789"[d]
  }

  /** The decimal digits of a natural number, no leading zeros. */
  function NatToDecimal(n: nat): (r: string)
    ensures |r| >= 1 && AllDigits(r)
  {
    if n < 10 then [DigitChar(n)] else NatToDecimal(n / 10) + [DigitChar(n % 10)]
  }

  /** PHP's conversion of an integer to a string: decimal, with "-" for negatives. */
  function IntToDecimal(n: int): string {
    if n < 0 then "-" + NatToDecimal(-n) else NatToDecimal(n)
  }

  function DigitValue(c: char): nat
    requires IsDigit(c)
  {
    c as int - '0' as int
  }

  predicate AllDigits(s: string) {
    forall i :: 0 <= i < |s| ==> IsDigit(s[i])
  }

  /** The value of a string of decimal digits, read from the right. */
  function DigitsValue(s: string): nat
    requires AllDigits(s)
  {
    if s == [] then 0
    else DigitsValue(s[..|s| - 1]) * 10 + DigitValue(s[|s| - 1])
  }

  /** Reading back a decimal integer, as a server parses a query parameter. */
  function ParseInt(s: string): Option<int> {
    if s != [] && AllDigits(s) then
      Some(DigitsValue(s) as int)
    else if |s| >= 2 && s[0] == '-' && AllDigits(s[1..]) then
      Some(-(DigitsValue(s[1..]) as int))
    else
      None
  }

  lemma {:induction false} DigitsOfNat(n: nat)
    ensures DigitsValue(NatToDecimal(n)) == n
  {
    var s := NatToDecimal(n);
    if n >= 10 {
      DigitsOfNat(n / 10);
      assert s == NatToDecimal(n / 10) + [DigitChar(n % 10)];
      assert s[..|s| - 1] == NatToDecimal(n / 10);
      assert DigitValue(s[|s| - 1]) == n % 10;
    } else {
      assert DigitValue(DigitChar(n)) == n;
    }
  }

  /** The decimal form of an integer reads back as the same integer. */
  lemma IntToDecimalRoundTrip(n: int)
    ensures ParseInt(IntToDecimal(n)) == Some(n)
  {
    var m: nat := if n < 0 then -n else n;
    if n < 0 {
      NegativeRoundTrip(m);
      assert IntToDecimal(n) == "-" + NatToDecimal(m);
    } else {
      NonNegativeRoundTrip(m);
      assert IntToDecimal(n) == NatToDecimal(m);
    }
  }

  lemma NonNegativeRoundTrip(m: nat)
    ensures ParseInt(NatToDecimal(m)) == Some(m as int)
  {
    var d := NatToDecimal(m);
    DigitsOfNat(m);
    assert d != [] && AllDigits(d);
  }

  lemma NegativeRoundTrip(m: nat)
    ensures ParseInt("-" + NatToDecimal(m)) == Some(-(m as int))
  {
    var d := NatToDecimal(m);
    var s := "-" + d;
    DigitsOfNat(m);
    assert s[0] == '-' && s[1..] == d;
    assert !AllDigits(s) by {
      assert !IsDigit(s[0]);
    }
    assert |s| >= 2 && AllDigits(s[1..]);
  }
}
