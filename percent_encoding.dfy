/**
 * PHP's rawurlencode and rawurldecode. A Dafny string stands for the PHP byte
 * string holding its UTF-8 encoding; rawurlencode keeps the unreserved
 * characters of section 2.3 of RFC 3986 (letters, digits, "-", ".", "_", "~")
 * and writes every other byte as "%" and two upper-case hex digits.
 */
module PercentEncoding {
  import opened PhpString

  type Byte = b: int | 0 <= b < 256

  /** The unreserved characters of section 2.3 of RFC 3986. */
  predicate Unreserved(c: char) {
    'A' <= c <= 'Z' || 'a' <= c <= 'z' || '0' <= c <= '9' || c == '-' || c == '.' || c == '_' || c == '~'
  }

  /** The UTF-8 encoding of one code point. */
  function Utf8(c: char): (bs: seq<Byte>)
    ensures 1 <= |bs| <= 4
    ensures c as int < 0x80 <==> bs == [c as int]
  {
    var n := c as int;
    if n < 0x80 then [n]
    else if n < 0x800 then [0xC0 + n / 0x40, 0x80 + n % 0x40]
    else if n < 0x1_0000 then [0xE0 + n / 0x1000, 0x80 + n / 0x40 % 0x40, 0x80 + n % 0x40]
    else [0xF0 + n / 0x4_0000, 0x80 + n / 0x1000 % 0x40, 0x80 + n / 0x40 % 0x40, 0x80 + n % 0x40]
  }

  /** The bytes PHP holds for a string. */
  function Utf8Bytes(s: string): seq<Byte> {
    if s == [] then [] else Utf8(s[0]) + Utf8Bytes(s[1..])
  }

  /** An upper-case hex digit. */
  function HexDigit(d: int): char
    requires 0 <= d < 16
  {
    if d < 10 then ('0' as int + d) as char else ('A' as int + d - 10) as char
  }

  predicate IsHex(c: char) {
    '0' <= c <= '9' || 'A' <= c <= 'F' || 'a' <= c <= 'f'
  }

  function HexValue(c: char): (d: int)
    requires IsHex(c)
    ensures 0 <= d < 16
  {
    if '0' <= c <= '9' then c as int - '0' as int
    else if 'A' <= c <= 'F' then c as int - 'A' as int + 10
    else c as int - 'a' as int + 10
  }

  /** "%XX" for each byte. */
  function EscapeBytes(bs: seq<Byte>): string {
    if bs == [] then "" else ['%', HexDigit(bs[0] / 16), HexDigit(bs[0] % 16)] + EscapeBytes(bs[1..])
  }

  function EncodeChar(c: char): string {
    if Unreserved(c) then [c] else EscapeBytes(Utf8(c))
  }

  /** rawurlencode: what comes out is made only of unreserved characters and "%". */
  function PercentEncode(s: string): (r: string)
    ensures forall i :: 0 <= i < |r| ==> Unreserved(r[i]) || r[i] == '%'
  {
    if s == [] then ""
    else
      var head := EncodeChar(s[0]);
      assert forall i :: 0 <= i < |head| ==> Unreserved(head[i]) || head[i] == '%' by {
        if !Unreserved(s[0]) {
          EscapedAlphabet(Utf8(s[0]));
        }
      }
      head + PercentEncode(s[1..])
  }

  lemma {:induction false} EscapedAlphabet(bs: seq<Byte>)
    ensures |EscapeBytes(bs)| == 3 * |bs|
    ensures forall i :: 0 <= i < |EscapeBytes(bs)| ==> Unreserved(EscapeBytes(bs)[i]) || EscapeBytes(bs)[i] == '%'
  {
    if bs != [] {
      EscapedAlphabet(bs[1..]);
    }
  }

  /** rawurldecode: "%" and two hex digits (either case) give one byte; any
      other character, a stray "%" included, stands for its own bytes. */
  function PercentDecode(t: string): seq<Byte> {
    if t == [] then []
    else if t[0] == '%' && |t| >= 3 && IsHex(t[1]) && IsHex(t[2]) then
      [HexValue(t[1]) * 16 + HexValue(t[2])] + PercentDecode(t[3..])
    else
      Utf8(t[0]) + PercentDecode(t[1..])
  }

  lemma {:induction false} DecodeEscaped(bs: seq<Byte>, rest: string)
    ensures PercentDecode(EscapeBytes(bs) + rest) == bs + PercentDecode(rest)
  {
    if bs != [] {
      var b := bs[0];
      var t := EscapeBytes(bs) + rest;
      assert t == ['%', HexDigit(b / 16), HexDigit(b % 16)] + (EscapeBytes(bs[1..]) + rest);
      assert IsHex(t[1]) && IsHex(t[2]);
      assert HexValue(t[1]) * 16 + HexValue(t[2]) == b;
      assert t[3..] == EscapeBytes(bs[1..]) + rest;
      assert t[0] == '%' && |t| >= 3;
      assert PercentDecode(t) == [b] + PercentDecode(t[3..]);
      DecodeEscaped(bs[1..], rest);
      assert [b] + (bs[1..] + PercentDecode(rest)) == bs + PercentDecode(rest);
    } else {
      assert EscapeBytes(bs) + rest == rest;
    }
  }

  /** Decoding the encoding of a string gives back exactly the bytes PHP holds
      for it: rawurlencode loses nothing. */
  lemma {:induction false} DecodeEncode(s: string)
    ensures PercentDecode(PercentEncode(s)) == Utf8Bytes(s)
  {
    if s != [] {
      var c := s[0];
      DecodeEncode(s[1..]);
      if Unreserved(c) {
        var t := PercentEncode(s);
        assert t == [c] + PercentEncode(s[1..]);
        assert t[1..] == PercentEncode(s[1..]);
      } else {
        DecodeEscaped(Utf8(c), PercentEncode(s[1..]));
      }
    }
  }

  /** rawurlencode leaves a string unchanged exactly when every character of it
      is unreserved. */
  lemma {:induction false} EncodeIdentityIff(s: string)
    ensures PercentEncode(s) == s <==> forall i :: 0 <= i < |s| ==> Unreserved(s[i])
    ensures |PercentEncode(s)| >= |s|
  {
    if s != [] {
      EncodeIdentityIff(s[1..]);
      var c := s[0];
      if !Unreserved(c) {
        EscapedAlphabet(Utf8(c));
        assert |PercentEncode(s)| > |s|;
      } else {
        assert PercentEncode(s) == [c] + PercentEncode(s[1..]);
        if forall i :: 0 <= i < |s[1..]| ==> Unreserved(s[1..][i]) {
          assert forall i :: 0 <= i < |s| ==> Unreserved(s[i]) by {
            forall i | 0 <= i < |s| ensures Unreserved(s[i]) {
              if i > 0 { assert s[i] == s[1..][i - 1]; }
            }
          }
        } else {
          var j :| 0 <= j < |s[1..]| && !Unreserved(s[1..][j]);
          assert !Unreserved(s[j + 1]);
          assert PercentEncode(s)[1..] == PercentEncode(s[1..]);
        }
      }
    }
  }

  /** The decimal form of an integer (the timestamp) is left as it is. */
  lemma DecimalUnchanged(n: int)
    ensures PercentEncode(IntToDecimal(n)) == IntToDecimal(n)
  {
    EncodeIdentityIff(IntToDecimal(n));
  }
}
