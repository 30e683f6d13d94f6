/**
 * encodeURIComponent and decodeURIComponent as ECMA-262 defines them (its abstract
 * operations Encode and Decode, with an empty reserved set on decoding): percent-encoding
 * in the sense of section 2.1 of RFC 3986, of the UTF-8 octets of every character
 * outside the unreserved set, with upper-case hexadecimal digits.
 *
 * Characters are Unicode scalar values, so the URIError that encodeURIComponent raises
 * for a lone surrogate cannot arise here. Octets are ints in [0, 256).
 */
module PercentEncoding {
  import opened Outcomes

  /** The characters encodeURIComponent leaves alone: letters, digits and - _ . ! ~ * ' ( ). */
  predicate IsUnreserved(c: char) {
    ('A' <= c <= 'Z') || ('a' <= c <= 'z') || ('0' <= c <= '9') ||
    c == '-' || c == '_' || c == '.' || c == '!' || c == '~' || c == '*' || c == '\'' || c == '(' || c == ')'
  }

  predicate IsOctet(b: int) { 0 <= b < 256 }

  /** Upper-case hexadecimal digit of a value below 16. */
  function HexDigit(v: int): (d: char)
    requires 0 <= v < 16
    ensures d != '%' && d != '|'
  {
    if v < 10 then ('0' as int + v) as char else ('A' as int + v - 10) as char
  }

  /** Value of a hexadecimal digit in either case; None for any other character. */
  function HexValue(d: char): (r: Option<int>)
    ensures r.Some? ==> 0 <= r.value < 16
  {
    if '0' <= d <= '9' then Some(d as int - '0' as int)
    else if 'A' <= d <= 'F' then Some(d as int - 'A' as int + 10)
    else if 'a' <= d <= 'f' then Some(d as int - 'a' as int + 10)
    else None
  }

  lemma HexRoundTrip(v: int)
    requires 0 <= v < 16
    ensures HexValue(HexDigit(v)) == Some(v)
  {
  }

  /** The UTF-8 octets of a scalar value, shortest form. */
  function Utf8(c: char): (bs: seq<int>)
    ensures 1 <= |bs| <= 4
    ensures forall i :: 0 <= i < |bs| ==> IsOctet(bs[i])
    ensures |bs| == 1 <==> c as int < 0x80
  {
    var cp := c as int;
    if cp < 0x80 then [cp]
    else if cp < 0x800 then [0xC0 + cp / 64, 0x80 + cp % 64]
    else if cp < 0x10000 then [0xE0 + cp / 4096, 0x80 + (cp / 64) % 64, 0x80 + cp % 64]
    else [0xF0 + cp / 262144, 0x80 + (cp / 4096) % 64, 0x80 + (cp / 64) % 64, 0x80 + cp % 64]
  }

  /** "%XY" for one octet. */
  function PercentOctet(b: int): (s: string)
    requires IsOctet(b)
    ensures |s| == 3 && s[0] == '%'
  {
    ['%', HexDigit(b / 16), HexDigit(b % 16)]
  }

  function PercentOctets(bs: seq<int>): (s: string)
    requires forall i :: 0 <= i < |bs| ==> IsOctet(bs[i])
    ensures |s| == 3 * |bs|
  {
    if bs == [] then [] else PercentOctet(bs[0]) + PercentOctets(bs[1..])
  }

  function EncodeChar(c: char): string {
    if IsUnreserved(c) then [c] else PercentOctets(Utf8(c))
  }

  /** encodeURIComponent: unreserved text passes through, and nothing gets shorter. */
  function Encode(s: string): (r: string)
    ensures |r| >= |s|
    ensures (forall i :: 0 <= i < |s| ==> IsUnreserved(s[i])) ==> r == s
  {
    if s == [] then [] else EncodeChar(s[0]) + Encode(s[1..])
  }

  /** Number of leading one bits of an octet (5 stands for "five or more"). */
  function LeadingOnes(b: int): nat
    requires IsOctet(b)
  {
    if b < 0x80 then 0 else if b < 0xC0 then 1 else if b < 0xE0 then 2
    else if b < 0xF0 then 3 else if b < 0xF8 then 4 else 5
  }

  /** The octets of n consecutive "%XY" groups at the start of s, or None if s does not start so. */
  function ReadOctets(s: string, n: nat): (r: Option<seq<int>>)
    ensures r.Some? ==> |r.value| == n && 3 * n <= |s|
    ensures r.Some? ==> forall i :: 0 <= i < n ==> IsOctet(r.value[i])
  {
    if n == 0 then Some([])
    else if |s| < 3 || s[0] != '%' then None
    else match (HexValue(s[1]), HexValue(s[2]), ReadOctets(s[3..], n - 1))
      case (Some(hi), Some(lo), Some(rest)) => Some([hi * 16 + lo] + rest)
      case _ => None
  }

  predicate IsContinuation(b: int) { 0x80 <= b < 0xC0 }

  /**
   * The scalar value a multi-octet sequence encodes, or None when the sequence is not
   * the well-formed UTF-8 encoding of one (a non-continuation octet, an overlong form,
   * a surrogate, or a value above U+10FFFF).
   */
  function Utf8Scalar(bs: seq<int>): (r: Option<char>)
    requires 2 <= |bs| <= 4
    requires forall i :: 0 <= i < |bs| ==> IsOctet(bs[i])
  {
    if exists i :: 1 <= i < |bs| && !IsContinuation(bs[i]) then None
    else
      var cp :=
        if |bs| == 2 then (bs[0] - 0xC0) * 64 + (bs[1] - 0x80)
        else if |bs| == 3 then (bs[0] - 0xE0) * 4096 + (bs[1] - 0x80) * 64 + (bs[2] - 0x80)
        else (bs[0] - 0xF0) * 262144 + (bs[1] - 0x80) * 4096 + (bs[2] - 0x80) * 64 + (bs[3] - 0x80);
      var lowest := if |bs| == 2 then 0x80 else if |bs| == 3 then 0x800 else 0x10000;
      if lowest <= cp < 0xD800 || 0xE000 <= cp < 0x110000 then Some(cp as char) else None
  }

  function Prepend(c: char, r: Option<string>): Option<string> {
    match r
    case Some(s) => Some([c] + s)
    case None => None
  }

  /** decodeURIComponent: None where the ECMAScript function throws URIError. */
  function Decode(s: string): (r: Option<string>)
    ensures (forall i :: 0 <= i < |s| ==> s[i] != '%') ==> r == Some(s)
    ensures r.Some? ==> |r.value| <= |s|
    decreases |s|
  {
    if s == [] then Some([])
    else if s[0] != '%' then
      assert s == [s[0]] + s[1..];
      Prepend(s[0], Decode(s[1..]))
    else match ReadOctets(s, 1)
      case None => None
      case Some(first) =>
        var n := LeadingOnes(first[0]);
        if n == 0 then Prepend(first[0] as char, Decode(s[3..]))
        else if n == 1 || n > 4 then None
        else match ReadOctets(s, n)
          case None => None
          case Some(bs) =>
            match Utf8Scalar(bs)
            case None => None
            case Some(c) => Prepend(c, Decode(s[3 * n..]))
  }

  // ---------------------------------------------------------------------------
  // Properties

  lemma {:induction false} PercentOctetsNoPipe(bs: seq<int>)
    requires forall i :: 0 <= i < |bs| ==> IsOctet(bs[i])
    ensures '|' !in PercentOctets(bs)
  {
    if bs != [] {
      PercentOctetsNoPipe(bs[1..]);
    }
  }

  /** The encoded form never contains the separator '|' ('|' is not unreserved, and hex digits are not '|'). */
  lemma {:induction false} EncodeHasNoPipe(s: string)
    ensures '|' !in Encode(s)
  {
    if s != [] {
      if !IsUnreserved(s[0]) {
        PercentOctetsNoPipe(Utf8(s[0]));
      }
      EncodeHasNoPipe(s[1..]);
    }
  }

  /** The encoding is empty exactly when the input is. */
  lemma EncodeEmpty(s: string)
    ensures Encode(s) == [] <==> s == []
  {
    if s != [] {
      assert |EncodeChar(s[0])| > 0;
    }
  }

  /** Reading k groups from the start of an encoded octet string gives back the first k octets. */
  lemma {:induction false} ReadPercentOctets(bs: seq<int>, rest: string, k: nat)
    requires forall i :: 0 <= i < |bs| ==> IsOctet(bs[i])
    requires k <= |bs|
    ensures ReadOctets(PercentOctets(bs) + rest, k) == Some(bs[..k])
  {
    if k > 0 {
      var s := PercentOctets(bs) + rest;
      var b := bs[0];
      assert s == PercentOctet(b) + (PercentOctets(bs[1..]) + rest);
      HexRoundTrip(b / 16);
      HexRoundTrip(b % 16);
      ReadPercentOctets(bs[1..], rest, k - 1);
      assert s[3..] == PercentOctets(bs[1..]) + rest;
      assert bs[1..][..k - 1] == bs[1..k];
      assert [b / 16 * 16 + b % 16] + bs[1..k] == bs[..k];
    }
  }

  lemma Utf8ScalarOfUtf8(c: char)
    requires c as int >= 0x80
    ensures Utf8Scalar(Utf8(c)) == Some(c)
    ensures LeadingOnes(Utf8(c)[0]) == |Utf8(c)|
  {
    var cp := c as int;
    var bs := Utf8(c);
    if cp < 0x800 {
      assert bs[0] - 0xC0 == cp / 64;
    } else if cp < 0x10000 {
      assert cp / 4096 == (cp / 64) / 64;
    } else {
      assert cp / 4096 == (cp / 64) / 64;
      assert cp / 262144 == (cp / 4096) / 64;
    }
  }

  /** Decoding one encoded character followed by anything decodes that character first. */
  lemma DecodeEncodedChar(c: char, rest: string)
    ensures Decode(EncodeChar(c) + rest) == Prepend(c, Decode(rest))
  {
    var s := EncodeChar(c) + rest;
    if IsUnreserved(c) {
      assert s[0] == c && s[1..] == rest;
    } else {
      var bs := Utf8(c);
      ReadPercentOctets(bs, rest, 1);
      ReadPercentOctets(bs, rest, |bs|);
      assert bs[..1] == [bs[0]];
      assert bs[..|bs|] == bs;
      assert s[3 * |bs|..] == rest;
      if |bs| == 1 {
        assert bs[0] as char == c;
      } else {
        Utf8ScalarOfUtf8(c);
      }
    }
  }

  /** decodeURIComponent(encodeURIComponent(s)) == s, for every string. */
  lemma {:induction false} DecodeEncode(s: string)
    ensures Decode(Encode(s)) == Some(s)
  {
    if s != [] {
      DecodeEncode(s[1..]);
      DecodeEncodedChar(s[0], Encode(s[1..]));
      assert [s[0]] + s[1..] == s;
    }
  }
}
