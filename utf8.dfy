/** UTF-8 encoding of a string, as `Buffer.from(msg)` produces it, and its byte
    length, as `Buffer.from(msg).byteLength` reports it. Characters are Unicode
    scalar values, each encoded in 1 to 4 bytes (RFC 3629, section 3). */
module Utf8 {

  type byte = b: int | 0 <= b < 256

  /** Number of bytes UTF-8 uses for one code point. */
  function CodePointLen(c: char): (n: nat)
    ensures 1 <= n <= 4
    ensures n == 1 <==> c as int < 0x80
  {
    if c as int < 0x80 then 1
    else if c as int < 0x800 then 2
    else if c as int < 0x1_0000 then 3
    else 4
  }

  /** Length in bytes of the UTF-8 encoding of `s`. */
  function Utf8Len(s: string): (n: nat)
    ensures |s| <= n <= 4 * |s|
  {
    if s == [] then 0 else CodePointLen(s[0]) + Utf8Len(s[1..])
  }

  predicate IsContinuation(b: byte) {
    0x80 <= b < 0xC0
  }

  /** The UTF-8 bytes of one code point: a lead byte whose high bits give the
      length, followed by continuation bytes `10xxxxxx`. */
  function EncodeChar(c: char): (bs: seq<byte>)
    ensures |bs| == CodePointLen(c)
    ensures |bs| == 1 ==> bs[0] == c as int
    ensures |bs| == 2 ==> 0xC2 <= bs[0] < 0xE0
    ensures |bs| == 3 ==> 0xE0 <= bs[0] < 0xF0
    ensures |bs| == 4 ==> 0xF0 <= bs[0] < 0xF5
    ensures forall i :: 1 <= i < |bs| ==> IsContinuation(bs[i])
  {
    var v := c as int;
    if v < 0x80 then [v]
    else if v < 0x800 then [0xC0 + v / 0x40, 0x80 + v % 0x40]
    else if v < 0x1_0000 then [0xE0 + v / 0x1000, 0x80 + (v / 0x40) % 0x40, 0x80 + v % 0x40]
    else [0xF0 + v / 0x4_0000, 0x80 + (v / 0x1000) % 0x40, 0x80 + (v / 0x40) % 0x40, 0x80 + v % 0x40]
  }

  /** The code point a well-formed single-character encoding stands for. */
  function DecodeChar(bs: seq<byte>): int
    requires 1 <= |bs| <= 4
  {
    var b := seq(|bs|, i requires 0 <= i < |bs| => bs[i] as int);
    if |b| == 1 then b[0]
    else if |b| == 2 then (b[0] - 0xC0) * 0x40 + (b[1] - 0x80)
    else if |b| == 3 then ((b[0] - 0xE0) * 0x40 + (b[1] - 0x80)) * 0x40 + (b[2] - 0x80)
    else (((b[0] - 0xF0) * 0x40 + (b[1] - 0x80)) * 0x40 + (b[2] - 0x80)) * 0x40 + (b[3] - 0x80)
  }

  lemma EncodeCharRoundTrip(c: char)
    ensures DecodeChar(EncodeChar(c)) == c as int
  {
    var v := c as int;
    if v >= 0x800 {
      var q := v / 0x40;
      assert v == q * 0x40 + v % 0x40;
      if v < 0x1_0000 {
        assert q == (q / 0x40) * 0x40 + q % 0x40;
        assert q / 0x40 == v / 0x1000;
      } else {
        var q2 := q / 0x40;
        assert q == q2 * 0x40 + q % 0x40;
        assert q2 == (q2 / 0x40) * 0x40 + q2 % 0x40;
        assert q2 == v / 0x1000;
        assert q2 / 0x40 == v / 0x4_0000;
      }
    }
  }

  /** `Buffer.from(s)`: the concatenated encodings of the characters of `s`. */
  function Encode(s: string): (bs: seq<byte>)
    ensures |bs| == Utf8Len(s)
  {
    if s == [] then [] else EncodeChar(s[0]) + Encode(s[1..])
  }

  lemma {:induction false} EncodeAppend(a: string, b: string)
    ensures Encode(a + b) == Encode(a) + Encode(b)
    ensures Utf8Len(a + b) == Utf8Len(a) + Utf8Len(b)
  {
    if a != [] {
      assert (a + b)[0] == a[0] && (a + b)[1..] == a[1..] + b;
      EncodeAppend(a[1..], b);
    } else {
      assert a + b == b;
    }
  }

  predicate IsAscii(s: string) {
    forall i :: 0 <= i < |s| ==> s[i] as int < 0x80
  }

  /** On ASCII text every character is one byte, its own code. */
  lemma {:induction false} EncodeAscii(s: string)
    requires IsAscii(s)
    ensures Utf8Len(s) == |s|
    ensures forall i :: 0 <= i < |s| ==> Encode(s)[i] == s[i] as int
  {
    if s != [] {
      EncodeAscii(s[1..]);
    }
  }
}
