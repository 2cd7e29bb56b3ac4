/** The two stream framings of RFC 6587: octet counting (section 3.4.1, also
    the TLS mapping of RFC 5425, section 4.3) and non-transparent framing
    (section 3.4.2). */
module Framing {
  import opened Decimal
  import opened JsValues
  import Utf8

  /** `_addOctettCount(msg)`: `MSG-LEN SP SYSLOG-MSG`, where MSG-LEN is the
      decimal number of bytes of the UTF-8 encoded message. */
  function AddOctetCount(msg: string): (framed: string)
    ensures |framed| > |msg| && framed[|framed| - |msg|..] == msg
  {
    NatToString(Utf8.Utf8Len(msg)) + " " + msg
  }

  /** `_addNonTransparentFraming(msg)`: the message followed by the configured
      trailer, rendered as interpolation renders it. */
  function AddNonTransparentFraming(msg: string, trailer: Value): (framed: string)
    ensures |framed| == |msg| + |Render(trailer)|
    ensures framed[..|msg|] == msg && framed[|msg|..] == Render(trailer)
  {
    msg + Render(trailer)
  }

  predicate IsDigitByte(b: Utf8.byte) {
    0x30 <= b <= 0x39
  }

  /** Number of leading ASCII digit bytes. */
  function DigitPrefixLen(bs: seq<Utf8.byte>): (k: nat)
    ensures k <= |bs|
    ensures forall i :: 0 <= i < k ==> IsDigitByte(bs[i])
    ensures k < |bs| ==> !IsDigitByte(bs[k])
  {
    if bs == [] || !IsDigitByte(bs[0]) then 0 else 1 + DigitPrefixLen(bs[1..])
  }

  /** Value of a run of ASCII digit bytes. */
  function DigitBytesValue(bs: seq<Utf8.byte>): nat
    requires forall i :: 0 <= i < |bs| ==> IsDigitByte(bs[i])
  {
    if bs == [] then 0
    else
      var last := bs[|bs| - 1];
      assert IsDigitByte(last);
      DigitBytesValue(bs[..|bs| - 1]) * 10 + (last as int - 0x30)
  }

  /** A collector reading one octet-counted frame from a byte stream: the
      digits up to a space give the length, then exactly that many bytes are
      the message; the remaining bytes are left for the next frame. */
  function ReadOctetFrame(stream: seq<Utf8.byte>): Option<(seq<Utf8.byte>, seq<Utf8.byte>)> {
    var k := DigitPrefixLen(stream);
    if 0 < k < |stream| && stream[k] == 0x20 then
      var n := DigitBytesValue(stream[..k]);
      var rest := stream[k + 1..];
      if n <= |rest| then Some((rest[..n], rest[n..])) else None
    else None
  }

  lemma {:induction false} DigitBytesMatchDigits(s: string)
    requires AllDigits(s)
    ensures Utf8.IsAscii(s)
    ensures forall i :: 0 <= i < |Utf8.Encode(s)| ==> IsDigitByte(Utf8.Encode(s)[i])
    ensures DigitBytesValue(Utf8.Encode(s)) == ParseNat(s)
  {
    Utf8.EncodeAscii(s);
    if s != [] {
      var init := s[..|s| - 1];
      DigitBytesMatchDigits(init);
      assert s == init + [s[|s| - 1]];
      Utf8.EncodeAppend(init, [s[|s| - 1]]);
      var bs := Utf8.Encode(s);
      assert bs[..|bs| - 1] == Utf8.Encode(init);
    }
  }

  /** Octet counting delimits each message exactly: a collector that reads
      one frame from the bytes sent, whatever bytes follow, gets back the
      message's own bytes and leaves the following ones untouched. */
  lemma OctetFrameRoundTrip(msg: string, next: seq<Utf8.byte>)
    ensures ReadOctetFrame(Utf8.Encode(AddOctetCount(msg)) + next) == Some((Utf8.Encode(msg), next))
  {
    var digits := NatToString(Utf8.Utf8Len(msg));
    DigitBytesMatchDigits(digits);
    ParseNatToString(Utf8.Utf8Len(msg));
    Utf8.EncodeAppend(digits, " ");
    Utf8.EncodeAppend(digits + " ", msg);
    assert Utf8.Encode(" ") == [0x20];
    ReadFrameOf(Utf8.Encode(digits), Utf8.Encode(msg), next);
  }

  /** Digits, a space, exactly that many bytes: one frame. */
  lemma ReadFrameOf(d: seq<Utf8.byte>, m: seq<Utf8.byte>, next: seq<Utf8.byte>)
    requires |d| > 0 && forall i :: 0 <= i < |d| ==> IsDigitByte(d[i])
    requires DigitBytesValue(d) == |m|
    ensures ReadOctetFrame(d + [0x20] + m + next) == Some((m, next))
  {
    var stream := d + [0x20] + m + next;
    assert stream == d + [0x20] + (m + next);
    DigitPrefixLenOf(d, m + next);
    assert stream[..|d|] == d;
    assert stream[|d| + 1..] == m + next;
    assert (m + next)[..|m|] == m && (m + next)[|m|..] == next;
  }

  lemma {:induction false} DigitPrefixLenOf(d: seq<Utf8.byte>, rest: seq<Utf8.byte>)
    requires forall i :: 0 <= i < |d| ==> IsDigitByte(d[i])
    ensures DigitPrefixLen(d + [0x20] + rest) == |d|
  {
    if d != [] {
      assert (d + [0x20] + rest)[1..] == d[1..] + [0x20] + rest;
      DigitPrefixLenOf(d[1..], rest);
    }
  }

  /** A collector reading one non-transparent frame: everything before the
      first occurrence of the trailer character, and what follows it. */
  function ReadTrailerFrame(stream: string, trailer: char): Option<(string, string)> {
    if stream == [] then None
    else if stream[0] == trailer then Some(([], stream[1..]))
    else match ReadTrailerFrame(stream[1..], trailer)
      case None => None
      case Some((m, rest)) => Some(([stream[0]] + m, rest))
  }

  /** Non-transparent framing delimits a message only when the message does
      not contain the trailer character. */
  lemma {:induction false} TrailerFrameRoundTrip(msg: string, trailer: char, next: string)
    requires trailer !in msg
    ensures ReadTrailerFrame(AddNonTransparentFraming(msg, Str([trailer])) + next, trailer) == Some((msg, next))
  {
    if msg == [] {
      assert AddNonTransparentFraming(msg, Str([trailer])) + next == [trailer] + next;
    } else {
      var framed := AddNonTransparentFraming(msg, Str([trailer])) + next;
      assert framed[1..] == AddNonTransparentFraming(msg[1..], Str([trailer])) + next;
      TrailerFrameRoundTrip(msg[1..], trailer, next);
      assert [msg[0]] + msg[1..] == msg;
    }
  }

  /** A message containing the trailer is cut short at it: with the default
      trailer LF, a message `a\nb` reaches the collector as `a`. */
  lemma TrailerInMessageSplits()
    ensures ReadTrailerFrame(AddNonTransparentFraming("a\nb", Str("\n")), '\n') == Some(("a", "b\n"))
  {
    assert AddNonTransparentFraming("a\nb", Str("\n")) == "a\nb\n";
    assert "a\nb\n"[1..] == "\nb\n" && "\nb\n"[1..] == "b\n";
    assert ReadTrailerFrame("\nb\n", '\n') == Some(([], "b\n"));
    assert ReadTrailerFrame("a\nb\n", '\n') == Some((['a'] + [], "b\n"));
    assert ['a'] + [] == "a";
  }
}
