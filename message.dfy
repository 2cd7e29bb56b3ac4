/** The RFC 5424 line (section 6): `<PRI>VERSION TIMESTAMP HOSTNAME APP-NAME
    PROCID MSGID STRUCTURED-DATA [ BOM MSG]`. */
module Message {
  import opened JsValues
  import opened Decimal
  import opened Payload
  import opened StructuredData
  import opened IsoTime
  import Utf8

  /** Facility 1 (user-level messages) and severity 5 (notice). */
  const Facility: nat := 1
  const Severity: nat := 5
  const SyslogPri: nat := Facility * 8 + Severity
  const SyslogVersion: nat := 1
  const AppName: string := "TANlockManager"
  const NilValue: string := "-"
  /** The byte order mark that introduces a UTF-8 MSG (RFC 5424, section 6.4). */
  const Bom: char := '\U{FEFF}'

  /** PROCID: `PID` followed by the process id. */
  function ProcId(pid: nat): (s: string)
    ensures |s| > 3 && s[..3] == "PID" && s[3..] == NatToString(pid) && ' ' !in s
  {
    var digits := NatToString(pid);
    assert forall i :: 0 <= i < |digits| ==> digits[i] != ' ';
    "PID" + digits
  }

  /** PROCID identifies the process: two ids never share a PROCID. */
  lemma ProcIdInjective(a: nat, b: nat)
    requires ProcId(a) == ProcId(b)
    ensures a == b
  {
    assert ProcId(a)[3..] == NatToString(a);
    assert ProcId(b)[3..] == NatToString(b);
    ParseNatToString(a);
    ParseNatToString(b);
  }

  function UpperChar(c: char): char {
    if 'a' <= c <= 'z' then (c as int - 32) as char else c
  }

  /** `type.toUpperCase()` on the ASCII letters: each lower-case letter is
      replaced by its capital, every other character is kept, and nothing is
      truncated. */
  function ToUpperAscii(s: string): (r: string)
    ensures |r| == |s|
    ensures forall i :: 0 <= i < |s| ==> r[i] == UpperChar(s[i])
  {
    if s == [] then [] else [UpperChar(s[0])] + ToUpperAscii(s[1..])
  }

  /** `<PRI>VERSION`, the first header field. */
  function PriVersion(): string {
    "<" + NatToString(SyslogPri) + ">" + NatToString(SyslogVersion)
  }

  /** The six header fields separated by single spaces. */
  function JoinHeader(iso: string, host: string, procId: string, msgId: string): string {
    PriVersion() + " " + iso + " " + host + " " + AppName + " " + procId + " " + msgId
  }

  /** The header of a line: timestamp, configured hostname, process id and
      the upper-cased event type. */
  function Header(iso: string, hostname: Value, pid: nat, msgType: string): string {
    JoinHeader(iso, Render(hostname), ProcId(pid), ToUpperAscii(msgType))
  }

  /** `_createMsg`: the event message, or the empty string when it is null
      or undefined. */
  function MessageOf(body: EventPayload): (m: Value)
    ensures !IsNullish(m)
    ensures m.Str? && |m.s| > 0 <==> body.eventMessage.Str? && |body.eventMessage.s| > 0
  {
    if IsNullish(body.eventMessage) then Str("") else body.eventMessage
  }

  /** `msg.length > 0`: only a non-empty string has a positive length (any
      other value has no `length`). */
  predicate HasMessage(body: EventPayload) {
    var m := MessageOf(body);
    m.Str? && |m.s| > 0
  }

  /** The optional MSG part: a space, the BOM and the message. */
  function Tail(body: EventPayload): string {
    if HasMessage(body) then " " + [Bom] + MessageOf(body).s else ""
  }

  /** The line `_createSysLogMsg` returns, or `None` where `toISOString`
      throws for the timestamp. */
  function SysLogLine(msgType: string, body: EventPayload, hostname: Value, pid: nat): (r: Option<string>)
    ensures r.None? <==> ToIsoString(body.timestamp).None?
  {
    match ToIsoString(body.timestamp)
    case None => None
    case Some(iso) => Some(Header(iso, hostname, pid, msgType) + " " + StructuredDataOf(body) + Tail(body))
  }

  /** `_createSysLogMsg(type, body)`: the header, then the structured data
      (or the nil value when that is empty), then the optional message. */
  method CreateSysLogMsg(msgType: string, body: EventPayload, hostname: Value, pid: nat)
    returns (r: Option<string>)
    ensures r.None? <==> ToIsoString(body.timestamp).None?
    ensures r == SysLogLine(msgType, body, hostname, pid)
  {
    var timestamp := ToIsoString(body.timestamp);
    if timestamp.None? {
      return None;
    }
    var msgId := ToUpperAscii(msgType);
    var syslogMsg := PriVersion() + " " + timestamp.value + " " + Render(hostname) + " " + AppName
      + " " + ProcId(pid) + " " + msgId;
    ghost var header := Header(timestamp.value, hostname, pid, msgType);
    assert syslogMsg == header;

    var structuredData := CreateStructuredData(body);
    StructuredDataNotEmpty(body);
    if |structuredData| > 0 {
      syslogMsg := syslogMsg + " " + structuredData;
    } else {
      syslogMsg := syslogMsg + " " + NilValue;
    }

    assert syslogMsg == header + " " + StructuredDataOf(body);

    var msg := MessageOf(body);
    ghost var head := syslogMsg;
    if msg.Str? && |msg.s| > 0 {
      TailAssoc(syslogMsg, msg.s);
      syslogMsg := syslogMsg + " " + [Bom] + msg.s;
    } else {
      assert Tail(body) == "";
      assert head == head + "";
    }
    assert syslogMsg == head + Tail(body);
    r := Some(syslogMsg);
  }

  /** Regrouping steps for the solver: a line built field by field equals
      the same text grouped the way the specifying function groups it. */
  lemma TailAssoc(head: string, msg: string)
    ensures head + " " + [Bom] + msg == head + (" " + [Bom] + msg)
  {
  }

  lemma AppendAssoc(a: string, b: string, c: string)
    ensures a + b + c == a + (b + c)
  {
  }

  /** PRI is `<13>`: facility times eight plus severity, and the version is 1. */
  lemma PriAndVersion()
    ensures SyslogPri == 13 && SyslogPri / 8 == Facility && SyslogPri % 8 == Severity
    ensures PriVersion() == "<13>1"
  {
    assert NatToString(SyslogPri) == "13" && NatToString(SyslogVersion) == "1";
  }

  /** Every line opens with `<13>1 ` and the timestamp. */
  lemma LineStart(msgType: string, body: EventPayload, hostname: Value, pid: nat)
    requires ToIsoString(body.timestamp).Some?
    ensures var line := SysLogLine(msgType, body, hostname, pid).value;
      var iso := ToIsoString(body.timestamp).value;
      |line| > 6 + |iso| && line[..6] == "<13>1 " && line[6..6 + |iso|] == iso && line[6 + |iso|] == ' '
  {
    var iso := ToIsoString(body.timestamp).value;
    HeaderLayout(iso, Render(hostname), ProcId(pid), ToUpperAscii(msgType), StructuredDataOf(body), Tail(body));
  }

  lemma HeaderLayout(iso: string, host: string, procId: string, msgId: string, sd: string, tail: string)
    ensures var line := JoinHeader(iso, host, procId, msgId) + " " + sd + tail;
      |line| > 6 + |iso| && line[..6] == "<13>1 " && line[6..6 + |iso|] == iso && line[6 + |iso|] == ' '
  {
    PriAndVersion();
    var rest := host + " " + AppName + " " + procId + " " + msgId + " " + sd + tail;
    var line := JoinHeader(iso, host, procId, msgId) + " " + sd + tail;
    assert line == "<13>1 " + (iso + (" " + rest));
  }

  /** The MSG tail is there exactly when the event message is a non-empty
      string; without it the line ends with the structured data. */
  lemma TailIff(msgType: string, body: EventPayload, hostname: Value, pid: nat)
    requires ToIsoString(body.timestamp).Some?
    ensures var line := SysLogLine(msgType, body, hostname, pid).value;
      var head := Header(ToIsoString(body.timestamp).value, hostname, pid, msgType) + " " + StructuredDataOf(body);
      var m := body.eventMessage;
      (m.Str? && |m.s| > 0 <==> |line| > |head|)
      && (m.Str? && |m.s| > 0 ==> line == head + " " + [Bom] + m.s)
      && (!(m.Str? && |m.s| > 0) ==> line == head)
  {
    var head := Header(ToIsoString(body.timestamp).value, hostname, pid, msgType) + " " + StructuredDataOf(body);
    TailShape(head, body);
  }

  lemma TailShape(head: string, body: EventPayload)
    ensures var line := head + Tail(body);
      var m := body.eventMessage;
      (m.Str? && |m.s| > 0 <==> |line| > |head|)
      && (m.Str? && |m.s| > 0 ==> line == head + " " + [Bom] + m.s)
      && (!(m.Str? && |m.s| > 0) ==> line == head)
  {
    if HasMessage(body) {
      assert head + " " + [Bom] + body.eventMessage.s == head + (" " + [Bom] + body.eventMessage.s);
    } else {
      assert Tail(body) == "";
      assert head + "" == head;
    }
  }

  /** A collector's reading of one header field: the text before the first
      space, and what follows that space. */
  function NextToken(s: string): (string, string) {
    if s == [] then ([], [])
    else if s[0] == ' ' then ([], s[1..])
    else
      var (t, rest) := NextToken(s[1..]);
      ([s[0]] + t, rest)
  }

  lemma {:induction false} NextTokenAppend(a: string, b: string)
    requires ' ' !in a
    ensures NextToken(a + " " + b) == (a, b)
  {
    if a == [] {
      assert a + " " + b == [' '] + b;
    } else {
      assert (a + " " + b)[1..] == a[1..] + " " + b;
      NextTokenAppend(a[1..], b);
      assert [a[0]] + a[1..] == a;
    }
  }

  datatype HeaderFields = HeaderFields(
    priVersion: string, timestamp: string, hostname: string,
    appName: string, procId: string, msgId: string)

  /** Splits a line into its six space-separated header fields and the rest
      (structured data and message). */
  function ParseHeader(line: string): (HeaderFields, string) {
    var (f1, r1) := NextToken(line);
    var (f2, r2) := NextToken(r1);
    var (f3, r3) := NextToken(r2);
    var (f4, r4) := NextToken(r3);
    var (f5, r5) := NextToken(r4);
    var (f6, r6) := NextToken(r5);
    (HeaderFields(f1, f2, f3, f4, f5, f6), r6)
  }

  lemma HeaderRoundTrip(iso: string, host: string, procId: string, msgId: string, rest: string)
    requires ' ' !in iso && ' ' !in host && ' ' !in procId && ' ' !in msgId
    ensures ParseHeader(JoinHeader(iso, host, procId, msgId) + " " + rest)
         == (HeaderFields("<13>1", iso, host, AppName, procId, msgId), rest)
  {
    PriAndVersion();
    var r5 := msgId + " " + rest;
    var r4 := procId + " " + r5;
    var r3 := AppName + " " + r4;
    var r2 := host + " " + r3;
    var r1 := iso + " " + r2;
    assert JoinHeader(iso, host, procId, msgId) + " " + rest == "<13>1" + " " + r1;
    NextTokenAppend("<13>1", r1);
    NextTokenAppend(iso, r2);
    NextTokenAppend(host, r3);
    NextTokenAppend(AppName, r4);
    NextTokenAppend(procId, r5);
    NextTokenAppend(msgId, rest);
  }

  /** A collector that splits the line at spaces reads back the fields the
      producer put in, as long as the hostname and the event type hold no
      space (the producer checks neither, nor the 32-character limit RFC 5424
      sets for MSGID). What follows the header is the structured data and the
      optional message. */
  lemma LineHeaderRoundTrip(msgType: string, body: EventPayload, hostname: Value, pid: nat)
    requires ToIsoString(body.timestamp).Some?
    requires ' ' !in Render(hostname) && ' ' !in msgType
    ensures ParseHeader(SysLogLine(msgType, body, hostname, pid).value)
         == (HeaderFields("<13>1", ToIsoString(body.timestamp).value, Render(hostname),
                          "TANlockManager", ProcId(pid), ToUpperAscii(msgType)),
             StructuredDataOf(body) + Tail(body))
  {
    var iso := ToIsoString(body.timestamp).value;
    IsoHasNoSpace(body.timestamp);
    var up := ToUpperAscii(msgType);
    assert forall i :: 0 <= i < |up| ==> up[i] != ' ';
    var rest := StructuredDataOf(body) + Tail(body);
    AppendAssoc(Header(iso, hostname, pid, msgType), " ", rest);
    AppendAssoc(Header(iso, hostname, pid, msgType) + " ", StructuredDataOf(body), Tail(body));
    HeaderRoundTrip(iso, Render(hostname), ProcId(pid), up, rest);
  }

  /** The byte order mark travels as the three bytes EF BB BF. */
  lemma BomBytes()
    ensures Utf8.EncodeChar(Bom) == [0xEF, 0xBB, 0xBF]
    ensures Utf8.CodePointLen(Bom) == 3
  {
  }

  lemma {:induction false} UpperIdempotent(s: string)
    ensures ToUpperAscii(ToUpperAscii(s)) == ToUpperAscii(s)
    ensures forall i :: 0 <= i < |s| ==> !('a' <= ToUpperAscii(s)[i] <= 'z')
  {
    if s != [] {
      UpperIdempotent(s[1..]);
    }
  }
}
