/** The producer's module state (`_config`, `inited` and the three socket
    variables) and the operations that use it: `init` picks and opens a
    transport, `writeConfig` swaps the configuration, and `onEvent` formats,
    frames and dispatches one event. */
module Producer {
  import opened JsValues
  import opened Payload
  import opened Message
  import opened Framing
  import opened IsoTime
  import Utf8

  /** The configuration object. The flags hold the truthiness of the
      corresponding property; `useTLS` is read by `onEvent` only. */
  datatype Config = Config(
    useTCP: bool,
    useTLS: bool,
    tcpTLS: bool,
    tcpOC: bool,
    tcpNonTransparentFramingChar: Value,
    port: Value,
    host: Value,
    syslogHostname: Value)

  /** `{}`, the configuration before `init` runs. */
  const EmptyConfig: Config := Config(false, false, false, false, Undefined, Undefined, Undefined, Undefined)

  /** The defaults used when no configuration is stored. */
  const BaseConfig: Config :=
    Config(false, false, false, true, Str("\n"), Num(514), Str("255.255.255.255"), Str("-"))

  datatype Transport = Udp | Tcp | Tls

  datatype FrameKind = Unframed | OctetCounting | NonTransparent

  /** What one event puts on the wire. */
  datatype Send =
    | Datagram(bytes: seq<Utf8.byte>, port: Value, host: Value)
    | StreamWrite(transport: Transport, bytes: seq<Utf8.byte>)

  /** Why `onEvent` throws: `toISOString` rejects the timestamp, or the
      socket variable of the chosen transport was never assigned. */
  datatype Error = InvalidTimeValue | SocketUndefined(transport: Transport)

  datatype Outcome = NotSent | Sent(send: Send) | Threw(error: Error)

  /** The transport `init` opens: TLS if `tcpTLS`, else TCP if `useTCP`,
      else UDP. */
  function OpenedTransport(c: Config): (t: Transport)
    ensures t == Tls <==> c.tcpTLS
    ensures t == Tcp <==> c.useTCP && !c.tcpTLS
    ensures t == Udp <==> !c.useTCP && !c.tcpTLS
  {
    if c.useTCP || c.tcpTLS then (if c.tcpTLS then Tls else Tcp) else Udp
  }

  /** The transport and framing `onEvent` uses. */
  function Route(c: Config): (r: (Transport, FrameKind))
    ensures r.0 != Udp <==> c.useTCP || c.useTLS
    ensures r.0 == Tls <==> (c.useTCP || c.useTLS) && c.tcpTLS
    ensures r.1 == Unframed <==> r.0 == Udp
    ensures r.1 == OctetCounting <==> (c.useTCP || c.useTLS) && (c.tcpOC || c.tcpTLS)
    ensures r.1 == NonTransparent <==> (c.useTCP || c.useTLS) && !c.tcpOC && !c.tcpTLS
  {
    if c.useTCP || c.useTLS then
      (if c.tcpTLS then Tls else Tcp, if c.tcpOC || c.tcpTLS then OctetCounting else NonTransparent)
    else (Udp, Unframed)
  }

  /** `onEvent` writes to the socket `init` opened exactly when the two
      disagree on nothing: they part ways when `useTCP` is off and exactly
      one of `useTLS` and `tcpTLS` is on. */
  lemma RouteMatchesOpened(c: Config)
    ensures Route(c).0 == OpenedTransport(c) <==> c.useTCP || c.useTLS == c.tcpTLS
  {
  }

  /** `tcpTLS` without `useTCP`: `init` opens a TLS socket, but `onEvent`
      tests `useTLS` and so takes the UDP branch. */
  lemma TlsOnlyConfigUsesUdp(c: Config)
    requires c.tcpTLS && !c.useTCP && !c.useTLS
    ensures OpenedTransport(c) == Tls && Route(c) == (Udp, Unframed)
  {
  }

  /** A TLS stream is always octet-counted, whatever `tcpOC` says. */
  lemma TlsIsOctetCounted(c: Config)
    requires Route(c).0 == Tls
    ensures Route(c).1 == OctetCounting
  {
  }

  /** The defaults send unframed UDP datagrams, and `init` opens UDP. */
  lemma BaseConfigIsUdp()
    ensures OpenedTransport(BaseConfig) == Udp && Route(BaseConfig) == (Udp, Unframed)
  {
  }

  class SyslogProducer {
    var config: Config
    var inited: bool
    /** Whether `udpSocket`, `tcpSocket` and `tlsSocket` have been assigned. */
    var udpSocket: bool
    var tcpSocket: bool
    var tlsSocket: bool
    /** The process id that PROCID carries. */
    const pid: nat

    predicate HasSocket(t: Transport)
      reads this
    {
      match t
      case Udp => udpSocket
      case Tcp => tcpSocket
      case Tls => tlsSocket
    }

    constructor (pid: nat)
      ensures config == EmptyConfig && !inited
      ensures !udpSocket && !tcpSocket && !tlsSocket
      ensures this.pid == pid
    {
      config := EmptyConfig;
      inited := false;
      udpSocket, tcpSocket, tlsSocket := false, false, false;
      this.pid := pid;
    }

    /** `init`: adopts the stored configuration `loaded`, then opens the
        transport it selects and sets `inited`. `opens` is false when opening
        throws; the error is logged and neither `inited` nor any socket
        changes. A socket opened by an earlier `init` stays assigned. */
    method Init(loaded: Config, opens: bool)
      modifies this
      ensures config == loaded
      ensures inited == (old(inited) || opens)
      ensures forall t :: HasSocket(t) == (old(HasSocket(t)) || (opens && t == OpenedTransport(loaded)))
    {
      config := loaded;
      if opens {
        if config.useTCP || config.tcpTLS {
          if config.tcpTLS {
            tlsSocket := true;
          } else {
            tcpSocket := true;
          }
        } else {
          udpSocket := true;
        }
        inited := true;
      }
    }

    /** `writeConfig`: replaces the configuration without re-initialising,
        so the sockets stay those the last `init` opened. */
    method WriteConfig(c: Config)
      modifies this`config
      ensures config == c
    {
      config := c;
    }

    /** `onEvent(type, body)`: the line is built first (throwing when the
        timestamp is invalid); nothing is sent before `init`; afterwards the
        line is framed and sent as `Route` of the configuration says: a
        stream transport frames it (octet counting for `tcpOC` or `tcpTLS`,
        otherwise the configured trailer) and writes it to the TLS socket if
        `tcpTLS`, else to the TCP socket; otherwise the bare line goes out as
        a datagram to the configured host and port. Writing to a socket
        variable that `init` never assigned throws. */
    method OnEvent(msgType: string, body: EventPayload) returns (out: Outcome)
      ensures var line := SysLogLine(msgType, body, config.syslogHostname, pid);
        var (t, k) := Route(config);
        && (line.None? ==> out == Threw(InvalidTimeValue))
        && (line.Some? && !inited ==> out == NotSent)
        && (line.Some? && inited ==>
              var framed := match k
                case Unframed => line.value
                case OctetCounting => AddOctetCount(line.value)
                case NonTransparent => AddNonTransparentFraming(line.value, config.tcpNonTransparentFramingChar);
              var send := if t == Udp then Datagram(Utf8.Encode(framed), config.port, config.host)
                          else StreamWrite(t, Utf8.Encode(framed));
              out == if HasSocket(t) then Sent(send) else Threw(SocketUndefined(t)))
    {
      var built := CreateSysLogMsg(msgType, body, config.syslogHostname, pid);
      if built.None? {
        return Threw(InvalidTimeValue);
      }
      var syslogMsg := built.value;
      if !inited {
        return NotSent;
      }
      if config.useTCP || config.useTLS {
        if config.tcpOC || config.tcpTLS {
          syslogMsg := AddOctetCount(syslogMsg);
        } else {
          syslogMsg := AddNonTransparentFraming(syslogMsg, config.tcpNonTransparentFramingChar);
        }
        if config.tcpTLS {
          out := if tlsSocket then Sent(StreamWrite(Tls, Utf8.Encode(syslogMsg))) else Threw(SocketUndefined(Tls));
        } else {
          out := if tcpSocket then Sent(StreamWrite(Tcp, Utf8.Encode(syslogMsg))) else Threw(SocketUndefined(Tcp));
        }
      } else {
        out := if udpSocket then Sent(Datagram(Utf8.Encode(syslogMsg), config.port, config.host))
               else Threw(SocketUndefined(Udp));
      }
    }
  }

  /** A producer initialised with `tcpTLS` but not `useTCP` fails on its
      first event: the TLS socket is open, but the event goes to the UDP
      socket, which was never created. */
  method TlsOnlyConfigThrows(pid: nat, c: Config, msgType: string, body: EventPayload) returns (out: Outcome)
    requires c.tcpTLS && !c.useTCP && !c.useTLS
    requires ToIsoString(body.timestamp).Some?
    ensures out == Threw(SocketUndefined(Udp))
  {
    var producer := new SyslogProducer(pid);
    producer.Init(c, true);
    assert !producer.HasSocket(Udp);
    assert SysLogLine(msgType, body, c.syslogHostname, pid).Some?;
    out := producer.OnEvent(msgType, body);
  }

  /** Changing the transport with `writeConfig` after `init` leaves the event
      without a socket: UDP was opened, and TCP is then selected. */
  method WriteConfigWithoutReinitThrows(pid: nat, first: Config, second: Config, msgType: string, body: EventPayload)
    returns (out: Outcome)
    requires !first.useTCP && !first.tcpTLS
    requires second.useTCP && !second.tcpTLS
    requires ToIsoString(body.timestamp).Some?
    ensures out == Threw(SocketUndefined(Tcp))
  {
    var producer := new SyslogProducer(pid);
    producer.Init(first, true);
    assert !producer.HasSocket(Tcp);
    producer.WriteConfig(second);
    assert SysLogLine(msgType, body, second.syslogHostname, pid).Some?;
    out := producer.OnEvent(msgType, body);
  }
}
