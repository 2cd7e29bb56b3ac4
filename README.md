# TANlock syslog producer, modelled in Dafny

The plugin turns TANlock access-control events (a door opened, a lock
changed state) into RFC 5424 syslog lines and sends them to a collector over
UDP, TCP or TLS. This project models its producer core, `index.js`:

- the line builder `_createSysLogMsg`: `<13>1`, an ISO-8601 timestamp from
  `new Date(body.timestamp).toISOString()`, the configured hostname,
  `TANlockManager`, `PID<pid>`, the upper-cased event type as MSGID, the
  structured data and, when the event carries a message, a space, the byte
  order mark and the message (`message.dfy`);
- the structured-data encoder (`_createStructuredData`, `_splittAppend`,
  `_createEventStructured`, `_createObjStructured`), which writes one
  SD-ELEMENT `[name@61208 k="v" ...]` for the event and one for each
  non-null domain object (`structured.dfy`);
- the `_slim*` allow-list projections of the tanlock, cabinet, row and cage
  objects (`sanitize.dfy`);
- the RFC 6587 framings `_addOctettCount` and `_addNonTransparentFraming`
  (`framing.dfy`), with a collector's reading of each frame;
- the module state (`_config`, `inited`, the three socket variables) and
  `init`, `writeConfig` and `onEvent` as a class (`producer.dfy`).

Supporting modules give the JavaScript side its meaning: `values.dfy` (the
values a property can hold, and how template interpolation renders them),
`decimal.dfy` (decimal digits), `isotime.dfy` (`Date.prototype.toISOString`
on an integer time value, including its RangeError) and `utf8.dfy`
(`Buffer.from`, UTF-8).

Behaviour kept exactly as the code has it:

- `init` opens a socket by testing `useTCP || tcpTLS`, while `onEvent`
  chooses the transport by testing `useTCP || useTLS`. With `tcpTLS` set and
  both `useTCP` and `useTLS` unset, on a producer whose UDP socket was never
  opened, `init` opens TLS and `onEvent` then writes to the UDP socket and
  throws (`Producer.TlsOnlyConfigThrows`).
- `writeConfig` replaces the configuration without reopening any socket
  (`Producer.WriteConfigWithoutReinitThrows`).
- `_splittAppend` adds the delimiter even when the appended part is empty,
  so every null domain object still leaves a space (`StructuredData.AllRefsNull`).
- Values in SD-PARAMs are quoted but not escaped; `"`, `]` and `\` pass
  through unchanged.
- The structured data always starts with the event element, so the `-`
  branch of `_createSysLogMsg` is never taken (`StructuredData.StructuredDataNotEmpty`).
- A stored configuration without `syslogHostname` puts the text
  `undefined` in the HOSTNAME field, where RFC 5424 (section 6.2.4) expects
  the nil value `-`.
- A stored configuration with `tcpOC` false and no
  `tcpNonTransparentFramingChar` appends the text `undefined` as the
  non-transparent trailer.
- A trailer character inside the message cuts a non-transparent frame short
  (`Framing.TrailerInMessageSplits`).

## Model

| member | source | states |
|---|---|---|
| Message.PriAndVersion | index.js:14-15 | PRI is 13 = facility 1 × 8 + severity 5, and the header opens with `<13>1` |
| Message.ProcId | index.js:17 | PROCID is `PID` followed by the decimal text of the process id, and holds no space |
| Message.ProcIdInjective | index.js:17 | two different process ids never give the same PROCID |
| Message.ToUpperAscii | index.js:77 | MSGID keeps the event type's length and maps each lower-case letter to its capital, every other character unchanged |
| Message.UpperIdempotent | index.js:77 | upper-casing twice equals upper-casing once, and the result holds no lower-case ASCII letter |
| Message.SysLogLine | index.js:75-94 | there is no line exactly when `toISOString` throws for the timestamp |
| Message.CreateSysLogMsg | index.js:75-94 | the step-by-step builder returns the specified line, and fails exactly when the timestamp is out of range |
| Message.LineStart | index.js:79 | every line starts with `<13>1 `, the ISO timestamp and a space |
| Message.LineHeaderRoundTrip | index.js:79-83 | splitting the line at spaces gives back `<13>1`, timestamp, hostname, `TANlockManager`, PROCID and MSGID, followed by the structured data and message, when hostname and event type hold no space |
| Message.HeaderRoundTrip | index.js:79 | the six space-joined header fields read back field by field when none holds a space |
| Message.MessageOf | index.js:181-186 | the message is never null or undefined, and is a non-empty string exactly when the event message is one |
| Message.TailIff | index.js:88-91 | the BOM-and-message tail is present if and only if the event message is a non-empty string, and then equals a space, U+FEFF and the message |
| Message.TailShape | index.js:89-91 | appending the tail lengthens the line exactly when there is a message, and leaves it unchanged otherwise |
| Message.BomBytes | index.js:20 | the BOM is sent as the three bytes EF BB BF |
| StructuredData.EventElement | index.js:121-123 | the event element is non-empty and starts with `[` |
| StructuredData.SplitAppend | index.js:113-119 | with an empty base the result is the appended part; otherwise it is the base, the delimiter and the appended part, in that order |
| StructuredData.EmptyPartStillDelimited | index.js:113-119 | appending an empty part to a non-empty base still adds the delimiter |
| StructuredData.PairsTextSnoc | index.js:113-119 | one more `_splittAppend` step appends exactly the next `key="value"` pair to the parameter list |
| StructuredData.CreateObjStructured | index.js:125-135 | the loop over the entries builds the specified element, and the result is empty exactly when the object is null |
| StructuredData.CreateStructuredData | index.js:96-111 | the five appends produce the event element followed by the tanlock, cabinet, row and cage elements, each separated by one space |
| StructuredData.StructuredDataStartsWithEvent | index.js:96-111 | the structured data begins with the event element followed by a space |
| StructuredData.StructuredDataNotEmpty | index.js:82-86 | the structured data is never empty, so the nil value is never substituted |
| StructuredData.AllRefsNull | index.js:113-119 | with all four references null the structured data is the event element followed by four spaces |
| StructuredData.ObjElementShape | index.js:125-135 | an element is empty if and only if its object is null; otherwise it starts with `[name@61208 ` and ends with `]` |
| Sanitize.Project | index.js:141-148 | the projected object has exactly the listed keys in order, each holding the input's property (undefined when absent) |
| Sanitize.Slim | index.js:138-179 | null stays null; any object becomes its projection onto the allow-list |
| Sanitize.SlimLock | index.js:138-149 | a lock keeps exactly id, ip, name, state, door_1, door_2, with the input's values |
| Sanitize.SlimCabinet | index.js:151-160 | a cabinet keeps exactly id, name, frontLock, backLock, with the input's values |
| Sanitize.SlimRow | index.js:162-169 | a row keeps exactly id, name, with the input's values |
| Sanitize.SlimCage | index.js:171-179 | a cage keeps exactly id, name, color, with the input's values |
| Sanitize.ProjectIgnoresOtherKeys | index.js:137-179 | two objects that agree on the allow-listed keys slim to the same object |
| Sanitize.SlimIgnoresExtraEntry | index.js:137-179 | adding a property that is not allow-listed changes nothing in the slimmed object |
| Framing.AddOctetCount | index.js:189-192 | the framed text is longer than the message and ends with it; `Framing.OctetFrameRoundTrip` states what the count means |
| Framing.OctetFrameRoundTrip | index.js:189-192 | a collector reading one octet-counted frame from the sent bytes, whatever follows, gets exactly the message's bytes and leaves the following bytes untouched |
| Framing.AddNonTransparentFraming | index.js:194-196 | the framed text is the message followed by the rendered trailer |
| Framing.TrailerFrameRoundTrip | index.js:194-196 | a collector reading up to the trailer gets the message back when the message does not contain the trailer |
| Framing.TrailerInMessageSplits | index.js:194-196 | with the default LF trailer the message `a\nb` reaches the collector as `a` |
| IsoTime.ToIsoString | index.js:76 | there is a timestamp exactly when the time value is within ±8.64e15 ms; it has 24 or 27 characters and ends with `Z` |
| IsoTime.Decompose | index.js:76 | the calendar fields of a time value are valid and denote that same time value |
| IsoTime.IsoRoundTrip | index.js:76 | reading the ISO string back gives the time value it was made from |
| IsoTime.IsoHasNoSpace | index.js:76 | the timestamp holds no space, so it is one header field |
| IsoTime.EpochText | index.js:76 | time value 0 gives `1970-01-01T00:00:00.000Z` |
| IsoTime.YearBound | index.js:76 | every valid time value has a year of at most six digits |
| Utf8.Encode | index.js:190 | the encoding has exactly the UTF-8 length of the text |
| Utf8.EncodeCharRoundTrip | index.js:190 | every encoded character decodes back to itself |
| Utf8.EncodeAppend | index.js:190 | encoding a concatenation is concatenating the encodings |
| Decimal.ParseNatToString | index.js:191 | the decimal count reads back as the same number |
| Producer.OpenedTransport | index.js:218-228 | `init` opens TLS if and only if `tcpTLS`, TCP if and only if `useTCP` without `tcpTLS`, UDP otherwise |
| Producer.Route | index.js:59-72 | `onEvent` uses a stream if and only if `useTCP` or `useTLS`; TLS if and only if additionally `tcpTLS`; octet counting if and only if a stream and `tcpOC` or `tcpTLS` |
| Producer.RouteMatchesOpened | index.js:59-72 | `onEvent` writes to the transport `init` opened if and only if `useTCP` is set or `useTLS` equals `tcpTLS` |
| Producer.TlsOnlyConfigUsesUdp | index.js:218-219 | with `tcpTLS` alone, `init` opens TLS but `onEvent` routes to UDP |
| Producer.TlsIsOctetCounted | index.js:60 | a TLS stream is always octet-counted |
| Producer.BaseConfigIsUdp | index.js:28-36 | the default configuration opens UDP and sends unframed datagrams |
| Producer.SyslogProducer.constructor | index.js:22-26 | the configuration starts empty, `inited` false, no socket assigned |
| Producer.SyslogProducer.Init | index.js:215-233 | the configuration becomes the loaded one; when opening succeeds exactly the selected socket is added and `inited` is set; on failure neither changes |
| Producer.SyslogProducer.WriteConfig | index.js:249-250 | only the configuration changes |
| Producer.SyslogProducer.OnEvent | index.js:53-73 | throws on an invalid timestamp; sends nothing before `init`; otherwise frames the line as `Route`'s frame kind says (unframed, octet counting, or the configured trailer) and sends it over `Route`'s transport (a datagram to the configured host and port for UDP, a stream write otherwise), or throws when that transport's socket was never assigned |
| Producer.TlsOnlyConfigThrows | index.js:59-71 | after `init` with `tcpTLS` alone, the first event throws for the missing UDP socket |
| Producer.WriteConfigWithoutReinitThrows | index.js:249-250 | switching from UDP to TCP with `writeConfig` makes the next event throw for the missing TCP socket |

## Left out

- Reading and writing `syslogConfig.json` (`_getConfigSync`, `_getConfig`, `getConfig`, the file write in `writeConfig`): file I/O. `Init` receives the loaded configuration as a parameter, whether it came from the file or from `_baseConfig`.
- Socket creation and writes (`tls.connect`, `net.createConnection`, `dgram.createSocket`, `send`, `write`) and the `setBroadcast` callback: network I/O. A send is recorded as the bytes and destination it would carry; whether opening throws is a parameter of `Init`.
- Asynchronous socket errors, connection state and reconnection: concurrency and the network.
- `name`, `getHelp` and `console.error`: constant text and logging.
- `process.pid` is a parameter of the producer.
- Configuration flags are modelled by their truthiness; `port` and `host` are passed through unchanged.
- Sanitize.Slim: a non-null domain reference is modelled as an object; primitive values in its place are not modelled.
- IsoTime.ToIsoString: timestamps are integer milliseconds; strings, `Date` objects, fractional numbers and NaN passed to `new Date` are not modelled.
- Message.ToUpperAscii: only ASCII letters are upper-cased; full Unicode case mapping of `toUpperCase` is not modelled.
- Utf8.Encode: text is a sequence of Unicode scalar values; lone UTF-16 surrogates, which `Buffer.from` replaces, are not representable.
- JsValues.Render: object, array, symbol and function values are not modelled. In the source they render through `toString` (`[object Object]`, comma-joined array elements) or throw a TypeError (symbols). This applies to `${value}` in SD-PARAMs, the event and event id fields, the message and the trailer. An array message with a positive `length` would also receive the BOM tail.
- Numbers are rendered as integers; JavaScript's rendering of fractional and exponent-form numbers is not modelled.
