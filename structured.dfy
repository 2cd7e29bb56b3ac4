/** The structured-data encoder: SD-ELEMENTs of the form
    `[name@61208 k1="v1" ... kn="vn"]` (RFC 5424, section 6.3), one for the
    event and one per non-null domain object, in the order event, tanlock,
    cabinet, row, cage. Values are quoted but not escaped. */
module StructuredData {
  import opened JsValues
  import opened Sanitize
  import opened Payload

  /** Private Enterprise Number used as the SD-ID suffix of every element. */
  const EnterpriseNumber: string := "61208"

  /** `_splittAppend(base, app, delim)`: joins with `delim` unless `base` is
      empty; an empty `app` still receives the delimiter. */
  function SplitAppend(base: string, app: string, delim: string): (r: string)
    ensures |base| == 0 ==> r == app
    ensures |base| > 0 ==>
      (|r| == |base| + |delim| + |app|
       && r[..|base|] == base && r[|base|..|base| + |delim|] == delim && r[|base| + |delim|..] == app)
  {
    if |base| > 0 then base + delim + app else app
  }

  /** The delimiter is added even for an empty part: a non-empty base
      followed by an empty element grows by the delimiter alone. */
  lemma EmptyPartStillDelimited(base: string, delim: string)
    requires |base| > 0
    ensures SplitAppend(base, "", delim) == base + delim
  {
    assert base + delim + "" == base + delim;
  }

  /** The element that is always present: `[event@61208 event="…" eventId="…"]`. */
  function EventElement(event: Value, eventId: Value): (s: string)
    ensures |s| > 0 && s[0] == '['
  {
    "[event@" + EnterpriseNumber + " event=\"" + Render(event) + "\" eventId=\"" + Render(eventId) + "\"]"
  }

  /** One SD-PARAM, `key="value"`, the value rendered as interpolation does. */
  function PairText(e: Entry): (s: string)
    ensures |s| >= 3
  {
    e.0 + "=\"" + Render(e.1) + "\""
  }

  /** The parameters of an element: one `key="value"` per entry, in entry
      order, separated by single spaces. */
  function PairsText(o: Obj): string {
    if o == [] then ""
    else if |o| == 1 then PairText(o[0])
    else PairText(o[0]) + " " + PairsText(o[1..])
  }

  /** The element for a sanitised domain object: nothing for null. */
  function ObjElement(name: string, ref: Option<Obj>): string {
    match ref
    case None => ""
    case Some(o) => "[" + name + "@" + EnterpriseNumber + " " + PairsText(o) + "]"
  }

  /** The structured data of an event: the five elements, each pair of them
      separated by one space, even where a null reference left its element
      empty. */
  function StructuredDataOf(body: EventPayload): string {
    EventElement(body.event, body.eventId)
      + " " + ObjElement("tanlock", SlimLock(body.tanlock))
      + " " + ObjElement("cabinet", SlimCabinet(body.cabinet))
      + " " + ObjElement("row", SlimRow(body.row))
      + " " + ObjElement("cage", SlimCage(body.cage))
  }

  /** Appending one more pair to the accumulated parameters, as the loop of
      `_createObjStructured` does, yields the parameters of the longer list. */
  lemma {:induction false} PairsTextSnoc(o: Obj, e: Entry)
    ensures SplitAppend(PairsText(o), PairText(e), " ") == PairsText(o + [e])
  {
    if o == [] {
      assert [] + [e] == [e];
    } else if |o| == 1 {
      assert (o + [e])[1..] == [e];
    } else {
      PairsTextSnoc(o[1..], e);
      assert (o + [e])[1..] == o[1..] + [e];
    }
  }

  /** `_createObjStructured(name, obj)`. */
  method CreateObjStructured(name: string, ref: Option<Obj>) returns (s: string)
    ensures s == ObjElement(name, ref)
    ensures ref.None? <==> s == ""
  {
    if ref.None? {
      return "";
    }
    var o := ref.value;
    var data := "";
    var i := 0;
    while i < |o|
      invariant 0 <= i <= |o|
      invariant data == PairsText(o[..i])
    {
      PairsTextSnoc(o[..i], o[i]);
      assert o[..i + 1] == o[..i] + [o[i]];
      data := SplitAppend(data, PairText(o[i]), " ");
      i := i + 1;
    }
    assert o[..i] == o;
    s := "[" + name + "@" + EnterpriseNumber + " " + data + "]";
  }

  /** `_createStructuredData(type, body)`: builds the five elements and joins
      them with `_splittAppend`, starting from the empty string. */
  method CreateStructuredData(body: EventPayload) returns (structuredData: string)
    ensures structuredData == StructuredDataOf(body)
  {
    var structEvent := EventElement(body.event, body.eventId);
    var structLock := CreateObjStructured("tanlock", SlimLock(body.tanlock));
    var structCabinet := CreateObjStructured("cabinet", SlimCabinet(body.cabinet));
    var structRow := CreateObjStructured("row", SlimRow(body.row));
    var structCage := CreateObjStructured("cage", SlimCage(body.cage));

    structuredData := "";
    structuredData := SplitAppend(structuredData, structEvent, " ");
    structuredData := SplitAppend(structuredData, structLock, " ");
    structuredData := SplitAppend(structuredData, structCabinet, " ");
    structuredData := SplitAppend(structuredData, structRow, " ");
    structuredData := SplitAppend(structuredData, structCage, " ");
  }

  /** The structured data always opens with the event element, so it is
      never empty and the nil value `-` is never substituted for it. */
  lemma StructuredDataStartsWithEvent(body: EventPayload)
    ensures var ev := EventElement(body.event, body.eventId);
      var sd := StructuredDataOf(body);
      |sd| > |ev| && sd[..|ev|] == ev && sd[|ev|] == ' '
  {
  }

  lemma StructuredDataNotEmpty(body: EventPayload)
    ensures |StructuredDataOf(body)| > 0
  {
  }

  /** With every domain reference null, only the event element is emitted,
      followed by the four delimiters the empty elements still receive. */
  lemma AllRefsNull(body: EventPayload)
    requires body.tanlock.None? && body.cabinet.None? && body.row.None? && body.cage.None?
    ensures StructuredDataOf(body) == EventElement(body.event, body.eventId) + "    "
  {
  }

  /** A null reference leaves no bracket of its own: the element text is
      empty exactly when the reference is null, and otherwise is a bracketed
      SD-ELEMENT named after the object. */
  lemma ObjElementShape(name: string, ref: Option<Obj>)
    ensures ref.None? <==> ObjElement(name, ref) == ""
    ensures ref.Some? ==>
      var s := ObjElement(name, ref);
      var head := "[" + name + "@61208 ";
      |s| > |head| && s[..|head|] == head && s[|s| - 1] == ']'
  {
  }
}
