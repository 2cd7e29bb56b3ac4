/** The event payload handed to the producer for one event. */
module Payload {
  import opened JsValues

  /** `body` of `onEvent(type, body)`. `timestamp` is the integral number of
      milliseconds since 1970-01-01T00:00:00Z given to `new Date(...)`; the
      domain references are `None` when null or absent. */
  datatype EventPayload = EventPayload(
    event: Value,
    eventId: Value,
    eventMessage: Value,
    timestamp: int,
    tanlock: Option<Obj>,
    cabinet: Option<Obj>,
    row: Option<Obj>,
    cage: Option<Obj>)
}
