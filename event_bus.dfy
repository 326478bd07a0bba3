/** Publishing to the Redis event bus, seen from the publisher: a publish either
    hands `(topic, payload)` to the bus, which is recorded in an append-only
    outbox, or fails because the connection is down. */
module EventBus {
  import opened Js

  datatype Event = Event(topic: string, payload: Record)

  class Outbox {
    /** Every event handed to the bus, oldest first. */
    var events: seq<Event>
    /** Whether the Redis client can currently publish. */
    var connected: bool

    constructor (connected: bool)
      ensures events == [] && this.connected == connected
    {
      events := [];
      this.connected := connected;
    }

    /** `await publishEvent(topic, payload)`: resolves after handing the event
        over, rejects (`ok == false`) without recording anything otherwise. */
    method Publish(topic: string, payload: Record) returns (ok: bool)
      modifies this`events
      ensures ok == connected
      ensures events == old(events) + (if ok then [Event(topic, payload)] else [])
    {
      ok := connected;
      if ok {
        events := events + [Event(topic, payload)];
      }
    }
  }
}
