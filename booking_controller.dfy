/** The booking service's HTTP handlers over the in-memory store: create
    (validate, store, publish `booking.created`, answer 201), get, and cancel. */
module BookingController {
  import opened Js
  import opened EventBus
  import opened BookingStore

  datatype Body = ErrorBody(error: string) | BookingBody(booking: Record)

  /** An HTTP reply, or none at all when the handler's promise rejects before
      it answers (a failed publish inside `createBookingHandler`). */
  datatype Response = Response(status: int, body: Body) | Unanswered

  const CreatedTopic := "booking.created"
  const MissingFields := "lotId and userId are required"
  const NotFound := "Booking not found"

  /** `!lotId || !userId` fails */
  predicate HasRequiredFields(body: Record) {
    Truthy(Get(body, "lotId")) && Truthy(Get(body, "userId"))
  }

  /** `{ lotId, spotId, userId }` taken out of the request body. */
  function BookingData(body: Record): (data: Record)
    ensures data.Keys == {"lotId", "spotId", "userId"}
    ensures data["lotId"] == Get(body, "lotId") && data["spotId"] == Get(body, "spotId")
    ensures data["userId"] == Get(body, "userId")
    ensures "id" !in data && "status" !in data && "createdAt" !in data
  {
    map["lotId" := Get(body, "lotId"), "spotId" := Get(body, "spotId"), "userId" := Get(body, "userId")]
  }

  /** The `booking.created` payload built from the stored booking and the
      request: the booking's own id, timestamp and status, and the three ids
      exactly as the client sent them. */
  function CreatedPayload(booking: Record, body: Record): (p: Record)
    ensures p.Keys == {"bookingId", "userId", "lotId", "spotId", "timestamp", "status"}
    ensures p["bookingId"] == Get(booking, "id") && p["status"] == Get(booking, "status")
    ensures p["timestamp"] == Get(booking, "createdAt")
    ensures p["userId"] == Get(body, "userId") && p["lotId"] == Get(body, "lotId")
    ensures p["spotId"] == Get(body, "spotId")
  {
    map["bookingId" := Get(booking, "id"), "userId" := Get(body, "userId"),
        "lotId" := Get(body, "lotId"), "spotId" := Get(body, "spotId"),
        "timestamp" := Get(booking, "createdAt"), "status" := Get(booking, "status")]
  }

  /** For a booking made by the handler the payload carries the new id, the
      creation time and the status "pending": the request body cannot
      override them, because only lotId, spotId and userId reach the store. */
  lemma CreatedPayloadOfNewBooking(id: int, createdAt: string, body: Record)
    ensures var p := CreatedPayload(NewBooking(id, createdAt, BookingData(body)), body);
      && p["bookingId"] == Num(id) && p["timestamp"] == Str(createdAt) && p["status"] == Pending
      && p["userId"] == Get(body, "userId") && p["lotId"] == Get(body, "lotId")
  {
  }

  /** The booking the handler stores holds the request's three ids next to
      the store's id, status and timestamp, and nothing else. */
  lemma StoredBookingOfRequest(id: int, createdAt: string, body: Record)
    ensures var b := NewBooking(id, createdAt, BookingData(body));
      && b.Keys == {"id", "status", "createdAt", "lotId", "spotId", "userId"}
      && b["lotId"] == Get(body, "lotId") && b["spotId"] == Get(body, "spotId")
      && b["userId"] == Get(body, "userId")
      && b["id"] == Num(id) && b["status"] == Pending && b["createdAt"] == Str(createdAt)
  {
  }

  /** `createBookingHandler`: 400 and no effect without lotId or userId;
      otherwise one booking is stored, then one `booking.created` is
      published, then 201 answers with the stored booking. The booking stays
      stored when the publish fails. */
  method CreateBookingHandler(store: Store, bus: Outbox, body: Record, now: string) returns (resp: Response)
    modifies store, bus`events
    ensures !HasRequiredFields(body) ==>
      && resp == Response(400, ErrorBody(MissingFields))
      && store.bookings == old(store.bookings) && store.nextId == old(store.nextId)
      && bus.events == old(bus.events)
    ensures HasRequiredFields(body) ==>
      var booking := NewBooking(old(store.nextId), now, BookingData(body));
      && store.bookings == old(store.bookings) + [booking]
      && store.nextId == old(store.nextId) + 1
      && bus.events == old(bus.events) + (if bus.connected then [Event(CreatedTopic, CreatedPayload(booking, body))] else [])
      && resp == (if bus.connected then Response(201, BookingBody(booking)) else Unanswered)
  {
    if !HasRequiredFields(body) {
      return Response(400, ErrorBody(MissingFields));
    }
    var booking := store.CreateBooking(BookingData(body), now);
    var ok := bus.Publish(CreatedTopic, CreatedPayload(booking, body));
    if !ok {
      return Unanswered;
    }
    resp := Response(201, BookingBody(booking));
  }

  /** `getBookingHandler`: looks the booking up by `Number(req.params.id)`. */
  function GetBookingHandler(store: Store, idParam: string): (resp: Response)
    reads store
    ensures resp.Response? && (resp.status == 200 || resp.status == 404)
    ensures resp.status == 404 <==> store.GetBookingById(StringToNumber(idParam)).None?
    ensures resp.status == 404 ==> resp.body == ErrorBody(NotFound)
    ensures resp.status == 200 ==> resp.body == BookingBody(store.GetBookingById(StringToNumber(idParam)).value)
    ensures StringToNumber(idParam).NaN? ==> resp.status == 404
  {
    match store.GetBookingById(StringToNumber(idParam))
    case None => Response(404, ErrorBody(NotFound))
    case Some(b) => Response(200, BookingBody(b))
  }

  /** When every id came from the counter, the URL `/bookings/<k>` finds a
      booking exactly when k is an id handed out so far, and then the k-th one. */
  lemma GetByRenderedId(store: Store, k: int)
    requires Sequential(store.bookings, store.nextId)
    ensures var resp := GetBookingHandler(store, IntToDecimal(k));
      && (resp.status == 200 <==> 1 <= k < store.nextId)
      && (resp.status == 200 ==> resp.body == BookingBody(store.bookings[k - 1]))
  {
    NumberOfDecimal(k);
    SequentialLookup(store.bookings, store.nextId, k);
  }

  /** `cancelBookingHandler`: 404 for an unknown id, otherwise the booking with
      status "cancelled". It checks neither owner nor role, and publishes
      nothing (it has no access to the bus). */
  method CancelBookingHandler(store: Store, idParam: string) returns (resp: Response)
    modifies store
    ensures store.bookings == CancelIn(old(store.bookings), StringToNumber(idParam))
    ensures store.nextId == old(store.nextId)
    ensures old(store.GetBookingById(StringToNumber(idParam))).None? <==> resp == Response(404, ErrorBody(NotFound))
    ensures resp.Response? && (resp.status == 200 || resp.status == 404)
    ensures resp.status == 200 ==>
      resp.body == BookingBody(old(store.GetBookingById(StringToNumber(idParam))).value["status" := Cancelled])
  {
    var r := store.CancelBooking(StringToNumber(idParam));
    match r
    case None =>
      resp := Response(404, ErrorBody(NotFound));
    case Some(b) =>
      resp := Response(200, BookingBody(b));
  }
}
