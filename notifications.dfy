/** The notification service: each event it subscribes to becomes one
    `"notification"` broadcast `{ type, message, data }` to the connected
    web clients. The broadcast is the result here; `global.io` being set is
    the flag `ioSet`, and the handler's fresh timestamp is `now`. */
module Notifications {
  import opened Js
  import opened EventBus
  import opened Reservation
  import BookingStore
  import BookingController
  import AdminBookings

  /** `{ type, message, data }`; `data` is None where the source passes an
      `undefined` payload along. */
  datatype Notification = Notification(kind: string, message: string, data: Option<Record>)

  const CreatedType := "booking.created"
  const CancelledType := "booking.cancelled"
  const SpotReservedType := "spot.reserved"

  /** `event.payload?.key` */
  function Field(payload: Option<Record>, key: string): (v: Value)
    ensures payload.None? ==> v == Undefined
    ensures payload.Some? ==> v == Get(payload.value, key)
  {
    if payload.None? then Undefined else Get(payload.value, key)
  }

  /** The `booking.created` subscriber's broadcast: the payload as data, and
      "Booking <id> confirmed!" with "created" in place of a falsy or
      missing id. */
  function CreatedNotification(payload: Option<Record>): (n: Notification)
    ensures n.kind == CreatedType && n.data == payload
    ensures Truthy(Field(payload, "bookingId")) ==>
      n.message == "Booking " + ToStr(Field(payload, "bookingId")) + " confirmed!"
    ensures !Truthy(Field(payload, "bookingId")) ==> n.message == "Booking created confirmed!"
  {
    Notification(CreatedType, "Booking " + ToStr(Or(Field(payload, "bookingId"), Str("created"))) + " confirmed!", payload)
  }

  /** The `booking.cancelled` subscriber's broadcast: "Booking <id>
      cancelled.", with nothing in place of a falsy id. */
  function CancelledNotification(payload: Option<Record>): (n: Notification)
    ensures n.kind == CancelledType && n.data == payload
    ensures Truthy(Field(payload, "bookingId")) ==>
      n.message == "Booking " + ToStr(Field(payload, "bookingId")) + " cancelled."
    ensures !Truthy(Field(payload, "bookingId")) ==> n.message == "Booking  cancelled."
  {
    Notification(CancelledType, "Booking " + ToStr(Or(Field(payload, "bookingId"), Str(""))) + " cancelled.", payload)
  }

  /** `handleSpotReserved(event)`: nothing without a payload (destructuring
      it throws) or without `global.io`; otherwise one broadcast of type
      "spot.reserved" whose data is the three ids and a new timestamp, the
      payload's status and timestamp dropped. */
  function SpotReservedNotification(payload: Option<Record>, ioSet: bool, now: string): (n: Option<Notification>)
    ensures n.Some? <==> payload.Some? && ioSet
    ensures n.Some? ==>
      var p := payload.value;
      && n.value.kind == SpotReservedType
      && n.value.message == "Spot " + ToStr(Get(p, "spotId")) + " reserved in lot " + ToStr(Get(p, "lotId"))
                            + " for booking " + ToStr(Get(p, "bookingId"))
      && n.value.data.Some?
      && n.value.data.value.Keys == {"bookingId", "lotId", "spotId", "timestamp"}
      && n.value.data.value["bookingId"] == Get(p, "bookingId") && n.value.data.value["lotId"] == Get(p, "lotId")
      && n.value.data.value["spotId"] == Get(p, "spotId") && n.value.data.value["timestamp"] == Str(now)
  {
    match payload
    case None => None
    case Some(p) =>
      var bookingId, lotId, spotId := Get(p, "bookingId"), Get(p, "lotId"), Get(p, "spotId");
      if !ioSet then None
      else Some(Notification(SpotReservedType,
                  "Spot " + ToStr(spotId) + " reserved in lot " + ToStr(lotId) + " for booking " + ToStr(bookingId),
                  Some(map["bookingId" := bookingId, "lotId" := lotId, "spotId" := spotId, "timestamp" := Str(now)])))
  }

  /** The three subscriptions: `parking.spot.reserved` to the handler, the
      two booking topics to their inline callbacks, any other topic to none. */
  function Dispatch(topic: string, payload: Option<Record>, ioSet: bool, now: string): (sent: seq<Notification>)
    ensures |sent| <= 1
    ensures topic == CreatedType ==> sent == [CreatedNotification(payload)]
    ensures topic == CancelledType ==> sent == [CancelledNotification(payload)]
    ensures topic == ReservedTopic ==> (sent == [] <==> payload.None? || !ioSet)
    ensures topic != CreatedType && topic != CancelledType && topic != ReservedTopic ==> sent == []
    ensures topic == ReservedTopic ==> forall n :: n in sent ==> n.kind == SpotReservedType && n.kind != topic
  {
    if topic == ReservedTopic then
      match SpotReservedNotification(payload, ioSet, now)
      case None => []
      case Some(n) => [n]
    else if topic == CreatedType then [CreatedNotification(payload)]
    else if topic == CancelledType then [CancelledNotification(payload)]
    else []
  }

  /** A booking made through the booking service is announced with its own
      id: the counter starts at 1, so the "created" fallback never shows. */
  lemma CreatedMessageOfNewBooking(id: nat, createdAt: string, body: Record)
    requires id >= 1
    ensures var payload := BookingController.CreatedPayload(
              BookingStore.NewBooking(id, createdAt, BookingController.BookingData(body)), body);
      CreatedNotification(Some(payload)).message == "Booking " + NatToDecimal(id) + " confirmed!"
  {
    BookingController.CreatedPayloadOfNewBooking(id, createdAt, body);
  }

  /** From `booking.created` to the spot notification: the booking's id, the
      lot the client asked for and the chosen spot reach the message. */
  lemma SpotNotificationOfNewBooking(id: nat, createdAt: string, body: Record, r: real, now: string, later: string)
    requires id >= 1 && 0.0 <= r < 1.0
    ensures var created := BookingController.CreatedPayload(
              BookingStore.NewBooking(id, createdAt, BookingController.BookingData(body)), body);
      var reserved := HandleBookingCreated(created, r, now);
      var n := SpotReservedNotification(Some(reserved.payload), true, later);
      && reserved.topic == ReservedTopic
      && n.Some?
      && n.value.message == "Spot " + ToStr(ChosenSpot(Get(body, "spotId"), r)) + " reserved in lot "
                            + ToStr(Get(body, "lotId")) + " for booking " + NatToDecimal(id)
      && "status" !in n.value.data.value
  {
    BookingController.CreatedPayloadOfNewBooking(id, createdAt, body);
  }

  /** The admin's forced cancellation of booking `id` is announced with that
      id, except id 0, which is falsy and leaves a blank. */
  lemma CancelledMessageOfForceCancel(idParam: string, row: AdminBookings.BookingRow, now: string)
    requires AdminBookings.PgInteger(idParam).Some?
    ensures var id := AdminBookings.PgInteger(idParam).value;
      var n := CancelledNotification(Some(AdminBookings.CancelledPayload(idParam, row, now)));
      && (id != 0 ==> n.message == "Booking " + IntToDecimal(id) + " cancelled.")
      && (id == 0 ==> n.message == "Booking  cancelled.")
  {
    AdminBookings.ParseIntOfPgInteger(idParam);
  }
}
