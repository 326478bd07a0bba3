/** The parking service's reaction to `booking.created`: it picks a spot id
    and publishes `parking.spot.reserved`. Nothing is checked against the
    spot table and nothing in it changes; the one published event is the
    result. `Math.random()` is the parameter `r`, a real in [0, 1), and
    `new Date().toISOString()` is the parameter `now`. */
module Reservation {
  import opened Js
  import opened EventBus

  const ReservedTopic := "parking.spot.reserved"

  /** `Math.floor(r * 100) + 1` */
  function RandomSpot(r: real): (n: int)
    requires 0.0 <= r < 1.0
    ensures 1 <= n <= 100
  {
    (r * 100.0).Floor + 1
  }

  /** Every spot id from 1 to 100 is a possible random choice. */
  lemma RandomSpotCovers(n: int)
    requires 1 <= n <= 100
    ensures var r := (n - 1) as real / 100.0; 0.0 <= r < 1.0 && RandomSpot(r) == n
  {
    var r := (n - 1) as real / 100.0;
    assert r * 100.0 == (n - 1) as real;
  }

  /** `spotId || <random>`: a truthy spot id is kept as it is, anything
      falsy (missing, 0, "", null) is replaced by a number from 1 to 100. */
  function ChosenSpot(spotId: Value, r: real): (v: Value)
    requires 0.0 <= r < 1.0
    ensures Truthy(spotId) ==> v == spotId
    ensures !Truthy(spotId) ==> v == Num(RandomSpot(r)) && 1 <= v.n <= 100
  {
    Or(spotId, Num(RandomSpot(r)))
  }

  /** `reserveSpot({ bookingId, lotId, spotId })`: the one event it publishes. */
  function ReserveSpot(bookingId: Value, lotId: Value, spotId: Value, r: real, now: string): (e: Event)
    requires 0.0 <= r < 1.0
    ensures e.topic == ReservedTopic
    ensures e.payload.Keys == {"bookingId", "lotId", "spotId", "timestamp", "status"}
    ensures e.payload["bookingId"] == bookingId && e.payload["lotId"] == lotId
    ensures e.payload["spotId"] == ChosenSpot(spotId, r)
    ensures e.payload["timestamp"] == Str(now) && e.payload["status"] == Str("reserved")
  {
    Event(ReservedTopic, map["bookingId" := bookingId, "lotId" := lotId, "spotId" := ChosenSpot(spotId, r),
                             "timestamp" := Str(now), "status" := Str("reserved")])
  }

  /** `handleBookingCreated(event)`: the three ids out of the payload, on to
      `reserveSpot`. The booking's user and status are not passed on. */
  function HandleBookingCreated(payload: Record, r: real, now: string): (e: Event)
    requires 0.0 <= r < 1.0
    ensures e.topic == ReservedTopic
    ensures e.payload.Keys == {"bookingId", "lotId", "spotId", "timestamp", "status"}
    ensures e.payload["bookingId"] == Get(payload, "bookingId") && e.payload["lotId"] == Get(payload, "lotId")
    ensures e.payload["spotId"] == ChosenSpot(Get(payload, "spotId"), r)
    ensures "userId" !in e.payload && e.payload["status"] == Str("reserved")
  {
    ReserveSpot(Get(payload, "bookingId"), Get(payload, "lotId"), Get(payload, "spotId"), r, now)
  }
}
