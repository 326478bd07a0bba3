/** The booking service's in-memory store: a module-level array of booking
    objects and a counter that hands out ids. */
module BookingStore {
  import opened Js

  const Pending: Value := Str("pending")
  const Cancelled: Value := Str("cancelled")

  /** `{ id, status: "pending", createdAt, ...data }`: the defaults come first,
      so a property of `data` with the same name wins. */
  function NewBooking(id: int, createdAt: string, data: Record): (b: Record)
    ensures b.Keys == data.Keys + {"id", "status", "createdAt"}
    ensures forall k :: k in data ==> b[k] == data[k]
    ensures "id" !in data ==> b["id"] == Num(id)
    ensures "status" !in data ==> b["status"] == Pending
    ensures "createdAt" !in data ==> b["createdAt"] == Str(createdAt)
  {
    map["id" := Num(id), "status" := Pending, "createdAt" := Str(createdAt)] + data
  }

  /** `b.id === id` */
  predicate HasId(b: Record, id: Value) {
    StrictEquals(Get(b, "id"), id)
  }

  /** The index `bookings.find(b => b.id === id)` stops at. */
  function FindFirst(bs: seq<Record>, id: Value): (r: Option<nat>)
    ensures r.Some? ==> r.value < |bs| && HasId(bs[r.value], id)
    ensures r.Some? ==> forall j :: 0 <= j < r.value ==> !HasId(bs[j], id)
    ensures r.None? <==> forall j :: 0 <= j < |bs| ==> !HasId(bs[j], id)
  {
    if bs == [] then None
    else if HasId(bs[0], id) then Some(0)
    else match FindFirst(bs[1..], id)
      case None => None
      case Some(i) => Some(i + 1)
  }

  /** The table after `cancelBooking(id)`: the first booking with that id has
      its status overwritten, and nothing else changes. */
  function CancelIn(bs: seq<Record>, id: Value): (r: seq<Record>)
    ensures |r| == |bs|
    ensures FindFirst(bs, id).None? ==> r == bs
    ensures FindFirst(bs, id).Some? ==>
      var i := FindFirst(bs, id).value;
      && r[i] == bs[i]["status" := Cancelled]
      && forall j :: 0 <= j < |bs| && j != i ==> r[j] == bs[j]
  {
    match FindFirst(bs, id)
    case None => bs
    case Some(i) => bs[i := bs[i]["status" := Cancelled]]
  }

  /** The shape of the table when no caller overrode `id`: the i-th booking
      (from 0) has id i + 1, and the counter is one past the last id. */
  ghost predicate Sequential(bs: seq<Record>, nextId: int) {
    && nextId == |bs| + 1
    && forall i :: 0 <= i < |bs| ==> Get(bs[i], "id") == Num(i + 1)
  }

  /** In that shape the ids are pairwise distinct and below `nextId`, so a
      lookup by a number finds exactly the booking holding it. */
  lemma SequentialLookup(bs: seq<Record>, nextId: int, k: int)
    requires Sequential(bs, nextId)
    ensures forall i, j :: 0 <= i < j < |bs| ==> Get(bs[i], "id") != Get(bs[j], "id")
    ensures FindFirst(bs, Num(k)) == if 1 <= k < nextId then Some(k - 1) else None
  {
    if 1 <= k < nextId {
      assert HasId(bs[k - 1], Num(k));
    }
  }

  lemma CreatePreservesSequential(bs: seq<Record>, nextId: int, createdAt: string, data: Record)
    requires Sequential(bs, nextId)
    requires "id" !in data
    ensures Sequential(bs + [NewBooking(nextId, createdAt, data)], nextId + 1)
  {
    var bs' := bs + [NewBooking(nextId, createdAt, data)];
    forall i | 0 <= i < |bs'| ensures Get(bs'[i], "id") == Num(i + 1) {
      if i < |bs| { assert bs'[i] == bs[i]; }
    }
  }

  /** Two tables whose rows carry the same ids answer every lookup alike. */
  lemma {:induction false} FindFirstDependsOnIdsOnly(bs: seq<Record>, cs: seq<Record>, id: Value)
    requires |bs| == |cs|
    requires forall j :: 0 <= j < |bs| ==> Get(bs[j], "id") == Get(cs[j], "id")
    ensures FindFirst(bs, id) == FindFirst(cs, id)
  {
    if bs != [] {
      FindFirstDependsOnIdsOnly(bs[1..], cs[1..], id);
    }
  }

  /** Cancelling never changes an id, so every later lookup is unaffected. */
  lemma CancelKeepsLookups(bs: seq<Record>, id: Value, other: Value)
    ensures FindFirst(CancelIn(bs, id), other) == FindFirst(bs, other)
  {
    var r := CancelIn(bs, id);
    forall j | 0 <= j < |bs| ensures Get(bs[j], "id") == Get(r[j], "id") {
    }
    FindFirstDependsOnIdsOnly(bs, r, other);
  }

  lemma CancelPreservesSequential(bs: seq<Record>, nextId: int, id: Value)
    requires Sequential(bs, nextId)
    ensures Sequential(CancelIn(bs, id), nextId)
  {
  }

  /** Cancelling twice leaves the table as cancelling once. */
  lemma CancelIdempotent(bs: seq<Record>, id: Value)
    ensures CancelIn(CancelIn(bs, id), id) == CancelIn(bs, id)
  {
    CancelKeepsLookups(bs, id, id);
    var r := CancelIn(bs, id);
    if FindFirst(bs, id).Some? {
      var i := FindFirst(bs, id).value;
      assert r[i]["status" := Cancelled] == r[i];
      assert r[i := r[i]["status" := Cancelled]] == r;
    }
  }

  class Store {
    var bookings: seq<Record>
    var nextId: int

    /** `let bookings = []; let nextId = 1;` */
    constructor ()
      ensures bookings == [] && nextId == 1
      ensures Sequential(bookings, nextId)
    {
      bookings := [];
      nextId := 1;
    }

    /** `createBooking(data)` */
    method CreateBooking(data: Record, createdAt: string) returns (booking: Record)
      modifies this
      ensures booking == NewBooking(old(nextId), createdAt, data)
      ensures bookings == old(bookings) + [booking]
      ensures nextId == old(nextId) + 1
      ensures old(Sequential(bookings, nextId)) && "id" !in data ==> Sequential(bookings, nextId)
    {
      booking := NewBooking(nextId, createdAt, data);
      nextId := nextId + 1;
      bookings := bookings + [booking];
      if old(Sequential(bookings, nextId)) && "id" !in data {
        CreatePreservesSequential(old(bookings), old(nextId), createdAt, data);
      }
    }

    /** `getBookingById(id)`: the first booking whose id is strictly equal to
        `id`, or nothing. */
    function GetBookingById(id: Value): (r: Option<Record>)
      reads this
      ensures r.None? <==> forall j :: 0 <= j < |bookings| ==> !HasId(bookings[j], id)
      ensures r.Some? ==> exists i :: 0 <= i < |bookings| && FindFirst(bookings, id) == Some(i) && r.value == bookings[i]
      ensures r.Some? ==> HasId(r.value, id)
    {
      match FindFirst(bookings, id)
      case None => None
      case Some(i) => Some(bookings[i])
    }

    /** `cancelBooking(id)`: `null` for an unknown id; otherwise the found
        booking, whose status is now "cancelled". */
    method CancelBooking(id: Value) returns (r: Option<Record>)
      modifies this
      ensures bookings == CancelIn(old(bookings), id) && nextId == old(nextId)
      ensures r.None? <==> old(GetBookingById(id)).None?
      ensures r.Some? ==> r == Some(old(GetBookingById(id)).value["status" := Cancelled])
      ensures old(Sequential(bookings, nextId)) ==> Sequential(bookings, nextId)
    {
      match FindFirst(bookings, id)
      case None =>
        r := None;
      case Some(i) =>
        bookings := bookings[i := bookings[i]["status" := Cancelled]];
        r := Some(bookings[i]);
    }
  }
}
