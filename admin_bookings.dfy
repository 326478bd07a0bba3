/** The booking service's admin routes over the Postgres `bookings` table:
    the listing enriched with user records from the auth database, one
    booking with its user, and the forced cancellation that publishes
    `booking.cancelled`. Every route sits behind `authenticate, isAdmin`. */
module AdminBookings {
  import opened Js
  import opened EventBus
  import opened Middleware

  /** A row of `bookings`; `createdAt` is the `created_at` timestamp as a
      number that orders like it. */
  datatype BookingRow = BookingRow(id: int, userId: Value, lotId: Value, spotId: Value, status: string, createdAt: int)

  /** A row of the auth database's `users` (the three selected columns). */
  datatype UserRow = UserRow(id: Value, username: Value, email: Value)

  /** What `SELECT id, username, email FROM users WHERE id = $1` gave. */
  datatype UserLookup = Found(rows: seq<UserRow>) | LookupFailed

  /** `{ ...booking, user }` */
  datatype EnrichedBooking = EnrichedBooking(row: BookingRow, user: UserRow)

  /** A route's answer: an `Error` carries its HTTP status, and every other
      reply is a 200. */
  datatype Reply =
    | Listing(bookings: seq<EnrichedBooking>)
    | Detail(booking: EnrichedBooking)
    | Message(message: string)
    | Error(status: int, error: string)

  const CancelledTopic := "booking.cancelled"
  const NotFoundError := "Booking not found"
  const ServerError := "Internal server error"
  const CancelledMessage := "Booking cancelled by admin"

  const Int4Min := -2147483648
  const Int4Max := 2147483647

  /** Postgres reading a route parameter as the integer `id` column: an
      optional sign and decimal digits within the 32-bit range; anything else
      raises, which the route turns into a 500. */
  function PgInteger(s: string): (r: Option<int>)
    ensures r.Some? ==> Int4Min <= r.value <= Int4Max
  {
    match SignedDigits(s)
    case Some(n) => if Int4Min <= n <= Int4Max then Some(n) else None
    case None => None
  }

  /** `parseInt(id)` agrees with the integer Postgres read from the same text,
      so the published `bookingId` is the id of the cancelled row. */
  lemma ParseIntOfPgInteger(s: string)
    requires PgInteger(s).Some?
    ensures ParseInt(s) == Num(PgInteger(s).value)
  {
    assert |s| > 0 && (s[0] == '-' || s[0] == '+' || IsDigit(s[0]));
    DigitIsNotSpaceOrSign(s);
    assert TrimStart(s) == s;
    if s[0] == '-' || s[0] == '+' {
      DigitPrefixOfDigits(s[1..]);
    } else {
      DigitPrefixOfDigits(s);
    }
  }

  lemma DigitIsNotSpaceOrSign(s: string)
    requires |s| > 0 && (s[0] == '-' || s[0] == '+' || IsDigit(s[0]))
    ensures !IsSpace(s[0])
  {
  }

  /** The first row with this id (`rows[0]` of `WHERE id = $1`). */
  function RowWithId(table: seq<BookingRow>, id: int): (r: Option<BookingRow>)
    ensures r.Some? ==> r.value in table && r.value.id == id
    ensures r.None? <==> forall i :: 0 <= i < |table| ==> table[i].id != id
  {
    if table == [] then None
    else if table[0].id == id then Some(table[0])
    else RowWithId(table[1..], id)
  }

  ghost predicate SortedByCreatedDesc(rows: seq<BookingRow>) {
    forall i, j :: 0 <= i < j < |rows| ==> rows[i].createdAt >= rows[j].createdAt
  }

  function InsertByCreatedDesc(row: BookingRow, sorted: seq<BookingRow>): (r: seq<BookingRow>)
    ensures multiset(r) == multiset(sorted) + multiset{row}
    ensures |r| == |sorted| + 1
  {
    if sorted == [] || row.createdAt >= sorted[0].createdAt then [row] + sorted
    else
      assert sorted == [sorted[0]] + sorted[1..];
      [sorted[0]] + InsertByCreatedDesc(row, sorted[1..])
  }

  lemma {:induction false} InsertKeepsOrder(row: BookingRow, sorted: seq<BookingRow>)
    requires SortedByCreatedDesc(sorted)
    ensures SortedByCreatedDesc(InsertByCreatedDesc(row, sorted))
  {
    if !(sorted == [] || row.createdAt >= sorted[0].createdAt) {
      var rest := InsertByCreatedDesc(row, sorted[1..]);
      InsertKeepsOrder(row, sorted[1..]);
      forall j | 0 <= j < |rest| ensures sorted[0].createdAt >= rest[j].createdAt {
        assert rest[j] in multiset(rest);
        if rest[j] != row {
          assert rest[j] in multiset(sorted[1..]);
          var k :| 0 <= k < |sorted[1..]| && sorted[1..][k] == rest[j];
          assert sorted[k + 1] == rest[j];
        }
      }
      var r := [sorted[0]] + rest;
      forall i, j | 0 <= i < j < |r| ensures r[i].createdAt >= r[j].createdAt {
        if i > 0 { assert r[i] == rest[i - 1] && r[j] == rest[j - 1]; }
        else { assert r[j] == rest[j - 1]; }
      }
    }
  }

  /** `ORDER BY created_at DESC`: every row, newest first. */
  function OrderByCreatedDesc(rows: seq<BookingRow>): (r: seq<BookingRow>)
    ensures multiset(r) == multiset(rows) && |r| == |rows|
    ensures SortedByCreatedDesc(r)
  {
    if rows == [] then []
    else
      assert rows == [rows[0]] + rows[1..];
      InsertKeepsOrder(rows[0], OrderByCreatedDesc(rows[1..]));
      InsertByCreatedDesc(rows[0], OrderByCreatedDesc(rows[1..]))
  }

  /** `{ id: booking.user_id, username: null, email: null }` */
  function FallbackUser(userId: Value): (u: UserRow)
    ensures u.id == userId && u.username == Null && u.email == Null
  {
    UserRow(userId, Null, Null)
  }

  /** `userResult.rows[0] || fallback`, and the fallback when the query throws. */
  function UserFor(userId: Value, lookup: Value -> UserLookup): (u: UserRow)
    ensures lookup(userId).Found? && |lookup(userId).rows| > 0 ==> u == lookup(userId).rows[0]
    ensures lookup(userId).LookupFailed? || lookup(userId).rows == [] ==> u == FallbackUser(userId)
  {
    match lookup(userId)
    case Found(rows) => if rows != [] then rows[0] else FallbackUser(userId)
    case LookupFailed => FallbackUser(userId)
  }

  function Enrich(row: BookingRow, lookup: Value -> UserLookup): EnrichedBooking {
    EnrichedBooking(row, UserFor(row.userId, lookup))
  }

  /** The listing: every booking once, newest first, each with a user record;
      a user that cannot be read never removes its booking. */
  function ListBookings(table: seq<BookingRow>, lookup: Value -> UserLookup): (r: seq<EnrichedBooking>)
    ensures |r| == |table|
    ensures forall i, j :: 0 <= i < j < |r| ==> r[i].row.createdAt >= r[j].row.createdAt
    ensures multiset(seq(|r|, i requires 0 <= i < |r| => r[i].row)) == multiset(table)
    ensures forall i :: 0 <= i < |r| ==> r[i].user == UserFor(r[i].row.userId, lookup)
  {
    var sorted := OrderByCreatedDesc(table);
    var r := seq(|sorted|, i requires 0 <= i < |sorted| => Enrich(sorted[i], lookup));
    assert seq(|r|, i requires 0 <= i < |r| => r[i].row) == sorted;
    r
  }

  /** GET /admin/bookings */
  function ListRoute(table: seq<BookingRow>, header: Option<string>, verify: string -> Option<Claims>,
                     lookup: Value -> UserLookup): (reply: Reply)
    ensures RunChain(AdminChain, header, verify, None).Rejected? ==>
      reply == Error(RunChain(AdminChain, header, verify, None).status, RunChain(AdminChain, header, verify, None).error)
    ensures RunChain(AdminChain, header, verify, None).Handled? ==> reply == Listing(ListBookings(table, lookup))
  {
    match RunChain(AdminChain, header, verify, None)
    case Rejected(status, error) => Error(status, error)
    case Handled(_) => Listing(ListBookings(table, lookup))
  }

  /** GET /admin/bookings/:id */
  function DetailRoute(table: seq<BookingRow>, idParam: string, header: Option<string>,
                       verify: string -> Option<Claims>, lookup: Value -> UserLookup): (reply: Reply)
    ensures RunChain(AdminChain, header, verify, None).Rejected? ==>
      reply == Error(RunChain(AdminChain, header, verify, None).status, RunChain(AdminChain, header, verify, None).error)
    ensures RunChain(AdminChain, header, verify, None).Handled? ==>
      match PgInteger(idParam)
      case None => reply == Error(500, ServerError)
      case Some(id) =>
        && (RowWithId(table, id).None? <==> reply == Error(404, NotFoundError))
        && (RowWithId(table, id).Some? ==>
              reply.Detail? && reply.booking.row == RowWithId(table, id).value
              && reply.booking.user == UserFor(reply.booking.row.userId, lookup))
  {
    match RunChain(AdminChain, header, verify, None)
    case Rejected(status, error) => Error(status, error)
    case Handled(_) =>
      match PgInteger(idParam)
      case None => Error(500, ServerError)
      case Some(id) =>
        match RowWithId(table, id)
        case None => Error(404, NotFoundError)
        case Some(row) => Detail(Enrich(row, lookup))
  }

  /** `UPDATE bookings SET status = 'cancelled' WHERE id = $1`: whatever the
      current status and owner, rows with this id become cancelled; nothing
      else changes. */
  function CancelRows(table: seq<BookingRow>, id: int): (r: seq<BookingRow>)
    ensures |r| == |table|
    ensures forall i :: 0 <= i < |r| && table[i].id != id ==> r[i] == table[i]
    ensures forall i :: 0 <= i < |r| && table[i].id == id ==> r[i] == table[i].(status := "cancelled")
  {
    seq(|table|, i requires 0 <= i < |table| =>
      if table[i].id == id then table[i].(status := "cancelled") else table[i])
  }

  /** A second forced cancellation changes nothing. */
  lemma CancelRowsIdempotent(table: seq<BookingRow>, id: int)
    ensures CancelRows(CancelRows(table, id), id) == CancelRows(table, id)
  {
  }

  /** The `booking.cancelled` payload: the parsed route id and the ids of the
      stored row. */
  function CancelledPayload(idParam: string, row: BookingRow, now: string): (p: Record)
    ensures p.Keys == {"bookingId", "userId", "lotId", "spotId", "timestamp"}
    ensures p["bookingId"] == ParseInt(idParam) && p["timestamp"] == Str(now)
    ensures p["userId"] == row.userId && p["lotId"] == row.lotId && p["spotId"] == row.spotId
  {
    map["bookingId" := ParseInt(idParam), "userId" := row.userId, "lotId" := row.lotId,
        "spotId" := row.spotId, "timestamp" := Str(now)]
  }

  class BookingTable {
    var rows: seq<BookingRow>

    constructor (rows: seq<BookingRow>)
      ensures this.rows == rows
    {
      this.rows := rows;
    }
  }

  /** POST /admin/bookings/:id/cancel: select, update, publish, answer. */
  method ForceCancel(table: BookingTable, bus: Outbox, idParam: string, header: Option<string>,
                     verify: string -> Option<Claims>, now: string) returns (reply: Reply)
    modifies table, bus`events
    ensures var gate := RunChain(AdminChain, header, verify, None);
      gate.Rejected? ==> reply == Error(gate.status, gate.error) && table.rows == old(table.rows) && bus.events == old(bus.events)
    ensures RunChain(AdminChain, header, verify, None).Handled? && PgInteger(idParam).None? ==>
      reply == Error(500, ServerError) && table.rows == old(table.rows) && bus.events == old(bus.events)
    ensures RunChain(AdminChain, header, verify, None).Handled? && PgInteger(idParam).Some? ==>
      var id := PgInteger(idParam).value;
      match RowWithId(old(table.rows), id)
      case None =>
        reply == Error(404, NotFoundError) && table.rows == old(table.rows) && bus.events == old(bus.events)
      case Some(row) =>
        && table.rows == CancelRows(old(table.rows), id)
        && bus.events == old(bus.events) + (if bus.connected then [Event(CancelledTopic, CancelledPayload(idParam, row, now))] else [])
        && CancelledPayload(idParam, row, now)["bookingId"] == Num(id)
        && reply == (if bus.connected then Message(CancelledMessage) else Error(500, ServerError))
  {
    var gate := RunChain(AdminChain, header, verify, None);
    if gate.Rejected? {
      return Error(gate.status, gate.error);
    }
    var parsed := PgInteger(idParam);
    if parsed.None? {
      return Error(500, ServerError);
    }
    var id := parsed.value;
    var found := RowWithId(table.rows, id);
    if found.None? {
      return Error(404, NotFoundError);
    }
    var row := found.value;
    table.rows := CancelRows(table.rows, id);
    ParseIntOfPgInteger(idParam);
    var ok := bus.Publish(CancelledTopic, CancelledPayload(idParam, row, now));
    if !ok {
      return Error(500, ServerError);
    }
    reply := Message(CancelledMessage);
  }
}
