# Parking reservation system: a verified model of its core rules

This project models, in Dafny, the rules at the centre of a parking
reservation system built from small services that talk over a Redis event
bus, plus the two web front ends:

- **Booking service.** An in-memory booking store with an id counter, and
  the HTTP handlers that create, read and cancel bookings. Creating a
  booking publishes `booking.created`.
- **Admin booking routes.** They run over the Postgres `bookings` table: a
  listing enriched with user records, one booking, and a forced
  cancellation that publishes `booking.cancelled`.
- **Parking inventory.** The `parking_spots` table and the operations on
  it:
  - the admin routes: lot summaries, create a lot, add spots, update and
    delete a lot;
  - the public routes: lot counts and one lot's spots with their
    `reserved`/`available` status.
- **Reservation reactor.** It answers `booking.created` by choosing a spot
  and publishing `parking.spot.reserved`.
- **Notification service.** It turns each event into one `notification`
  broadcast `{ type, message, data }`.
- **Auth service.** Registration, admin registration and login. This
  covers the e-mail validator, the order of the checks, and how a failed
  INSERT maps to an HTTP status.
- **Middleware.** The bearer-token middleware and the `ADMIN` role gate.
  They are written out identically in three services and modelled once.
- **Client token state.** The admin app's `adminAuth` object and the
  customer app's `useAuth` hook.

Ground rules of the model:

- JavaScript values are a small datatype (`Js.Value`), and objects are
  string-keyed maps.
- Publishing appends to an outbox, and a broadcast is a function's result.
- Tables are sequences of rows. Mutable state is a class whose methods
  state their whole new state.
- Foreign calls are parameters:
  - `jwt.verify`, `jwt.sign` (which may fail), bcrypt's digest and
    comparison of strings, SQL lookups and `atob`/`JSON.parse` are given
    functions; bcrypt's refusal of a password that is not a string is
    written out;
  - `Math.random()` is a real `r` in [0, 1);
  - `Date.now()` and ISO timestamps are values passed in.

Every route that writes in-process state, or a table modelled here, is a
method proved against a specification function. The auth service's users
table is not kept: its registrations return the row they INSERT beside the
reply. The properties the code promises are proved as lemmas about
those functions. Examples:

- the ids a store hands out;
- the e-mail pattern being equivalent to a structural check, in both directions;
- `parseInt` of a booking id that Postgres accepted giving back that same integer, so the cancellation event names the cancelled row;
- a lot summary listing every lot once, in order, with counts that add up;
- adding spots never disturbing an existing spot;
- deleting a lot leaving every other lot's counts alone;
- a check of the token being stable when repeated.

## Model

| member | source | states |
|---|---|---|
| BookingStore.NewBooking | services/booking-service/src/data/bookings.store.js:5-10 | The new booking has the properties of `data` plus `id`, `status`, `createdAt`. It has `id` = counter, status "pending" and the creation time unless `data` carries a property of the same name, which then wins. |
| BookingStore.FindFirst | services/booking-service/src/data/bookings.store.js:15-17 | The index found holds a booking strictly equal by id, and no earlier booking matches. None exactly when no booking matches. |
| BookingStore.CancelIn | services/booking-service/src/data/bookings.store.js:19-23 | Unknown id: the table is unchanged. Otherwise only the first match changes, and only its `status`, to "cancelled". The length is kept. |
| BookingStore.SequentialLookup | services/booking-service/src/data/bookings.store.js:1-11 | When no caller overrode `id`, stored ids are pairwise distinct. A lookup of k finds booking k-1 exactly when 1 <= k < nextId. |
| BookingStore.CreatePreservesSequential | services/booking-service/src/data/bookings.store.js:4-11 | Creating without an `id` override keeps ids 1, 2, 3, … and the counter one past the last. |
| BookingStore.CancelKeepsLookups | services/booking-service/src/data/bookings.store.js:19-23 | Cancelling never changes the answer of any later lookup. |
| BookingStore.CancelPreservesSequential | services/booking-service/src/data/bookings.store.js:19-23 | Cancelling keeps the sequential-id invariant. |
| BookingStore.CancelIdempotent | services/booking-service/src/data/bookings.store.js:19-23 | Cancelling twice leaves the same table as cancelling once. |
| BookingStore.Store.constructor | services/booking-service/src/data/bookings.store.js:1-2 | The store starts empty with counter 1, in the sequential shape. |
| BookingStore.Store.CreateBooking | services/booking-service/src/data/bookings.store.js:4-13 | Returns `NewBooking(counter, …)`. Appends exactly it, leaves earlier bookings as they were, increments the counter by one and keeps the invariant. |
| BookingStore.Store.GetBookingById | services/booking-service/src/data/bookings.store.js:15-17 | Returns the first booking strictly equal by id, or None exactly when none is. |
| BookingStore.Store.CancelBooking | services/booking-service/src/data/bookings.store.js:19-24 | Unknown id: null and no change. Otherwise returns the found booking with status "cancelled", and the table becomes `CancelIn`. |
| EventBus.Outbox.Publish | services/booking-service/src/messaging/eventPublisher.js:9-18 | Resolves exactly when connected. Then exactly one `(topic, payload)` is appended; otherwise nothing is. |
| BookingController.HasRequiredFields | services/booking-service/src/controllers/bookings.controller.js:12 | The create handler goes on only when both `lotId` and `userId` are truthy. |
| BookingController.BookingData | services/booking-service/src/controllers/bookings.controller.js:10-16 | Exactly `lotId`, `spotId` and `userId` reach the store, each the value the request body carries, so `id`, `status` and `createdAt` cannot be overridden. |
| BookingController.CreatedPayload | services/booking-service/src/controllers/bookings.controller.js:19-26 | The `booking.created` payload has exactly six fields: the booking's id, createdAt and status, and the request's ids. |
| BookingController.CreatedPayloadOfNewBooking | services/booking-service/src/controllers/bookings.controller.js:16-26 | For a booking the handler made, the payload carries the counter id, the creation time and "pending". |
| BookingController.StoredBookingOfRequest | services/booking-service/src/controllers/bookings.controller.js:16 | The stored booking is the request's three ids plus the store's id, status "pending" and timestamp, and nothing else. |
| BookingController.CreateBookingHandler | services/booking-service/src/controllers/bookings.controller.js:9-29 | A falsy lotId or userId gives 400 and no effect. Otherwise one booking is stored, then one `booking.created` is published, then 201 with the booking. A failed publish leaves the booking stored and answers nothing. |
| BookingController.GetBookingHandler | services/booking-service/src/controllers/bookings.controller.js:32-38 | 404 exactly when no booking has id `Number(param)`, always for NaN. Otherwise 200 with that booking. |
| BookingController.GetByRenderedId | services/booking-service/src/controllers/bookings.controller.js:32-38 | With counter-assigned ids, `/bookings/k` finds a booking iff 1 <= k < nextId, and then it is the k-th. |
| BookingController.CancelBookingHandler | services/booking-service/src/controllers/bookings.controller.js:40-46 | 404 exactly for an unknown id. Otherwise 200 with the booking now "cancelled". The store becomes `CancelIn`. There is no owner or role check and no event. |
| Middleware.Split | backend/services/parking-service/src/middleware/authenticate.js:14 | `split(' ')` starts with the text before the first separator. |
| Middleware.SplitJoin | backend/services/parking-service/src/middleware/authenticate.js:14 | Joining the parts of a split gives back the string. |
| Middleware.SplitPartsPlain | backend/services/parking-service/src/middleware/authenticate.js:14 | No part of a split contains the separator. |
| Middleware.BearerToken | backend/services/parking-service/src/middleware/authenticate.js:14 | `split(' ')[1]` of a "Bearer " header is the text after the prefix up to the next space. A double space therefore yields "". |
| Middleware.Authenticate | backend/services/parking-service/src/middleware/authenticate.js:5-26 | A missing or non-"Bearer " header gives 401 "No token provided…". A token that fails verification gives 401 "Invalid or expired token". Otherwise `next`, with the decoded claims. next is reached iff claims are produced. |
| Middleware.AuthenticateRequest | backend/services/parking-service/src/middleware/authenticate.js:16-25 | `req.user` is set to the claims only on success; on a rejection it is unchanged. |
| Middleware.IsAdmin | backend/services/booking-service/src/middleware/isAdmin.js:3-11 | `next` iff `req.user` exists and its role is exactly "ADMIN". Otherwise 403 "Admin access required", never 401. |
| Middleware.RunChain | backend/services/auth-service/src/routes/auth.routes.js:44 | The middleware run in order, the first rejection answering. It rejects only with 401 or 403. |
| Middleware.AdminChainAdmits | backend/services/booking-service/src/routes/adminRoutes.js:23 | `authenticate, isAdmin` reaches the handler iff the bearer token verifies to claims with role "ADMIN". A missing header gives 401, and a 403 means a valid token. |
| AdminBookings.PgInteger | backend/services/booking-service/src/routes/adminRoutes.js:63 | Postgres accepts the `:id` text only as a signed decimal in the 32-bit range. |
| AdminBookings.ParseIntOfPgInteger | backend/services/booking-service/src/routes/adminRoutes.js:108-109 | On text Postgres accepted, `parseInt(id)` is the same integer, so the event names the cancelled row. |
| Js.ParseIntHexExample | backend/services/booking-service/src/routes/adminRoutes.js:109 | `parseInt` without a radix reads "-0x1f" as -31: a `0x` prefix switches to hexadecimal. |
| Js.ParseIntDecimalExample | backend/services/booking-service/src/routes/adminRoutes.js:109 | `parseInt("12ab")` is 12: the decimal run stops at the first non-digit. |
| AdminBookings.RowWithId | backend/services/booking-service/src/routes/adminRoutes.js:63-68 | The row found has the id. None exactly when no row has it. |
| AdminBookings.InsertKeepsOrder | backend/services/booking-service/src/routes/adminRoutes.js:25-27 | Inserting a row keeps a newest-first list newest-first. |
| AdminBookings.OrderByCreatedDesc | backend/services/booking-service/src/routes/adminRoutes.js:25-27 | The result is a permutation of the rows, newest first. |
| AdminBookings.FallbackUser | backend/services/booking-service/src/routes/adminRoutes.js:39 | `{ id: user_id, username: null, email: null }` |
| AdminBookings.UserFor | backend/services/booking-service/src/routes/adminRoutes.js:32-47 | The first user row found is used. A lookup that is empty or throws gives the fallback user. |
| AdminBookings.Enrich | backend/services/booking-service/src/routes/adminRoutes.js:37-45 | `{ ...booking, user }`: the row with the user `UserFor` gives for its `user_id`. |
| AdminBookings.ListBookings | backend/services/booking-service/src/routes/adminRoutes.js:25-49 | Every booking appears exactly once, newest first. Each carries the user for its `user_id`; a failed lookup never drops a booking. |
| AdminBookings.ListRoute | backend/services/booking-service/src/routes/adminRoutes.js:23-56 | The gate answers first, otherwise the enriched listing. |
| AdminBookings.DetailRoute | backend/services/booking-service/src/routes/adminRoutes.js:59-87 | The gate answers with the middleware's own rejection (its 401 or 403 and its text). A bad id is 500, an unknown id 404. Otherwise the first row with that id and its user. |
| AdminBookings.CancelRows | backend/services/booking-service/src/routes/adminRoutes.js:102-105 | Rows with the id become "cancelled" whatever their status or owner. Every other row is unchanged. |
| AdminBookings.CancelRowsIdempotent | backend/services/booking-service/src/routes/adminRoutes.js:102-105 | A second forced cancellation changes nothing. |
| AdminBookings.CancelledPayload | backend/services/booking-service/src/routes/adminRoutes.js:108-114 | Exactly `bookingId` = parseInt(id), the row's `userId`/`lotId`/`spotId`, and a fresh timestamp. |
| AdminBookings.ForceCancel | backend/services/booking-service/src/routes/adminRoutes.js:90-121 | Gate, then 500 for an unparsable id, then 404 with no update and no event. Otherwise the rows are cancelled and one `booking.cancelled` is published with bookingId = the row's id. The reply is "Booking cancelled by admin", or 500 after the update when publishing fails. |
| SpotTable.CountLot | backend/services/parking-service/src/routes/adminRoutes.js:41-46 | The count is positive exactly when the lot exists (some row has its `lot_id`). |
| SpotTable.CountReserved | backend/services/parking-service/src/routes/adminRoutes.js:150-155 | At most the lot's count. Positive exactly when one of the lot's rows is reserved. |
| SpotTable.CountAvailable | backend/services/parking-service/src/routes/adminRoutes.js:14 | At most the lot's count. |
| SpotTable.CountsAddUp | backend/services/parking-service/src/routes/adminRoutes.js:13-15 | available + reserved = total, for every lot. |
| SpotTable.LotIds | backend/services/parking-service/src/routes/adminRoutes.js:17-18 | `GROUP BY lot_id ORDER BY lot_id`: strictly ascending, with exactly the existing lots. |
| SpotTable.LotIdsDistinct | backend/services/parking-service/src/routes/adminRoutes.js:17 | One group per lot id. |
| SpotTable.RemoveLot | backend/services/parking-service/src/routes/adminRoutes.js:162-165 | Exactly the other lots' rows remain; count = old count minus the lot's rows; the lot no longer exists. |
| SpotTable.RemoveLotKeepsOthers | backend/services/parking-service/src/routes/adminRoutes.js:162-165 | Every other lot keeps its total, reserved and available counts. |
| SpotTable.RemoveLotUnique | backend/services/parking-service/src/routes/adminRoutes.js:162-165 | Deleting keeps the table's unique keys. |
| ParkingAdmin.ReplyRendering | backend/services/parking-service/src/routes/adminRoutes.js:58-167 | A created lot and added spots answer 201 with "Parking lot created successfully" and "Parking spots added successfully". An update and a deletion answer 200 with "Parking lot updated successfully" and "Parking lot deleted successfully". An error answers with its own status and text. |
| ParkingAdmin.ParsedCount | backend/services/parking-service/src/routes/adminRoutes.js:46 | `parseInt` of a COUNT's decimal text is the count itself. |
| ParkingAdmin.LotText | backend/services/parking-service/src/routes/adminRoutes.js:41-44 | The `lot_id` parameter Postgres compares is `String(lotId)`. |
| ParkingAdmin.Summaries | backend/services/parking-service/src/routes/adminRoutes.js:11-20 | One row per lot id in `GROUP BY` order, with its total, available and reserved counts. |
| ParkingAdmin.SummariesComplete | backend/services/parking-service/src/routes/adminRoutes.js:11-19 | Each existing lot is listed exactly once, in strictly ascending order. Each has a positive total equal to available + reserved. |
| ParkingAdmin.FirstRepeat | backend/services/parking-service/src/routes/adminRoutes.js:51-56 | It finds the first spot number that repeats an earlier one, or returns the length when no number repeats. |
| ParkingAdmin.PairInFresh | backend/services/parking-service/src/routes/adminRoutes.js:51-56 | In a new lot, the next INSERT collides exactly when its number was inserted before. |
| ParkingAdmin.InsertOrSkip | backend/services/parking-service/src/routes/adminRoutes.js:90-93 | After one ON CONFLICT DO NOTHING the pair is in the table. Existing rows are unchanged, and a row with the serial value is appended iff the pair was absent. |
| ParkingAdmin.AddAll | backend/services/parking-service/src/routes/adminRoutes.js:89-94 | The table after the insert-or-skip loop over the numbers, with serial values handed out one per number. |
| ParkingAdmin.AddAllSnoc | backend/services/parking-service/src/routes/adminRoutes.js:89-94 | One more number in the loop is one more insert-or-skip at the end, with the next serial value. |
| ParkingAdmin.AddAllExtends | backend/services/parking-service/src/routes/adminRoutes.js:89-94 | ON CONFLICT DO NOTHING keeps every existing row as it was, reservation included. It adds only unreserved rows of this lot, and afterwards every requested number exists. |
| ParkingAdmin.Inventory.TryInsert | backend/services/parking-service/src/routes/adminRoutes.js:52-55 | The row goes in iff its pair is free, and the serial advances either way. The table's keys stay unique. |
| ParkingAdmin.Inventory.InsertEach | backend/services/parking-service/src/routes/adminRoutes.js:51-56 | The rows for the numbers before the first repeat are appended in order. It fails exactly when a number repeats. |
| ParkingAdmin.Inventory.InsertSkipping | backend/services/parking-service/src/routes/adminRoutes.js:89-94 | The table becomes `AddAll`, and the serial advances once per number. |
| ParkingAdmin.Inventory.DeleteRows | backend/services/parking-service/src/routes/adminRoutes.js:162-165 | The table becomes `RemoveLot`, and its keys stay unique. |
| ParkingAdmin.GateError | backend/services/parking-service/src/routes/adminRoutes.js:9 | It answers exactly when `authenticate, isAdmin` rejects, always with 401 or 403. |
| ParkingAdmin.ListLots | backend/services/parking-service/src/routes/adminRoutes.js:9-25 | The gate answers first, otherwise the summaries. |
| ParkingAdmin.CreateLot | backend/services/parking-service/src/routes/adminRoutes.js:28-67 | 400 for a falsy lotId, then 400 without a non-empty array, then 409 when the lot exists; none of these changes anything. Otherwise one INSERT per number in order. All inserted gives 201 with `totalSpots` = the number count. A repeat gives 500, with the earlier rows kept. |
| ParkingAdmin.AddSpots | backend/services/parking-service/src/routes/adminRoutes.js:70-105 | 400 on missing input and 404 for an unknown lot, both with no change. Otherwise `AddAll`, and 201 with `spotsAdded` = the number of numbers sent. |
| ParkingAdmin.UpdateLot | backend/services/parking-service/src/routes/adminRoutes.js:108-132 | Success iff the lot exists, else 404. There is no state to change. |
| ParkingAdmin.DeleteLot | backend/services/parking-service/src/routes/adminRoutes.js:135-172 | 404 if the lot is absent, and 400 with nothing deleted while one of its spots is reserved. Otherwise exactly this lot's rows go. |
| ParkingRoutes.PublicLots | backend/services/parking-service/src/routes/parking.routes.js:6-21 | One row per lot in ascending lot order, with its total and available counts. |
| ParkingRoutes.PublicMatchesAdmin | backend/services/parking-service/src/routes/parking.routes.js:8-15 | The public list shows the same lots, order, totals and available counts as the admin list. Reserved = total − available. |
| ParkingRoutes.StatusOf | backend/services/parking-service/src/routes/parking.routes.js:31-34 | "reserved" iff `is_reserved`, "available" iff not. |
| ParkingRoutes.RowsOfLot | backend/services/parking-service/src/routes/parking.routes.js:36 | Exactly the rows of the lot, as many as its count. |
| ParkingRoutes.InsertKeepsSpotOrder | backend/services/parking-service/src/routes/parking.routes.js:37 | Inserting keeps a list ordered by spot number. |
| ParkingRoutes.OrderBySpotNumber | backend/services/parking-service/src/routes/parking.routes.js:37 | The result is a permutation of the rows, ascending by spot number. |
| ParkingRoutes.LotRows | backend/services/parking-service/src/routes/parking.routes.js:26-39 | Exactly the lot's rows, as many as its count, ascending by spot number. |
| ParkingRoutes.Views | backend/services/parking-service/src/routes/parking.routes.js:27-34 | Each row becomes its `id`, `lotId`, `spotNumber`, `status`, in order. |
| ParkingRoutes.ViewsMembership | backend/services/parking-service/src/routes/parking.routes.js:27-37 | The projection of a row is listed iff the row is, and every listed spot projects some row. |
| ParkingRoutes.LotDetails | backend/services/parking-service/src/routes/parking.routes.js:23-52 | The id is echoed back. The spots are exactly the lot's rows, ordered by spot number, each reserved or available. An unknown lot gives `[]`, not 404. |
| Reservation.RandomSpot | services/parking-service/src/services/parking.service.js:4 | `floor(r*100)+1` lies in 1..100. |
| Reservation.RandomSpotCovers | services/parking-service/src/services/parking.service.js:4 | Every value in 1..100 can be the random choice. |
| Reservation.ChosenSpot | services/parking-service/src/services/parking.service.js:4 | A truthy spotId is used verbatim. A falsy one becomes the random spot in 1..100. |
| Reservation.ReserveSpot | services/parking-service/src/services/parking.service.js:3-17 | The one event published is `parking.spot.reserved`. Its payload is exactly bookingId and lotId unchanged, the chosen spotId, the timestamp and status "reserved". |
| Reservation.HandleBookingCreated | services/parking-service/src/events/bookingCreated.handler.js:3-9 | The event has bookingId and lotId from `booking.created` and the chosen spot. The userId is not passed on. |
| Notifications.Field | backend/services/notification-service/src/index.js:41 | `payload?.key` is undefined without a payload. |
| Notifications.CreatedNotification | backend/services/notification-service/src/index.js:37-44 | Type "booking.created" with the payload as data. The message is "Booking <id> confirmed!", with "created" for a falsy or missing id. |
| Notifications.CancelledNotification | backend/services/notification-service/src/index.js:46-53 | Type "booking.cancelled" with the payload as data. The message is "Booking <id> cancelled.", with "" for a falsy id. |
| Notifications.SpotReservedNotification | backend/services/notification-service/src/handlers/spotReserved.handler.js:1-21 | It emits iff the payload exists and `global.io` is set. The type is "spot.reserved" with the message template. The data is exactly the three ids and a fresh timestamp. |
| Notifications.Dispatch | backend/services/notification-service/src/index.js:36-53 | At most one broadcast per event, on the matching subscription, and none for other topics. The spot notification's type differs from its topic. |
| Notifications.CreatedMessageOfNewBooking | backend/services/notification-service/src/index.js:41 | A booking made through the booking service is announced with its own id; "created" never shows. |
| Notifications.SpotNotificationOfNewBooking | backend/services/notification-service/src/handlers/spotReserved.handler.js:1-21 | End to end from `booking.created`: the message names the booking id, the requested lot and the chosen spot, and the status is dropped. |
| Notifications.CancelledMessageOfForceCancel | backend/services/notification-service/src/index.js:50 | A forced cancellation of id k is announced with k, except id 0, which leaves a blank. |
| AuthController.Find | backend/services/auth-service/src/controllers/auth.controller.js:14 | The first occurrence of a character, or the length. |
| AuthController.EmailPatternIff | backend/services/auth-service/src/controllers/auth.controller.js:14-17 | The regex holds iff: no white space; exactly one '@', not first; after it, a '.' neither first nor last. |
| AuthController.PatternAccepted | backend/services/auth-service/src/controllers/auth.controller.js:14 | A three-part split of the pattern passes the structural check. |
| AuthController.AcceptedPattern | backend/services/auth-service/src/controllers/auth.controller.js:14 | A string passing the structural check splits into the pattern's three parts. |
| AuthController.IsEmail | backend/services/auth-service/src/controllers/auth.controller.js:14 | No white space; exactly one '@', not first; after it a '.' that is neither first nor last (the structural reading of the pattern). |
| AuthController.EmailOk | backend/services/auth-service/src/controllers/auth.controller.js:15 | `emailRegex.test(email)` tests `String(email)`. |
| AuthController.BcryptHash | backend/services/auth-service/src/controllers/auth.controller.js:23 | bcrypt produces a hash iff the password is a string, and then it is the digest of that string. |
| AuthController.BcryptCompare | backend/services/auth-service/src/controllers/auth.controller.js:103 | bcrypt answers iff the password is a string, and then it is the comparison of that string with the stored hash. |
| AuthController.HasCredentials | backend/services/auth-service/src/controllers/auth.controller.js:9 | Registration goes on only when `username`, `email` and `password` are all truthy. |
| AuthController.InsertFailure | backend/services/auth-service/src/controllers/auth.controller.js:31-40 | 23505 gives 409 "Email already exists" when the constraint name contains "email", else "Username already exists". Any other failure gives 500. |
| AuthController.Register | backend/services/auth-service/src/controllers/auth.controller.js:5-41 | A missing field gives 400 and a bad email 400. A password that is not a string is refused by bcrypt and gives 500. None of these inserts. Otherwise one INSERT with role "USER" whatever the body says, and its outcome gives 201, 409 or 500. A row is inserted iff all three checks pass. |
| AuthController.RequiredSecret | backend/services/auth-service/src/controllers/auth.controller.js:52 | The env secret when it is set and non-empty, else the built-in default. |
| AuthController.RegisterAdmin | backend/services/auth-service/src/controllers/auth.controller.js:43-82 | In this order: 400 for a missing field, 403 unless the secret matches exactly, 400 for a bad email, 500 for a password bcrypt refuses. Otherwise one INSERT with role "ADMIN". A row is inserted iff all four checks pass. |
| AuthController.TokenClaims | backend/services/auth-service/src/controllers/auth.controller.js:110-119 | The claims are exactly the stored user's userId, email and role. |
| AuthController.Login | backend/services/auth-service/src/controllers/auth.controller.js:84-126 | 400 without both fields, and 500 on a failed query. An unknown email and a wrong password both give 401. A password bcrypt cannot compare (not a string) and a failing `jwt.sign` give 500. Otherwise the first user's token and role. |
| AuthController.LoginFailuresAlike | backend/services/auth-service/src/controllers/auth.controller.js:98-124 | Login succeeds iff a user exists, the password is a string that matches, and signing succeeds. Every 401 carries the same message. |
| AuthRoutes.RouteFor | backend/services/auth-service/src/routes/auth.routes.js:41-44 | A route is found exactly for the four registered verb/path pairs. |
| AuthRoutes.Serve | backend/services/auth-service/src/routes/auth.routes.js:41-44 | A request reaches the registered handler exactly when its route exists. |
| AuthRoutes.OnlyUsersGuarded | backend/services/auth-service/src/routes/auth.routes.js:41-44 | Register, login and register-admin always reach their handler. `/users` does so iff the bearer token verifies to role "ADMIN". |
| AdminAuth.Expired | admin-frontend/src/auth/adminAuth.js:43 | `payload.exp * 1000 < Date.now()` with `exp` converted by `Number`: missing or non-numeric is never expired, null counts as 0. |
| AdminAuth.Authenticated | admin-frontend/src/auth/adminAuth.js:36-53 | The answer of `isAuthenticated()`: present, decodable, unexpired and role "ADMIN". |
| AdminAuth.StoredAfterCheck | admin-frontend/src/auth/adminAuth.js:36-53 | The check removes the token exactly when it is present and either undecodable or expired. Otherwise it is kept, including a non-admin token. |
| AdminAuth.UserOf | admin-frontend/src/auth/adminAuth.js:55-69 | null without a readable token. Otherwise exactly `{ userId, email, role }` of the payload. |
| AdminAuth.Session.Login | admin-frontend/src/auth/adminAuth.js:4-16 | A token whose role is not "ADMIN", or that cannot be decoded, throws and stores nothing. An admin token is stored and returned. |
| AdminAuth.Session.Logout | admin-frontend/src/auth/adminAuth.js:28-30 | The token is removed. |
| AdminAuth.Session.GetToken | admin-frontend/src/auth/adminAuth.js:32-34 | The stored token, read without a change. |
| AdminAuth.Session.IsAuthenticated | admin-frontend/src/auth/adminAuth.js:36-53 | The answer is "present, decodable, unexpired and ADMIN". The stored token becomes `StoredAfterCheck`. |
| AdminAuth.Session.GetUser | admin-frontend/src/auth/adminAuth.js:55-69 | `UserOf` the stored token; never changes storage. |
| AdminAuth.CheckIdempotent | admin-frontend/src/auth/adminAuth.js:36-53 | A second check removes nothing more and gives the same answer. |
| AdminAuth.LoggedInUntilExpiry | admin-frontend/src/auth/adminAuth.js:4-53 | A token that login stored passes iff it has not expired, and once expired it is removed. |
| AdminAuth.ExpEdgeCases | admin-frontend/src/auth/adminAuth.js:43 | A payload without `exp` never expires. `exp: null` or `0` has expired at any positive time. |
| UseAuth.Expired | frontend/src/hooks/useAuth.js:26 | `payload.exp && payload.exp < Date.now() / 1000`: a falsy `exp` never expires, and a non-numeric one never does either. |
| UseAuth.RoleOf | frontend/src/hooks/useAuth.js:33 | The role, falling back to 'USER', is always truthy, and it is the payload's role when that role is truthy. |
| UseAuth.Check | frontend/src/hooks/useAuth.js:11-49 | Authenticated iff the token is present, decodable and unexpired, with no role needed. The token is removed iff it was present and refused. Unauthenticated gives role and info null. Authenticated gives the role fallback and `userInfo.role` equal to it. |
| UseAuth.Hook.constructor | frontend/src/hooks/useAuth.js:5-8 | First render: not authenticated, loading, role and info null. |
| UseAuth.Hook.CheckAuth | frontend/src/hooks/useAuth.js:11-49 | The new state is `Check` of the stored token, and loading ends false on every path. |
| UseAuth.Hook.Login | frontend/src/hooks/useAuth.js:76-79 | Stores the token, then re-checks through the auth-changed event. |
| UseAuth.Hook.Logout | frontend/src/hooks/useAuth.js:81-84 | Removes the token, then re-checks: unauthenticated. |
| UseAuth.Hook.OnStorage | frontend/src/hooks/useAuth.js:57-61 | The key "token" re-checks. `clear()` (key null) removes the token without a re-check. Any other key changes nothing. |
| UseAuth.CheckStable | frontend/src/hooks/useAuth.js:11-49 | A second check right after the first gives the same state. |
| UseAuth.SecondsAgainstMilliseconds | frontend/src/hooks/useAuth.js:24-26 | `exp < now/1000` is exactly `exp*1000 < now`. |
| UseAuth.AppsDisagree | frontend/src/hooks/useAuth.js:26 | A truthy numeric `exp` expires at the same moment in both apps. `exp` 0 or null is expired for the admin app, never for this one. Only the admin app requires role "ADMIN". |

## Left out

- Numbers are integers only:
  - floating-point values, exponent numerals, `Infinity` and `-0` are not modelled;
  - `Number(...)` of such text, and of hexadecimal, octal or binary text, is NaN in the model (JavaScript reads the last three as numbers);
  - `parseInt` does read a `0x`/`0X` prefix as hexadecimal, as it does without a radix.
- JSON bodies hold primitives only. Objects and arrays as field values are not modelled (e.g. `spotNumbers` holding non-strings, or a `lotId` that is an object).
- `spotNumbers` is given as "missing or not an array" (None) or an array of strings.
- Message envelopes of the publishers are not modelled (`eventId`, `eventType`, `occurredAt`, `publishedAt`); subscribers only read `.payload`.
- These parts of node, Postgres and the transport are not modelled:
  - Redis, socket.io delivery, reconnection;
  - Express wiring, pool configuration;
  - concurrent requests and check-then-act races between them;
  - duplicate or reordered delivery.
- Database failures other than the ones named in the contracts are not modelled. These are connection errors and throwing queries, which the routes answer with 500.
- In the model a thrown exception inside `createBookingHandler` is `Unanswered`. The runtime assumed is Express 4 on a Node before 15, where the rejected promise only leaves the request unanswered. On Node 15 and later the unhandled rejection ends the process by default, and the in-memory store is lost with it; that is not modelled.
- Postgres collation is taken as the byte-wise ("C") one.
- Ties are left unspecified:
  - rows with equal `created_at`, or equal `spot_number` within a lot, appear in some order;
  - the model fixes one, and the contracts state only the ordering.
- `created_at` is a number that orders like the timestamp.
- The Postgres `id` cast is modelled as signed decimal text in the 32-bit range. Leading and trailing white space, which Postgres also accepts, is not modelled in that cast.
- AdminBookings.PgInteger: follows the `int4` input of Postgres before version 16. Version 16 also accepts `0x`, `0o` and `0b` prefixes and `_` between digits, which the model refuses; for `0x` text `parseInt` would then agree again, but `0o`, `0b` and `_` would not.
- The counts of the lot listings (`totalSpots`, `availableSpots`, `reservedSpots`) are `COUNT(*)`, a `bigint` that node-postgres hands over as decimal text. The JSON reply therefore carries them as strings such as "12"; `ParkingAdmin.LotSummary` and `ParkingRoutes.LotCount` keep the number those strings denote.
- Route matching is exact on verb and path in `AuthRoutes.RouteFor`. Express 4 by default also matches a path that differs in letter case or ends in one extra `/`; those spellings are not modelled.
- The `parking_spots` schema file is not part of this model. Its shape is:
  - serial `id`, `lot_id`, `spot_number`, `is_reserved` default false;
  - `id` and `(lot_id, spot_number)` unique.
  Without that constraint ON CONFLICT DO NOTHING would skip nothing. Every INSERT attempt uses up a serial value, as Postgres does.
- Aliasing of JavaScript objects is not modelled. In the booking store the object returned by `createBooking` is the stored one, and `cancelBooking` mutates it in place. The model returns values.
- `services/parking-service/src/services/parking.service.js:1` imports `publish`, but `services/parking-service/src/messaging/eventPublisher.js:13` exports only `publishEvent`. As written, the module cannot be linked; the model publishes the intended single event.
- Some code is not part of this model because its source is unavailable:
  - `bookingCancelled.handler.js`;
  - the backend booking controller;
  - the booking service's backend `authenticate.js` (taken to be the parking service's copy);
  - the parking service's `middleware/isAdmin.js`, imported at `backend/services/parking-service/src/routes/adminRoutes.js:3` (taken to be the booking service's copy).
- `getUsers` (`backend/services/auth-service/src/controllers/auth.controller.js:128-138`) only lists the `users` rows, newest first, and answers 500 when the query fails; it is not modelled beyond its guard.
- `adminAuth.register` only forwards a request to the API and is not modelled. `adminAuth.getToken` is `Session.GetToken`, a plain read.
- The claims carry a second-resolution `exp`. That `jwt.sign` sets it one hour ahead is not modelled.
- The payload is decoded with `atob`/`JSON.parse`, a given partial function. A payload that parses to a non-object is taken as undecodable.
- `useAuth` raises its re-check through `emitAuthChanged` (`frontend/src/hooks/AuthEvents.js:4-8`), which dispatches synchronously. Where `window` is missing, nothing is dispatched; that case and the hook's listener clean-up are not modelled.
- Each `useState` setter is taken to apply at once. React's batched re-render shows the same final state.
- Several mounted copies of the hook are not modelled; the model has one.
