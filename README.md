# Booking service — a verified Dafny model

This project models the core of a seat-booking service. Users reserve seats at a
store for a time slot. A web endpoint puts each booking request on a FIFO queue.
A consumer admits the request against the seat total the queue message carries
(0 as written; see Findings), saves a CONFIRMED booking, and pushes a one-shot
status message to the user's server-sent-events channel. An hourly sweep moves past CONFIRMED bookings to COMPLETED. Owners can
view and cancel their bookings.

Modules, one per part of the program:

- `StateCode` (`state_code.dfy`): the three-row state-code table, 0 = CONFIRMED,
  1 = CANCELED, 2 = COMPLETED.
- `Domain` (`domain.dfy`): the BOOKING record, its column limits, the error cases
  and the transfer records.
- `BookingLedger` (`ledger.dfy`): the BOOKING table as a class `Ledger`. It holds
  the seat aggregation, the queries, and the three operations that change the
  table: admission with save, cancellation and the sweep. Both BookingService
  copies share these rules, and one ledger backs both.
- `SseEmitters` (`emitters.dfy`): the controller's static channel registry.
- `BookingService` (`booking_service.dfy`): the queue consumer, its outcome
  routing and the one-shot push.
- `LegacyBookingService` (`legacy_booking_service.dfy`): the older copy's
  `makeBooking`, which returns the detail view. The hourly scheduler calls this
  copy's `updateBookingState`, i.e. `Ledger.UpdateBookingState`.
- `BookingController` (`controller.dfy`): the ownership guards and the
  construction of the queued request.
- `Scenarios` (`scenarios.dfy`): walkthroughs proved from the contracts alone.
  They cover capacity 10 (6 fits, 5 more is refused, cancelling frees the seats),
  one-shot delivery, a stale timeout that removes a newer channel, the sweep
  across two slots, and a queued request end to end.

Representation choices:

- A `LocalDateTime` is an integer at the `LocalDateTime`'s own resolution. Two
  integers are equal, or ordered by `<=`, exactly when the date-times are.
- Strings are `seq<char>` and party sizes are unbounded integers.
- The table is a sequence. The booking numbered k sits at position k - 1. Numbers
  come from an identity column starting at 1, and nothing in the core deletes a
  row.
- The `Ledger` has a `stateRows` constant for the state-code rows that exist.
  This keeps the "state code not found" error paths of `makeBooking`,
  `cancelBooking` and `updateBookingState`.
- An SseEmitter is a channel number. Each `Connect` draws a number never used
  before.
- Whether a network send succeeds is a boolean parameter.

The code has no transition guards, and the model adds none:

- Cancellation has no guard. It sets CANCELED on a booking in any state, even a
  COMPLETED or already CANCELED one, with any slot time.
- No operation fails with an "invalid transition" error.
- Party sizes are not checked to be positive. Lemmas that need non-negative sizes
  say so in their `requires`.

## Model

| member | source | states |
|---|---|---|
| StateCode.FromCode | src/main/java/fog/booking_service/domain/BookingStateCode.java:15-17 | lookup by primary key finds a row exactly for codes 0, 1 and 2, and at most one |
| StateCode.Code | src/main/java/fog/booking_service/domain/BookingStateCode.java:15-17 | every state's code is 0, 1 or 2, and looking that code up gives the same state back |
| StateCode.Name | src/main/java/fog/booking_service/domain/BookingStateCode.java:19-20 | every state name is non-empty and fits the 10-character STATE_NAME column |
| StateCode.FromName | src/main/java/fog/booking_service/domain/BookingStateCode.java:19-20 | only the names CONFIRMED, CANCELED and COMPLETED have a row |
| StateCode.NameRoundTrip | src/main/java/fog/booking_service/domain/BookingStateCode.java:19-20 | state to name to state gives the same state |
| StateCode.TableIsBijection | src/main/java/fog/booking_service/domain/BookingStateCode.java:15-20 | two states share a code, or share a name, only if they are the same state |
| StateCode.CodeRoundTrip | src/main/java/fog/booking_service/domain/BookingStateCode.java:15-17 | each of the codes 0..2 maps to a state whose code is that code |
| BookingLedger.Load | src/main/java/fog/booking_service/service/BookingService.java:43-46 | the load of (store, slot) sums the party sizes of CONFIRMED rows for exactly that store and slot; it is 0 when no row matches, and at least 0 when no party size is negative |
| BookingLedger.LoadAppend | src/main/java/fog/booking_service/service/BookingService.java:109-116 | saving a row raises a slot's load by exactly the seats the row holds there, and by nothing at other slots |
| BookingLedger.LoadUpdate | src/main/java/fog/booking_service/service/BookingService.java:155 | overwriting one row changes the load by what the new version holds minus what the old version held |
| BookingLedger.Candidate | src/main/java/fog/booking_service/domain/Booking.java:39-46 | the builder's row for a request is in state code 0, CONFIRMED |
| BookingLedger.AdmissionError | src/main/java/fog/booking_service/service/BookingService.java:101-116 | the capacity error occurs exactly when seats - load < count; the request passes exactly when the seat check passes, code 0 exists and the row fits its columns; a row that passes leaves the slot's load at most seats |
| BookingLedger.AdmitOutcome | src/main/java/fog/booking_service/service/BookingService.java:95-117 | makeBooking succeeds exactly when no check refuses and returns the next booking number, otherwise the first refusing error; it fails with the capacity error exactly when seats - load < count, and a successful CONFIRMED candidate leaves the slot's load at most seats |
| BookingLedger.AdmissionBoundary | src/main/java/fog/booking_service/service/BookingService.java:101-104 | asking for exactly the remaining seats passes the seat check; asking for one more fails it |
| BookingLedger.AdmissionKeepsCapacity | src/main/java/fog/booking_service/service/BookingService.java:101-116 | when every admission for a slot uses the same total C, a load within C stays within C |
| BookingLedger.GetBooking | src/main/java/fog/booking_service/service/BookingService.java:70-73 | an unknown booking number is not found; a known one gives the stored row |
| BookingLedger.ResponseRoundTrip | src/main/java/fog/booking_service/service/BookingService.java:82-89 | the detail view keeps every stored field, and the stored row can be rebuilt from it |
| BookingLedger.GetBookingResponse | src/main/java/fog/booking_service/servivce/BookingService.java:71-83 | an unknown number is not found; a known one gives a view under that number from which exactly the stored row is recovered |
| BookingLedger.OwnedBelow | src/main/java/fog/booking_service/servivce/BookingService.java:46 | findAllByUserId returns the positions of exactly the user's rows, each once, in increasing booking-number order |
| BookingLedger.EntriesAt | src/main/java/fog/booking_service/servivce/BookingService.java:50-57 | the stream map gives one list view per fetched row, in the same order, under that row's number |
| BookingLedger.BookingList | src/main/java/fog/booking_service/servivce/BookingService.java:44-57 | getBookingList has one entry per booking of the user, in repository order, with that booking's number, date, store and state name |
| BookingLedger.DueBelow | src/main/java/fog/booking_service/service/BookingService.java:171-172 | the sweep's query returns exactly the CONFIRMED rows whose slot is at or before now, each once, in table order |
| BookingLedger.Swept | src/main/java/fog/booking_service/service/BookingService.java:171-186 | after the sweep, exactly the due rows become COMPLETED, every other row is unchanged (rows completed earlier stay COMPLETED), and no row is due any more |
| BookingLedger.SweepIdempotent | src/main/java/fog/booking_service/service/BookingService.java:174-186 | a second sweep with the same now changes nothing, and the sweep is a no-op when no row is due |
| BookingLedger.LoadAfterSweep | src/main/java/fog/booking_service/service/BookingService.java:171-186 | after the sweep at now, slots at or before now have load 0 and later slots keep their load |
| BookingLedger.SweepKeepsCapacity | src/main/java/fog/booking_service/servivce/BookingService.java:140-155 | with non-negative party sizes, the sweep never pushes a slot over a capacity it was within |
| BookingLedger.CancelFreesSeats | src/main/java/fog/booking_service/service/BookingService.java:149-156 | cancelling a row lowers a slot's load by the seats the row held there: its count if it was CONFIRMED for that slot, else nothing |
| BookingLedger.CancelKeepsCapacity | src/main/java/fog/booking_service/servivce/BookingService.java:118-125 | with a non-negative party size, cancelling never pushes a slot over a capacity it was within |
| BookingLedger.Ledger.Save | src/main/java/fog/booking_service/domain/Booking.java:18-37 | save gives the row the next identity number, one no earlier row has, and appends it; a row too long for USER_ID (50) or STORE_ID (20) is refused and nothing changes |
| BookingLedger.Ledger.Admit | src/main/java/fog/booking_service/service/BookingService.java:101-116 | the returned outcome is AdmitOutcome of the old table; on success exactly one CONFIRMED row with the request's fields is appended and the slot's load is at most seats; on failure the table is unchanged |
| BookingLedger.Ledger.CancelBooking | src/main/java/fog/booking_service/service/BookingService.java:149-156 | an unknown number is not found and nothing changes; a missing code 1 fails and nothing changes; otherwise only that row's state becomes CANCELED, whatever its state or slot |
| BookingLedger.Ledger.UpdateBookingState | src/main/java/fog/booking_service/servivce/BookingService.java:130-158 | the table becomes Swept of the old table; it fails, changing nothing, exactly when some row is due and code 2 is missing |
| SseEmitters.Registry.Connect | src/main/java/fog/booking_service/controller/BookingController.java:46-48 | connect maps the user to a fresh channel, the next number of a counter that only grows, so no two connects ever share a channel; it replaces any earlier entry for the user, and every other entry is unchanged |
| SseEmitters.Registry.Remove | src/main/java/fog/booking_service/controller/BookingController.java:50-51 | completion or timeout removes the user's key, whichever channel it holds; every other entry is unchanged |
| BookingService.MakeBooking | src/main/java/fog/booking_service/service/BookingService.java:95-117 | makeBooking on a queued request returns AdmitOutcome for its fields and seat total; it appends that one CONFIRMED row only on success |
| BookingService.StatusFor | src/main/java/fog/booking_service/service/BookingService.java:127-143 | success gives ("success", success message, booking number); the capacity error gives ("failure", capacity message, none); any other error gives ("failure", generic message, none) |
| BookingService.StatusMessagesDistinct | src/main/java/fog/booking_service/service/BookingService.java:132-141 | equal status messages come from the same path: success with the same number, capacity failure, or other failure |
| BookingService.SendSseEvent | src/main/java/fog/booking_service/service/BookingService.java:194-209 | the event reaches the user's registered channel only when one exists and the send succeeds; afterwards the user has no entry in every case, other entries are unchanged, and the channel counter is unchanged |
| BookingService.HandleBookingRequest | src/main/java/fog/booking_service/service/BookingService.java:123-144 | the pushed message is StatusFor of the admission outcome; the table gains the new row only on success; the requester's channel entry is gone; the message is acknowledged exactly once |
| LegacyBookingService.MakeBooking | src/main/java/fog/booking_service/servivce/BookingService.java:88-113 | the capacity rule is the same; on success it returns the view read back for the new number: the request's fields with state name CONFIRMED; on failure nothing is saved |
| BookingController.FindBookingList | src/main/java/fog/booking_service/controller/BookingController.java:79-86 | access is denied exactly when the caller's user name differs from the path user id; otherwise the result is the list for the caller's subject id |
| BookingController.FindBookingListOwned | src/main/java/fog/booking_service/controller/BookingController.java:79-86 | every entry of a successful list is a known booking whose owner is the caller's subject id |
| BookingController.FindBooking | src/main/java/fog/booking_service/controller/BookingController.java:92-107 | an unknown number is not found; a non-owner is denied; the owner gets the view of exactly the stored row |
| BookingController.CancelBooking | src/main/java/fog/booking_service/controller/BookingController.java:155-168 | an unknown number is not found and a non-owner is denied, and in both cases the booking is left as it was; for the owner the booking becomes CANCELED and the returned view shows CANCELED |
| BookingController.GroupFor | src/main/java/fog/booking_service/controller/BookingController.java:137 | the message group id is "booking-group-" followed by the subject; the subject can be read back from it, so distinct users get distinct groups |
| BookingController.QueueBooking | src/main/java/fog/booking_service/controller/BookingController.java:128-149 | the queued request takes its user id from the token's subject, whatever the client sent, and its user name from the token; date, store and count are copied from the body; seats is 0; the reply is the fixed "processing" string |
| BookingController.QueuedBookingAlwaysRejected | src/main/java/fog/booking_service/controller/BookingController.java:132-134 | as written, any queued request with a positive party size fails the seat check when no stored party size is negative |
| BookingController.QueueBookingWithSeats | src/main/java/fog/booking_service/controller/BookingController.java:128-149 | the corrected request carries the supplied seat total; all other fields are as in QueueBooking |
| BookingController.QueuedBookingWithSeatsAdmission | src/main/java/fog/booking_service/service/BookingService.java:101-104 | with the seat total carried, the queued request fails the seat check exactly when seats - load < count |

## Findings

| source | as written | input that shows it | evidently intended | confidence | as-written member | corrected member |
|---|---|---|---|---|---|---|
| src/main/java/fog/booking_service/controller/BookingController.java:132-134 | the queued request is copied from a web body that has no seat total, so its `seats` keeps the default 0 and the consumer checks `0 - load < count` | a request for 2 seats at a slot with no bookings: 0 - 0 < 2, so the consumer pushes the capacity failure and saves nothing | the queued request carries the store's total seats, which is what the queue message's `seats` field is for | not executed | BookingController.QueuedBookingAlwaysRejected | BookingController.QueueBookingWithSeats |

`Scenarios.QueuedRequestScenario` walks through both halves. The as-written
request gets the capacity message on an empty ledger. The same request, carrying
a seat total of 10, becomes booking 1.

## Left out

- BookingLedger.Load: the model returns 0 when no row matches. The query behind
  `sumCountByBookingDate` is not declared in the repository interface, and a SQL
  SUM over no rows gives null. The model assumes the query returns 0 instead.
- BookingLedger.AdmissionError: `seats - load` and the load sum use unbounded
  integers. The source computes them in 32-bit `int` and can wrap around.
- BookingLedger.OwnedBelow: the model takes "repository order" to be ascending
  booking number. JPA does not promise an order for `findAllByUserId`.
- BookingLedger.Ledger.Save: a row too long for its columns is refused with the
  ledger unchanged. Whether the database refuses or truncates depends on its
  mode, and the transaction being marked rollback-only is not modelled.
  Identity values that a failed insert might use up are not modelled either.
- Bookings are values inside the ledger. Java entity objects, their aliasing,
  lazy loading of the state-code reference and dirty-checking at commit are not
  modelled. A setter call becomes an update of one table row.
- The SMS notification (both MessageService files) is left out. It runs after a
  successful admission, calls an external user directory, store service and SMS
  gateway, swallows its own failures, and changes neither the ledger nor the
  registry.
- Token decoding (JwtAuthenticationFilter) is left out. The caller's user name
  and subject id are given as a `Caller` value.
- The clock and time zone read in `updateBookingState` are left out: `now` is a
  parameter. The hourly cron schedule of BookingScheduler is left out too.
- Security and AWS configuration, the application entry point, the health
  check and the two commented-out test classes are left out.
- Concurrency is left out: transaction isolation, queue ordering and
  deduplication, concurrent-map thread safety, and the asynchronous emitter
  callbacks. Every operation is one sequential step.
- SseEmitters.Registry.Connect: the initial "connect" event is not modelled. If
  that send fails, it is only logged and the registry entry stays. The ten-minute
  timeout is a constant; timing itself is not modelled, and a timeout is the
  `Remove` call.
- BookingService.SendSseEvent: `complete()` also fires the completion callback,
  and that callback runs later, when the container finishes the asynchronous
  request. It is one more `Remove(userId)`. It does nothing only if the user has
  not reconnected in between; otherwise it drops the new channel, the same effect
  `Scenarios.StaleTimeoutScenario` shows for a timeout. The model does not
  schedule that late call. Serialising the event is not modelled.
- The controller's `getAvailableSeats` endpoint only forwards to the service. The
  model has no separate member for it; `BookingLedger.Load` is what it returns.
- Null request fields are not represented. Jackson can bind `bookingDate` or
  `storeId` of a request body as null, and so can the queue message. The source
  then fails, either when it unboxes in the seat check
  (service/BookingService.java:101) or at the NOT NULL columns on save
  (domain/Booking.java:23-30). `handleBookingRequest` answers that failure with
  the generic failure message and saves nothing. Every field of the model's
  request records is a plain value, so that path cannot arise.
- LegacyBookingService.MakeBooking: the older copy reads `request.getSeats()`,
  but the web request type has no such field. The seat total is therefore an
  explicit parameter.
- Logging and the DTO builders are left out. Response and message records are
  plain datatypes.
