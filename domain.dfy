/**
 * The BOOKING entity, the error cases of the booking pipeline, and the
 * transfer records exchanged with the queue, the HTTP layer and the push channel.
 */
module Domain {
  import opened Wrappers
  import opened StateCode

  /** A LocalDateTime at its own resolution, as an ordered integer: equal and `<=` exactly when the LocalDateTime values are. */
  type Time = int

  /** Widths of the USER_ID and STORE_ID columns. */
  const UserIdColumnLength := 50
  const StoreIdColumnLength := 20

  /**
   * One BOOKING row as the builder fills it: date, user, store, party size and
   * a reference to a state-code row. BOOKING_NUM is not part of the record:
   * the ledger assigns it on save. Every field here is non-null by typing.
   */
  datatype Booking = Booking(bookingDate: Time, userId: string, storeId: string, count: int, state: State)

  /** The row fits the length limits of its columns. */
  predicate FitsColumns(b: Booking)
  {
    |b.userId| <= UserIdColumnLength && |b.storeId| <= StoreIdColumnLength
  }

  /** The failures the pipeline distinguishes. */
  datatype Error =
    | CapacityExceeded          // IllegalStateException from the seat check
    | BookingNotFound           // EntityNotFoundException for an unknown booking number
    | StateCodeNotFound(code: int) // a state-code row the operation needs is missing
    | ColumnTooLong             // the store refuses a row that does not fit its columns
    | AccessDenied              // SecurityException from the controller's guards

  /** The web request body: it carries no seat total. */
  datatype BookingRequest = BookingRequest(bookingDate: Time, userId: string, storeId: string, count: int)

  /** The queue message body: the request plus the store's total seats and the caller's user name. */
  datatype SqsBookingRequest = SqsBookingRequest(
    bookingDate: Time, userId: string, storeId: string, count: int, seats: int, userName: string)

  /** Detail view of one booking. */
  datatype BookingResponse = BookingResponse(
    bookingNum: nat, bookingDate: Time, storeId: string, bookingState: string, count: int, userId: string)

  /** List view of one booking. */
  datatype BookingListResponse = BookingListResponse(
    bookingNum: nat, bookingDate: Time, storeId: string, bookingState: string)

  /** The outcome event pushed to the client's channel. */
  datatype BookingStatusMessage = BookingStatusMessage(status: string, message: string, bookingId: Option<nat>)
}
