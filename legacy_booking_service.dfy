/**
 * The older BookingService copy, the one the hourly scheduler calls. It
 * shares the ledger's rules; its makeBooking is driven by the web request
 * and returns the detail view read back for the new booking number.
 */
module LegacyBookingService {
  import opened Wrappers
  import opened StateCode
  import opened Domain
  import opened BookingLedger

  /**
   * makeBooking(request): the shared admission rule; on success, the detail
   * view of the saved row. The web request has no seat total, so the seats
   * the rule compares against are a parameter here.
   */
  method MakeBooking(ledger: Ledger, request: BookingRequest, seats: int) returns (r: Result<BookingResponse, Error>)
    requires ledger.Valid()
    modifies ledger
    ensures ledger.Valid()
    ensures r.Success? <==>
      AdmissionError(old(ledger.rows), ledger.stateRows,
        Candidate(request.bookingDate, request.userId, request.storeId, request.count), seats).None?
    ensures r.Failure? ==>
      r.error == AdmissionError(old(ledger.rows), ledger.stateRows,
        Candidate(request.bookingDate, request.userId, request.storeId, request.count), seats).value
      && ledger.rows == old(ledger.rows)
    ensures r.Success? ==>
      ledger.rows == old(ledger.rows) + [Candidate(request.bookingDate, request.userId, request.storeId, request.count)]
      && r.value.bookingNum == |old(ledger.rows)| + 1
      && r.value.bookingState == Name(Confirmed)
      && BookingOf(r.value) == Some(Candidate(request.bookingDate, request.userId, request.storeId, request.count))
  {
    var saved := ledger.Admit(request.bookingDate, request.userId, request.storeId, request.count, seats);
    match saved
    case Failure(e) =>
      r := Failure(e);
    case Success(n) =>
      r := GetBookingResponse(ledger.rows, n);
  }
}
