/**
 * The queue-driven BookingService: makeBooking on a queued request, the
 * consumer that routes its outcome to the user's push channel, and the
 * one-shot push itself.
 */
module BookingService {
  import opened Wrappers
  import opened Domain
  import opened BookingLedger
  import opened SseEmitters

  const SuccessStatus := "success"
  const FailureStatus := "failure"
  const SuccessMessage := "예약이 성공적으로 완료되었습니다."
  const CapacityMessage := "예약 가능한 좌석 수를 초과하였습니다."
  const ErrorMessage := "예약 처리 중 오류가 발생했습니다."

  /** The queue's manual acknowledgement handle; count is how often acknowledge was called. */
  class Acknowledgement {
    var count: nat

    constructor ()
      ensures count == 0
    {
      count := 0;
    }

    method Acknowledge()
      modifies this
      ensures count == old(count) + 1
    {
      count := count + 1;
    }
  }

  /** makeBooking(request): the shared admission rule on the queued request's fields and seat total. */
  method MakeBooking(ledger: Ledger, request: SqsBookingRequest) returns (r: Result<nat, Error>)
    requires ledger.Valid()
    modifies ledger
    ensures ledger.Valid()
    ensures r == AdmitOutcome(old(ledger.rows), ledger.stateRows,
      Candidate(request.bookingDate, request.userId, request.storeId, request.count), request.seats)
    ensures r.Success? ==>
      ledger.rows == old(ledger.rows) + [Candidate(request.bookingDate, request.userId, request.storeId, request.count)]
    ensures r.Failure? ==> ledger.rows == old(ledger.rows)
  {
    r := ledger.Admit(request.bookingDate, request.userId, request.storeId, request.count, request.seats);
  }

  /**
   * The status message for an admission outcome: success with the booking
   * number, the capacity failure, or the generic failure for any other error.
   */
  function StatusFor(outcome: Result<nat, Error>): (m: BookingStatusMessage)
    ensures m.status == SuccessStatus <==> outcome.Success?
    ensures m.status == FailureStatus <==> outcome.Failure?
    ensures m.bookingId.Some? <==> outcome.Success?
    ensures outcome.Success? ==> m.bookingId == Some(outcome.value) && m.message == SuccessMessage
    ensures outcome.Failure? ==>
      m.message == (if outcome.error == CapacityExceeded then CapacityMessage else ErrorMessage)
  {
    match outcome
    case Success(n) => BookingStatusMessage(SuccessStatus, SuccessMessage, Some(n))
    case Failure(CapacityExceeded) => BookingStatusMessage(FailureStatus, CapacityMessage, None)
    case Failure(_) => BookingStatusMessage(FailureStatus, ErrorMessage, None)
  }

  /** The three messages differ, so a pushed message tells which path was taken. */
  lemma StatusMessagesDistinct(a: Result<nat, Error>, b: Result<nat, Error>)
    requires StatusFor(a) == StatusFor(b)
    ensures a.Success? <==> b.Success?
    ensures a.Success? ==> a == b
    ensures a.Failure? ==> (a.error == CapacityExceeded <==> b.error == CapacityExceeded)
  {
  }

  /**
   * sendSseEvent(userId, payload): with a registered channel, try to send and
   * remove the entry whether the send succeeded or failed; without one, drop
   * the event. sendSucceeds stands for the outcome of the network send.
   */
  method SendSseEvent(emitters: Registry, userId: string, payload: BookingStatusMessage, sendSucceeds: bool)
    returns (deliveredTo: Option<Channel>)
    requires emitters.Valid()
    modifies emitters
    ensures emitters.Valid()
    ensures deliveredTo ==
      if userId in old(emitters.channels) && sendSucceeds then Some(old(emitters.channels)[userId]) else None
    ensures emitters.channels == old(emitters.channels) - {userId}
    ensures emitters.nextChannel == old(emitters.nextChannel)
  {
    if userId in emitters.channels {
      var ch := emitters.channels[userId];
      if sendSucceeds {
        deliveredTo := Some(ch);
      } else {
        deliveredTo := None;
      }
      emitters.Remove(userId);
    } else {
      deliveredTo := None;
    }
  }

  /**
   * handleBookingRequest: admit the request, push the matching status message
   * to the requester's channel, and acknowledge the message exactly once on
   * every path. The SMS notification after a success is left out: it touches
   * neither the ledger nor the registry and swallows its own failures.
   */
  method HandleBookingRequest(
    ledger: Ledger, emitters: Registry, request: SqsBookingRequest,
    acknowledgement: Acknowledgement, sendSucceeds: bool)
    returns (payload: BookingStatusMessage, deliveredTo: Option<Channel>)
    requires ledger.Valid() && emitters.Valid()
    modifies ledger, emitters, acknowledgement
    ensures ledger.Valid() && emitters.Valid()
    ensures payload == StatusFor(AdmitOutcome(old(ledger.rows), ledger.stateRows,
      Candidate(request.bookingDate, request.userId, request.storeId, request.count), request.seats))
    ensures payload.status == SuccessStatus ==>
      ledger.rows == old(ledger.rows) + [Candidate(request.bookingDate, request.userId, request.storeId, request.count)]
    ensures payload.status != SuccessStatus ==> ledger.rows == old(ledger.rows)
    ensures emitters.channels == old(emitters.channels) - {request.userId}
    ensures emitters.nextChannel == old(emitters.nextChannel)
    ensures deliveredTo ==
      if request.userId in old(emitters.channels) && sendSucceeds
      then Some(old(emitters.channels)[request.userId]) else None
    ensures acknowledgement.count == old(acknowledgement.count) + 1
  {
    var outcome := MakeBooking(ledger, request);
    payload := StatusFor(outcome);
    deliveredTo := SendSseEvent(emitters, request.userId, payload, sendSucceeds);
    acknowledgement.Acknowledge();
  }
}
