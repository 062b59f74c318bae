/**
 * Client-side walkthroughs of the pipeline, proved from the operations'
 * contracts alone.
 */
module Scenarios {
  import opened Wrappers
  import opened StateCode
  import opened Domain
  import opened BookingLedger
  import opened SseEmitters
  import opened BookingService
  import opened BookingController

  /** Capacity 10 at one slot: 6 fits, 5 more does not, cancelling the 6 lets the 5 in. */
  method CapacityScenario(slot: Time)
  {
    var ledger := new Ledger({Confirmed, Canceled, Completed});
    var r1 := ledger.Admit(slot, "u1", "s1", 6, 10);
    assert r1 == Success(1);
    LoadAppend([], Candidate(slot, "u1", "s1", 6), "s1", slot);
    var r2 := ledger.Admit(slot, "u2", "s1", 5, 10);
    assert r2 == Failure(CapacityExceeded);
    var e := ledger.CancelBooking(1);
    assert e == None;
    CancelFreesSeats([Candidate(slot, "u1", "s1", 6)], 0, "s1", slot);
    var r3 := ledger.Admit(slot, "u2", "s1", 5, 10);
    assert r3 == Success(2);
  }

  /** A registered channel receives one outcome and is removed; a second outcome is dropped; a reconnect gets a new channel. */
  method SessionScenario()
  {
    var emitters := new Registry();
    var ch := emitters.Connect("u");
    var first := SendSseEvent(emitters, "u", StatusFor(Success(1)), true);
    assert first == Some(ch);
    var second := SendSseEvent(emitters, "u", StatusFor(Success(2)), true);
    assert second == None;
    var again := emitters.Connect("u");
    assert again != ch;
  }

  /** Removal is by key: the first session's timeout also drops the user's newer session. */
  method StaleTimeoutScenario()
  {
    var emitters := new Registry();
    var older := emitters.Connect("u");
    assert emitters.channels["u"] == older;
    var newer := emitters.Connect("u");
    assert newer != older;
    emitters.Remove("u");
    var delivered := SendSseEvent(emitters, "u", StatusFor(Success(1)), true);
    assert delivered == None;
  }

  /** The sweep after slot t completes the booking at t and leaves a later one confirmed. */
  method SweepScenario(t: Time)
  {
    var ledger := new Ledger({Confirmed, Canceled, Completed});
    var r1 := ledger.Admit(t, "u1", "s1", 2, 10);
    var r2 := ledger.Admit(t + 2, "u1", "s1", 2, 10);
    assert ledger.rows == [Candidate(t, "u1", "s1", 2), Candidate(t + 2, "u1", "s1", 2)];
    var e := ledger.UpdateBookingState(t + 1);
    assert e == None;
    assert ledger.rows[0].state == Completed;
    assert ledger.rows[1].state == Confirmed;
    ghost var afterFirst := ledger.rows;
    var again := ledger.UpdateBookingState(t + 1);
    SweepIdempotent(afterFirst, t + 1);
    assert again == None && ledger.rows == afterFirst;
  }

  /**
   * A request queued by booking() as written carries 0 seats, so the consumer
   * pushes the capacity failure even to an empty ledger; carrying the seat
   * total lets the same request through.
   */
  method QueuedRequestScenario(slot: Time)
  {
    var caller := Caller("alice", "sub-1");
    var body := BookingRequest(slot, "client-value", "s1", 2);
    var ledger := new Ledger({Confirmed, Canceled, Completed});
    var emitters := new Registry();
    var ack := new Acknowledgement();

    var asWritten := QueueBooking(caller, body, "d1");
    var ch := emitters.Connect("sub-1");
    var m1, d1 := HandleBookingRequest(ledger, emitters, asWritten.message.payload, ack, true);
    assert m1.message == CapacityMessage && d1 == Some(ch);
    assert ledger.rows == [] && ack.count == 1;

    var withSeats := QueueBookingWithSeats(caller, body, 10, "d2");
    var m2, d2 := HandleBookingRequest(ledger, emitters, withSeats.message.payload, ack, true);
    assert m2 == BookingStatusMessage(SuccessStatus, SuccessMessage, Some(1));
    assert d2 == None && ack.count == 2;
    assert ledger.rows == [Candidate(slot, "sub-1", "s1", 2)];
  }
}
