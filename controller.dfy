/**
 * BookingController: the ownership guards on the read and cancel endpoints,
 * and the construction of the queued booking request.
 */
module BookingController {
  import opened Wrappers
  import opened StateCode
  import opened Domain
  import opened BookingLedger

  /** The authenticated caller: the token's user name and its stable subject id. */
  datatype Caller = Caller(username: string, sub: string)

  const GroupPrefix := "booking-group-"
  const ProcessingReply := "예약 처리중입니다."

  /** A message handed to the FIFO queue: body, ordering group and deduplication token. */
  datatype QueuedMessage = QueuedMessage(payload: SqsBookingRequest, groupId: string, deduplicationId: string)

  /** What booking() does: the message it enqueues and the reply it returns at once. */
  datatype Submission = Submission(message: QueuedMessage, reply: string)

  /** The booking number is known and its stored owner is the caller's subject id. */
  predicate OwnedBy(rows: seq<Booking>, bookingNum: int, caller: Caller)
  {
    1 <= bookingNum <= |rows| && rows[bookingNum - 1].userId == caller.sub
  }

  /**
   * findBookingList: refused unless the caller's user name equals the path
   * user id; the list itself is the one for the caller's subject id.
   */
  function FindBookingList(rows: seq<Booking>, caller: Caller, userId: string): (r: Result<seq<BookingListResponse>, Error>)
    ensures r.Failure? <==> caller.username != userId
    ensures r.Failure? ==> r.error == AccessDenied
    ensures r.Success? ==> r.value == BookingList(rows, caller.sub)
  {
    if caller.username != userId then Failure(AccessDenied) else Success(BookingList(rows, caller.sub))
  }

  /** Every entry of a successful findBookingList is a booking owned by the caller's subject id. */
  lemma FindBookingListOwned(rows: seq<Booking>, caller: Caller, userId: string, k: nat)
    requires FindBookingList(rows, caller, userId).Success?
    requires k < |FindBookingList(rows, caller, userId).value|
    ensures var e := FindBookingList(rows, caller, userId).value[k];
      1 <= e.bookingNum <= |rows| && rows[e.bookingNum - 1].userId == caller.sub
  {
    var owned := OwnedBelow(rows, caller.sub, |rows|);
    assert FindBookingList(rows, caller, userId).value[k] == ListEntryOf(owned[k] + 1, rows[owned[k]]);
  }

  /**
   * findBooking: not-found for an unknown number, refused unless the stored
   * owner is the caller's subject id, otherwise the detail view.
   */
  function FindBooking(rows: seq<Booking>, caller: Caller, bookingNum: int): (r: Result<BookingResponse, Error>)
    ensures r.Success? <==> OwnedBy(rows, bookingNum, caller)
    ensures !(1 <= bookingNum <= |rows|) ==> r == Failure(BookingNotFound)
    ensures 1 <= bookingNum <= |rows| && rows[bookingNum - 1].userId != caller.sub ==> r == Failure(AccessDenied)
    ensures r.Success? ==> r.value.bookingNum == bookingNum && BookingOf(r.value) == Some(rows[bookingNum - 1])
  {
    match GetBookingResponse(rows, bookingNum)
    case Failure(e) => Failure(e)
    case Success(response) =>
      if response.userId != caller.sub then Failure(AccessDenied) else Success(response)
  }

  /**
   * cancelBooking: not-found for an unknown number; a caller who is not the
   * owner is refused and the booking is untouched; for the owner the booking
   * becomes CANCELED and the returned view shows it.
   */
  method CancelBooking(ledger: Ledger, caller: Caller, bookingNum: int) returns (r: Result<BookingResponse, Error>)
    requires ledger.Valid()
    modifies ledger
    ensures ledger.Valid()
    ensures !(1 <= bookingNum <= |old(ledger.rows)|) ==>
      r == Failure(BookingNotFound) && ledger.rows == old(ledger.rows)
    ensures 1 <= bookingNum <= |old(ledger.rows)| && old(ledger.rows)[bookingNum - 1].userId != caller.sub ==>
      r == Failure(AccessDenied) && ledger.rows == old(ledger.rows)
    ensures OwnedBy(old(ledger.rows), bookingNum, caller) && Canceled !in ledger.stateRows ==>
      r == Failure(StateCodeNotFound(1)) && ledger.rows == old(ledger.rows)
    ensures OwnedBy(old(ledger.rows), bookingNum, caller) && Canceled in ledger.stateRows ==>
      ledger.rows == old(ledger.rows)[bookingNum - 1 := old(ledger.rows)[bookingNum - 1].(state := Canceled)]
      && r.Success? && r.value.bookingNum == bookingNum && r.value.bookingState == Name(Canceled)
      && BookingOf(r.value) == Some(ledger.rows[bookingNum - 1])
  {
    var found := GetBooking(ledger.rows, bookingNum);
    if found.Failure? {
      return Failure(found.error);
    }
    if found.value.userId != caller.sub {
      return Failure(AccessDenied);
    }
    var err := ledger.CancelBooking(bookingNum);
    if err.Some? {
      return Failure(err.value);
    }
    r := GetBookingResponse(ledger.rows, bookingNum);
  }

  /** The user a message group belongs to, when the id has the group prefix. */
  function GroupOwner(groupId: string): Option<string>
  {
    if |GroupPrefix| <= |groupId| && groupId[..|GroupPrefix|] == GroupPrefix
    then Some(groupId[|GroupPrefix|..]) else None
  }

  /** The ordering group of a user's messages; distinct users get distinct groups. */
  function GroupFor(sub: string): (groupId: string)
    ensures GroupOwner(groupId) == Some(sub)
  {
    var g := GroupPrefix + sub;
    assert g[..|GroupPrefix|] == GroupPrefix && g[|GroupPrefix|..] == sub;
    g
  }

  /**
   * booking(): the queued request takes its user id from the token, whatever
   * the client sent, and its user name from the token too; the date, store
   * and party size are copied from the body. The body has no seat total, so
   * the copy's seats keep their default 0.
   */
  function QueueBooking(caller: Caller, request: BookingRequest, deduplicationId: string): (s: Submission)
    ensures s.message.payload.userId == caller.sub && s.message.payload.userName == caller.username
    ensures s.message.payload.bookingDate == request.bookingDate
      && s.message.payload.storeId == request.storeId && s.message.payload.count == request.count
    ensures s.message.payload.seats == 0
    ensures GroupOwner(s.message.groupId) == Some(caller.sub)
    ensures s.message.deduplicationId == deduplicationId && s.reply == ProcessingReply
  {
    var body := request.(userId := caller.sub);
    var payload := SqsBookingRequest(body.bookingDate, body.userId, body.storeId, body.count, 0, caller.username);
    Submission(QueuedMessage(payload, GroupFor(caller.sub), deduplicationId), ProcessingReply)
  }

  /**
   * As written, every request queued by booking() with a positive party size
   * is refused by the seat check when the existing party sizes are
   * non-negative: its seat total is 0 and the load is at least 0.
   */
  lemma QueuedBookingAlwaysRejected(
    rows: seq<Booking>, stateRows: set<State>, caller: Caller, request: BookingRequest, deduplicationId: string)
    requires NonNegativeCounts(rows)
    requires request.count > 0
    ensures var p := QueueBooking(caller, request, deduplicationId).message.payload;
      AdmitOutcome(rows, stateRows, Candidate(p.bookingDate, p.userId, p.storeId, p.count), p.seats)
        == Failure(CapacityExceeded)
  {
    var p := QueueBooking(caller, request, deduplicationId).message.payload;
    assert Load(rows, p.storeId, p.bookingDate) >= 0;
  }

  /**
   * booking() with the store's seat total carried into the queued request,
   * as the queue message's seats field is meant to hold.
   */
  function QueueBookingWithSeats(caller: Caller, request: BookingRequest, seats: int, deduplicationId: string)
    : (s: Submission)
    ensures s.message.payload.userId == caller.sub && s.message.payload.userName == caller.username
    ensures s.message.payload.bookingDate == request.bookingDate
      && s.message.payload.storeId == request.storeId && s.message.payload.count == request.count
    ensures s.message.payload.seats == seats
    ensures GroupOwner(s.message.groupId) == Some(caller.sub)
    ensures s.message.deduplicationId == deduplicationId && s.reply == ProcessingReply
  {
    var body := request.(userId := caller.sub);
    var payload := SqsBookingRequest(body.bookingDate, body.userId, body.storeId, body.count, seats, caller.username);
    Submission(QueuedMessage(payload, GroupFor(caller.sub), deduplicationId), ProcessingReply)
  }

  /**
   * With the seat total carried, the queued request is refused for capacity
   * exactly when the remaining seats are fewer than the party size; asking for
   * exactly the remaining seats passes the check.
   */
  lemma QueuedBookingWithSeatsAdmission(
    rows: seq<Booking>, stateRows: set<State>, caller: Caller, request: BookingRequest, seats: int, deduplicationId: string)
    ensures var p := QueueBookingWithSeats(caller, request, seats, deduplicationId).message.payload;
      var outcome := AdmitOutcome(rows, stateRows, Candidate(p.bookingDate, p.userId, p.storeId, p.count), p.seats);
      (outcome == Failure(CapacityExceeded) <==> seats - Load(rows, request.storeId, request.bookingDate) < request.count)
  {
  }
}
