/**
 * The booking ledger shared by both BookingService copies: the BOOKING table
 * with its identity column, the seat aggregation, the queries, and the three
 * state-changing operations (admission with save, cancellation, hourly sweep).
 *
 * The table is a sequence: the booking numbered k is at position k - 1,
 * because numbers come from an identity column starting at 1 and the core
 * never deletes a row.
 */
module BookingLedger {
  import opened Wrappers
  import opened StateCode
  import opened Domain

  // ---------------------------------------------------------------------------
  // Seat aggregation (sumCountByBookingDate(storeId, slot, 0))
  // ---------------------------------------------------------------------------

  /** The row holds seats against (storeId, slot): it is CONFIRMED for exactly that store and slot. */
  predicate Holds(b: Booking, storeId: string, slot: Time)
  {
    b.storeId == storeId && b.bookingDate == slot && b.state == Confirmed
  }

  /** Seats one row holds against (storeId, slot). */
  function Held(b: Booking, storeId: string, slot: Time): int
  {
    if Holds(b, storeId, slot) then b.count else 0
  }

  /** The source has no positivity check on party sizes; some lemmas need it as a hypothesis. */
  predicate NonNegativeCounts(rows: seq<Booking>)
  {
    forall i :: 0 <= i < |rows| ==> rows[i].count >= 0
  }

  /**
   * The load of a slot: the sum of party sizes of the CONFIRMED rows for that
   * store and exactly that slot. Canceled and completed rows never count, and
   * when nothing matches the load is 0.
   */
  function Load(rows: seq<Booking>, storeId: string, slot: Time): (load: int)
    ensures (forall i :: 0 <= i < |rows| ==> !Holds(rows[i], storeId, slot)) ==> load == 0
    ensures NonNegativeCounts(rows) ==> load >= 0
    decreases |rows|
  {
    if rows == [] then 0
    else Load(rows[..|rows| - 1], storeId, slot) + Held(rows[|rows| - 1], storeId, slot)
  }

  /** Appending a row adds exactly the seats it holds. */
  lemma LoadAppend(rows: seq<Booking>, b: Booking, storeId: string, slot: Time)
    ensures Load(rows + [b], storeId, slot) == Load(rows, storeId, slot) + Held(b, storeId, slot)
  {
    assert (rows + [b])[..|rows|] == rows;
  }

  /** Overwriting one row changes the load by the difference of what the two versions hold. */
  lemma {:induction false} LoadUpdate(rows: seq<Booking>, i: nat, b: Booking, storeId: string, slot: Time)
    requires i < |rows|
    ensures Load(rows[i := b], storeId, slot)
         == Load(rows, storeId, slot) - Held(rows[i], storeId, slot) + Held(b, storeId, slot)
    decreases |rows|
  {
    var n := |rows| - 1;
    if i == n {
      assert rows[i := b][..n] == rows[..n];
    } else {
      assert rows[i := b][..n] == rows[..n][i := b];
      LoadUpdate(rows[..n], i, b, storeId, slot);
    }
  }

  // ---------------------------------------------------------------------------
  // Admission (makeBooking's seat check, state-code lookup and save)
  // ---------------------------------------------------------------------------

  /** The row the builder produces for a request, in the initial state. */
  function Candidate(bookingDate: Time, userId: string, storeId: string, count: int): (b: Booking)
    ensures b.state == Confirmed && Code(b.state) == 0
  {
    Booking(bookingDate, userId, storeId, count, Confirmed)
  }

  /**
   * The first check that refuses the candidate, in the source's order: the
   * seat check, then the lookup of state code 0, then the store's column limits.
   */
  function AdmissionError(rows: seq<Booking>, stateRows: set<State>, b: Booking, seats: int): (e: Option<Error>)
    ensures e == Some(CapacityExceeded) <==> seats - Load(rows, b.storeId, b.bookingDate) < b.count
    ensures e == None <==>
      seats - Load(rows, b.storeId, b.bookingDate) >= b.count && Confirmed in stateRows && FitsColumns(b)
    ensures e == None && b.state == Confirmed ==> Load(rows + [b], b.storeId, b.bookingDate) <= seats
  {
    if seats - Load(rows, b.storeId, b.bookingDate) < b.count then Some(CapacityExceeded)
    else if Confirmed !in stateRows then Some(StateCodeNotFound(Code(Confirmed)))
    else if !FitsColumns(b) then Some(ColumnTooLong)
    else
      LoadAppend(rows, b, b.storeId, b.bookingDate);
      None
  }

  /** What makeBooking returns: the fresh booking number, or the refusing error. */
  function AdmitOutcome(rows: seq<Booking>, stateRows: set<State>, b: Booking, seats: int): (r: Result<nat, Error>)
    ensures r.Success? <==> AdmissionError(rows, stateRows, b, seats).None?
    ensures r.Success? ==> r.value == |rows| + 1
    ensures r.Failure? ==> r.error == AdmissionError(rows, stateRows, b, seats).value
    ensures r == Failure(CapacityExceeded) <==> seats - Load(rows, b.storeId, b.bookingDate) < b.count
    ensures r.Success? && b.state == Confirmed ==> Load(rows + [b], b.storeId, b.bookingDate) <= seats
  {
    match AdmissionError(rows, stateRows, b, seats)
    case None => Success(|rows| + 1)
    case Some(e) => Failure(e)
  }

  /** Boundary of the seat check: booking exactly the remaining seats passes it, one more seat fails it. */
  lemma AdmissionBoundary(rows: seq<Booking>, stateRows: set<State>, b: Booking, seats: int)
    requires b.count == seats - Load(rows, b.storeId, b.bookingDate)
    ensures AdmissionError(rows, stateRows, b, seats) != Some(CapacityExceeded)
    ensures AdmissionError(rows, stateRows, b.(count := b.count + 1), seats) == Some(CapacityExceeded)
  {
  }

  /**
   * Capacity invariant across an admission: when every admission for
   * (storeId, slot) is checked against the same total C, a load that was
   * within C stays within C, and other slots keep their load.
   */
  lemma {:induction false} AdmissionKeepsCapacity(
    rows: seq<Booking>, stateRows: set<State>, b: Booking, seats: int, storeId: string, slot: Time, capacity: int)
    requires Load(rows, storeId, slot) <= capacity
    requires b.state == Confirmed
    requires b.storeId == storeId && b.bookingDate == slot ==> seats == capacity
    requires AdmissionError(rows, stateRows, b, seats).None?
    ensures Load(rows + [b], storeId, slot) <= capacity
  {
    LoadAppend(rows, b, storeId, slot);
  }

  // ---------------------------------------------------------------------------
  // Queries (getBooking, getBookingResponse, getBookingList)
  // ---------------------------------------------------------------------------

  /** findById: the stored row for a booking number, or not-found. */
  function GetBooking(rows: seq<Booking>, bookingNum: int): (r: Result<Booking, Error>)
    ensures r.Success? <==> 1 <= bookingNum <= |rows|
    ensures r.Success? ==> r.value == rows[bookingNum - 1]
    ensures r.Failure? ==> r.error == BookingNotFound
  {
    if 1 <= bookingNum <= |rows| then Success(rows[bookingNum - 1]) else Failure(BookingNotFound)
  }

  /** The detail view of a stored row: every stored field, and the state's name. */
  function ResponseOf(bookingNum: nat, b: Booking): BookingResponse
  {
    BookingResponse(bookingNum, b.bookingDate, b.storeId, Name(b.state), b.count, b.userId)
  }

  /** The stored row a detail view describes, when its state name is in the table. */
  function BookingOf(r: BookingResponse): Option<Booking>
  {
    match FromName(r.bookingState)
    case None => None
    case Some(s) => Some(Booking(r.bookingDate, r.userId, r.storeId, r.count, s))
  }

  /** The detail view loses nothing: the stored row is recovered from it. */
  lemma ResponseRoundTrip(bookingNum: nat, b: Booking)
    ensures BookingOf(ResponseOf(bookingNum, b)) == Some(b)
    ensures ResponseOf(bookingNum, b).bookingNum == bookingNum
  {
    NameRoundTrip(b.state);
  }

  /** getBookingResponse: not-found for an unknown number, otherwise the stored row's detail view. */
  function GetBookingResponse(rows: seq<Booking>, bookingNum: int): (r: Result<BookingResponse, Error>)
    ensures r.Success? <==> 1 <= bookingNum <= |rows|
    ensures r.Failure? ==> r.error == BookingNotFound
    ensures r.Success? ==> r.value.bookingNum == bookingNum && BookingOf(r.value) == Some(rows[bookingNum - 1])
  {
    match GetBooking(rows, bookingNum)
    case Failure(e) => Failure(e)
    case Success(b) =>
      ResponseRoundTrip(bookingNum, b);
      Success(ResponseOf(bookingNum, b))
  }

  /** The list view of a stored row. */
  function ListEntryOf(bookingNum: nat, b: Booking): BookingListResponse
  {
    BookingListResponse(bookingNum, b.bookingDate, b.storeId, Name(b.state))
  }

  /**
   * findAllByUserId over the first n rows: the positions of exactly the
   * user's rows, each once, in table (booking-number) order.
   */
  function OwnedBelow(rows: seq<Booking>, userId: string, n: nat): (r: seq<nat>)
    requires n <= |rows|
    ensures forall k :: 0 <= k < |r| ==> r[k] < n && rows[r[k]].userId == userId
    ensures forall i :: 0 <= i < n && rows[i].userId == userId ==> i in r
    ensures forall k, l :: 0 <= k < l < |r| ==> r[k] < r[l]
    decreases n
  {
    if n == 0 then []
    else
      var prefix := OwnedBelow(rows, userId, n - 1);
      if rows[n - 1].userId == userId then prefix + [n - 1] else prefix
  }

  /** The list views of the rows at the given positions, in the given order. */
  function EntriesAt(rows: seq<Booking>, positions: seq<nat>): (r: seq<BookingListResponse>)
    requires forall k :: 0 <= k < |positions| ==> positions[k] < |rows|
    ensures |r| == |positions|
    ensures forall k :: 0 <= k < |r| ==> r[k] == ListEntryOf(positions[k] + 1, rows[positions[k]])
    decreases |positions|
  {
    if positions == [] then []
    else [ListEntryOf(positions[0] + 1, rows[positions[0]])] + EntriesAt(rows, positions[1..])
  }

  /**
   * getBookingList: the repository's rows for the user (OwnedBelow says
   * which and in what order), each mapped to its list view under its
   * booking number.
   */
  function BookingList(rows: seq<Booking>, userId: string): (r: seq<BookingListResponse>)
    ensures var owned := OwnedBelow(rows, userId, |rows|);
      |r| == |owned| && forall k :: 0 <= k < |r| ==> r[k] == ListEntryOf(owned[k] + 1, rows[owned[k]])
  {
    EntriesAt(rows, OwnedBelow(rows, userId, |rows|))
  }

  // ---------------------------------------------------------------------------
  // Hourly sweep (findByBookingDateLessThanEqualAndBookingStateCode(now, 0))
  // ---------------------------------------------------------------------------

  /** The sweep at now picks the row: still CONFIRMED and its slot is at or before now. */
  predicate Due(b: Booking, now: Time)
  {
    b.bookingDate <= now && b.state == Confirmed
  }

  /** Positions of the due rows among the first n, in table order (the sweep's query). */
  function DueBelow(rows: seq<Booking>, now: Time, n: nat): (r: seq<nat>)
    requires n <= |rows|
    ensures forall k :: 0 <= k < |r| ==> r[k] < n && Due(rows[r[k]], now)
    ensures forall i :: 0 <= i < n && Due(rows[i], now) ==> i in r
    ensures forall k, l :: 0 <= k < l < |r| ==> r[k] < r[l]
    decreases n
  {
    if n == 0 then []
    else
      var prefix := DueBelow(rows, now, n - 1);
      if Due(rows[n - 1], now) then prefix + [n - 1] else prefix
  }

  /** The table after the sweep at now: exactly the due rows become COMPLETED, nothing else changes. */
  function Swept(rows: seq<Booking>, now: Time): (r: seq<Booking>)
    ensures |r| == |rows|
    ensures forall i :: 0 <= i < |rows| && Due(rows[i], now) ==> r[i] == rows[i].(state := Completed)
    ensures forall i :: 0 <= i < |rows| && !Due(rows[i], now) ==> r[i] == rows[i]
    ensures forall i :: 0 <= i < |r| ==> !Due(r[i], now)
  {
    seq(|rows|, i requires 0 <= i < |rows| => if Due(rows[i], now) then rows[i].(state := Completed) else rows[i])
  }

  /** The sweep is a no-op when nothing is due, and running it twice with the same now changes nothing more. */
  lemma SweepIdempotent(rows: seq<Booking>, now: Time)
    ensures Swept(Swept(rows, now), now) == Swept(rows, now)
    ensures (forall i :: 0 <= i < |rows| ==> !Due(rows[i], now)) ==> Swept(rows, now) == rows
  {
  }

  /** After the sweep at now, slots at or before now carry no load; later slots keep theirs. */
  lemma {:induction false} LoadAfterSweep(rows: seq<Booking>, now: Time, storeId: string, slot: Time)
    ensures Load(Swept(rows, now), storeId, slot) == if slot <= now then 0 else Load(rows, storeId, slot)
    decreases |rows|
  {
    if rows != [] {
      var n := |rows| - 1;
      assert Swept(rows, now)[..n] == Swept(rows[..n], now);
      LoadAfterSweep(rows[..n], now, storeId, slot);
    }
  }

  /** With non-negative party sizes, the sweep never pushes a slot over a capacity it was within. */
  lemma SweepKeepsCapacity(rows: seq<Booking>, now: Time, storeId: string, slot: Time, capacity: int)
    requires NonNegativeCounts(rows)
    requires Load(rows, storeId, slot) <= capacity
    ensures Load(Swept(rows, now), storeId, slot) <= capacity
  {
    LoadAfterSweep(rows, now, storeId, slot);
  }

  // ---------------------------------------------------------------------------
  // Cancellation
  // ---------------------------------------------------------------------------

  /** Cancelling a row frees exactly the seats it held: its count if it was CONFIRMED for that slot. */
  lemma CancelFreesSeats(rows: seq<Booking>, i: nat, storeId: string, slot: Time)
    requires i < |rows|
    ensures Load(rows[i := rows[i].(state := Canceled)], storeId, slot)
         == Load(rows, storeId, slot) - Held(rows[i], storeId, slot)
  {
    LoadUpdate(rows, i, rows[i].(state := Canceled), storeId, slot);
  }

  /** With a non-negative party size, cancelling never pushes a slot over a capacity it was within. */
  lemma CancelKeepsCapacity(rows: seq<Booking>, i: nat, storeId: string, slot: Time, capacity: int)
    requires i < |rows| && rows[i].count >= 0
    requires Load(rows, storeId, slot) <= capacity
    ensures Load(rows[i := rows[i].(state := Canceled)], storeId, slot) <= capacity
  {
    CancelFreesSeats(rows, i, storeId, slot);
  }

  // ---------------------------------------------------------------------------
  // The ledger object
  // ---------------------------------------------------------------------------

  /** The BOOKING table and the rows present in the BOOKING_STATE_CODE table. */
  class Ledger {
    var rows: seq<Booking>
    const stateRows: set<State>

    /** Every row fits its columns and references an existing state-code row. */
    ghost predicate Valid()
      reads this
    {
      forall i :: 0 <= i < |rows| ==> FitsColumns(rows[i]) && rows[i].state in stateRows
    }

    constructor (stateRows: set<State>)
      ensures Valid() && rows == [] && this.stateRows == stateRows
    {
      rows := [];
      this.stateRows := stateRows;
    }

    /**
     * save with an identity column: the row gets the next booking number,
     * which no earlier row has; a row too long for its columns is refused.
     */
    method Save(b: Booking) returns (r: Result<nat, Error>)
      requires Valid() && b.state in stateRows
      modifies this
      ensures Valid()
      ensures r.Success? <==> FitsColumns(b)
      ensures r.Success? ==> r.value == |old(rows)| + 1 && rows == old(rows) + [b]
      ensures r.Failure? ==> r.error == ColumnTooLong && rows == old(rows)
    {
      if !FitsColumns(b) {
        return Failure(ColumnTooLong);
      }
      rows := rows + [b];
      r := Success(|rows|);
    }

    /**
     * The admission rule both makeBooking copies share: refuse when the
     * remaining seats are fewer than the party size, otherwise look up state
     * code 0, build a CONFIRMED row from the request's fields and save it.
     */
    method Admit(bookingDate: Time, userId: string, storeId: string, count: int, seats: int)
      returns (r: Result<nat, Error>)
      requires Valid()
      modifies this
      ensures Valid()
      ensures r == AdmitOutcome(old(rows), stateRows, Candidate(bookingDate, userId, storeId, count), seats)
      ensures r.Success? ==> rows == old(rows) + [Candidate(bookingDate, userId, storeId, count)]
      ensures r.Success? ==> Load(rows, storeId, bookingDate) <= seats
      ensures r.Failure? ==> rows == old(rows)
    {
      if seats - Load(rows, storeId, bookingDate) < count {
        return Failure(CapacityExceeded);
      }
      if Confirmed !in stateRows {
        return Failure(StateCodeNotFound(Code(Confirmed)));
      }
      var booking := Booking(bookingDate, userId, storeId, count, Confirmed);
      r := Save(booking);
    }

    /**
     * cancelBooking: not-found for an unknown number; otherwise look up state
     * code 1 and overwrite that row's state, whatever its state or slot.
     */
    method CancelBooking(bookingNum: int) returns (err: Option<Error>)
      requires Valid()
      modifies this
      ensures Valid()
      ensures !(1 <= bookingNum <= |old(rows)|) ==> err == Some(BookingNotFound) && rows == old(rows)
      ensures 1 <= bookingNum <= |old(rows)| && Canceled !in stateRows ==>
        err == Some(StateCodeNotFound(1)) && rows == old(rows)
      ensures 1 <= bookingNum <= |old(rows)| && Canceled in stateRows ==>
        err == None && rows == old(rows)[bookingNum - 1 := old(rows)[bookingNum - 1].(state := Canceled)]
    {
      if !(1 <= bookingNum <= |rows|) {
        return Some(BookingNotFound);
      }
      if Canceled !in stateRows {
        return Some(StateCodeNotFound(Code(Canceled)));
      }
      var i := bookingNum - 1;
      rows := rows[i := rows[i].(state := Canceled)];
      err := None;
    }

    /**
     * updateBookingState(now): fetch the due rows; if there are none, stop;
     * otherwise look up state code 2 and set it on each fetched row.
     */
    method UpdateBookingState(now: Time) returns (err: Option<Error>)
      requires Valid()
      modifies this
      ensures Valid()
      ensures err.Some? <==>
        Completed !in stateRows && exists i :: 0 <= i < |old(rows)| && Due(old(rows)[i], now)
      ensures err.Some? ==> err.value == StateCodeNotFound(2) && rows == old(rows)
      ensures err.None? ==> rows == Swept(old(rows), now)
    {
      var due := DueBelow(rows, now, |rows|);
      if |due| == 0 {
        assert forall i :: 0 <= i < |rows| ==> !Due(rows[i], now);
        SweepIdempotent(rows, now);
        return None;
      }
      if Completed !in stateRows {
        assert Due(rows[due[0]], now);
        return Some(StateCodeNotFound(Code(Completed)));
      }
      ghost var before := rows;
      for j := 0 to |due|
        invariant |rows| == |before|
        invariant forall i :: 0 <= i < |rows| ==>
          rows[i] == if i in due[..j] then before[i].(state := Completed) else before[i]
        invariant Valid()
      {
        var i := due[j];
        rows := rows[i := rows[i].(state := Completed)];
      }
      assert due[..|due|] == due;
      err := None;
    }
  }
}
