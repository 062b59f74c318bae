/**
 * The BOOKING_STATE_CODE lookup table: three rows keyed by an integer code,
 * each with a state name that fits a 10-character column.
 */
module StateCode {
  import opened Wrappers

  /** One value per row of the table: 0 = CONFIRMED, 1 = CANCELED, 2 = COMPLETED. */
  datatype State = Confirmed | Canceled | Completed

  /** Width of the STATE_NAME column. */
  const NameColumnLength := 10

  /** Lookup by primary key: at most one row per code, and only codes 0, 1 and 2 exist. */
  function FromCode(code: int): (r: Option<State>)
    ensures r.Some? <==> 0 <= code <= 2
  {
    if code == 0 then Some(Confirmed)
    else if code == 1 then Some(Canceled)
    else if code == 2 then Some(Completed)
    else None
  }

  /** The primary key of a state's row; looking it up gives the state back. */
  function Code(s: State): (code: int)
    ensures 0 <= code <= 2
    ensures FromCode(code) == Some(s)
  {
    match s
    case Confirmed => 0
    case Canceled => 1
    case Completed => 2
  }

  /** The STATE_NAME of a state's row. */
  function Name(s: State): (name: string)
    ensures 0 < |name| <= NameColumnLength
  {
    match s
    case Confirmed => "CONFIRMED"
    case Canceled => "CANCELED"
    case Completed => "COMPLETED"
  }

  /** Reverse lookup by name; a name outside the table has no row. */
  function FromName(name: string): (r: Option<State>)
    ensures r.Some? <==> name == "CONFIRMED" || name == "CANCELED" || name == "COMPLETED"
  {
    if name == "CONFIRMED" then Some(Confirmed)
    else if name == "CANCELED" then Some(Canceled)
    else if name == "COMPLETED" then Some(Completed)
    else None
  }

  /** Name to state round-trips, so the name column identifies the row. */
  lemma NameRoundTrip(s: State)
    ensures FromName(Name(s)) == Some(s)
  {
  }

  /** Code and name are both injective: the table is a bijection code <-> name. */
  lemma TableIsBijection(s: State, t: State)
    ensures Code(s) == Code(t) <==> s == t
    ensures Name(s) == Name(t) <==> s == t
  {
    NameRoundTrip(s);
    NameRoundTrip(t);
  }

  /** Every code in 0..2 has a row whose code is that code. */
  lemma CodeRoundTrip(code: int)
    requires 0 <= code <= 2
    ensures FromCode(code).Some? && Code(FromCode(code).value) == code
  {
  }
}
