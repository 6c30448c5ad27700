/** Orders as the exchange and the order manager exchange them. */
module Orders {
  import opened Wrappers

  datatype Side = Buy | Sell

  datatype State = Pending | Acknowledged | PartiallyFilled | Filled | Cancelling | Cancelled | Rejected

  datatype Request = Request(symbol: string, side: Side, quantity: real, clientOrderId: string)

  datatype Snapshot = Snapshot(
    symbol: string,
    clientOrderId: string,
    exchangeOrderId: int,
    side: Side,
    state: State,
    requested: real,
    executed: real,
    quote: real,
    averageFill: real,
    reason: string)

  const BLANK: Snapshot := Snapshot("", "", 0, Buy, Pending, 0.0, 0.0, 0.0, 0.0, "")

  predicate ConfirmedFill(s: Snapshot) {
    s.state == Filled && s.exchangeOrderId > 0 && s.executed > 0.0
  }

  predicate Terminal(state: State) {
    state == Filled || state == Cancelled || state == Rejected
  }

  /** States the kill switch sends a cancel for. */
  predicate Live(state: State) {
    state == Pending || state == Acknowledged || state == PartiallyFilled
  }

  /** The member of an event whose type is wrong, so that reading it throws. Quantities are read
      with a fallback and never throw. */
  datatype Stage = Whole | AtEvent | AtSymbol | AtOrderId | AtSide | AtStatus | AtReason | AtTime

  /** A user-data event; absent members keep what is already known of the order. */
  datatype Report = Report(
    stage: Stage,
    eventType: string,
    clientOrderId: string,
    symbol: Option<string>,
    exchangeOrderId: Option<int>,
    side: string,
    requested: Option<real>,
    executed: Option<real>,
    quote: Option<real>,
    status: string,
    reason: string)

  /** Only these four statuses resolve an order; unknown ones count as pending. */
  function StateOf(status: string): (state: State)
    ensures Terminal(state) <==> status in {"FILLED", "CANCELED", "EXPIRED", "REJECTED"}
    ensures state == Filled <==> status == "FILLED"
    ensures state == Acknowledged <==> status == "NEW"
    ensures state == PartiallyFilled <==> status == "PARTIALLY_FILLED"
    ensures state == Rejected <==> status == "REJECTED"
    ensures !Terminal(state) && !Live(state) <==> status == "PENDING_CANCEL"
  {
    if status == "NEW" then Acknowledged
    else if status == "PARTIALLY_FILLED" then PartiallyFilled
    else if status == "FILLED" then Filled
    else if status == "PENDING_CANCEL" then Cancelling
    else if status == "CANCELED" || status == "EXPIRED" then Cancelled
    else if status == "REJECTED" then Rejected
    else Pending
  }

  function GetOr<T>(o: Option<T>, default_: T): T {
    match o
    case Some(v) => v
    case None => default_
  }

  predicate IsExecutionReport(e: Report) {
    e.stage != AtEvent && e.eventType == "executionReport" && e.clientOrderId != ""
  }

  /** The order after an execution report. */
  function Updated(known: Snapshot, e: Report): Snapshot {
    var executed, quote := GetOr(e.executed, known.executed), GetOr(e.quote, known.quote);
    Snapshot(
      GetOr(e.symbol, known.symbol),
      e.clientOrderId,
      GetOr(e.exchangeOrderId, known.exchangeOrderId),
      if e.side == "SELL" then Sell else Buy,
      StateOf(e.status),
      GetOr(e.requested, known.requested),
      executed,
      quote,
      if executed > 0.0 then quote / executed else 0.0,
      e.reason)
  }

  /** The tracked order after an execution report that throws at its stage, or not at all:
      the members before the one that throws have been stored. */
  function Received(known: Snapshot, e: Report): Snapshot {
    var u := Updated(known, e);
    match e.stage
    case AtEvent => known
    case AtSymbol => known
    case AtOrderId => known.(symbol := u.symbol, clientOrderId := u.clientOrderId)
    case AtSide => known.(symbol := u.symbol, clientOrderId := u.clientOrderId, exchangeOrderId := u.exchangeOrderId)
    case AtStatus => u.(state := known.state, reason := known.reason)
    case AtReason => u.(reason := known.reason)
    case _ => u
  }

  /** The status is stored before the event throws, if it does. */
  predicate StatusIsRead(stage: Stage) {
    stage == AtReason || stage == AtTime || stage == Whole
  }
}
