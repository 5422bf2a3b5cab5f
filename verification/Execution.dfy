/**
  The execution engine as a state machine over its atomic operations: submit (behind the
  risk-approved handler, the manual-intent handler and the flatten), cancel, one poll of one
  in-flight order, a whole monitor pass, and the control commands.

  What the outside world answers (a broker accepting or refusing, an account balance, a status
  report, the clock) is a parameter of each operation.  `events`, `calls`, `fillLog` and
  `approved` are logs: no operation branches on them.
 */
module Execution {
  import opened Arithmetic
  import opened Wrappers
  import opened Orders
  import opened Fills
  import opened Router

  datatype Flight = Flight(broker: string, externalId: string)

  datatype Event =
    | CreatedEvent(id: nat)
    | FilledEvent(id: nat, symbol: string, side: string, price: real, quantity: real, clientId: string)
    | RejectedEvent(id: nat, reason: Reason, clientId: string)
    | CancelledEvent(id: nat)

  datatype Reason = NoSafeBroker | BrokerNotFound | LiveBrokerBlocked | InsufficientBuyingPower | SubmitFailed | BrokerRejected

  /** One call of a broker's `submit_order`. */
  datatype BrokerCall = BrokerCall(
    id: nat, broker: Broker, symbol: string, side: string, orderType: string, quantity: real, limitPrice: Option<real>,
    whileHalted: bool, bypass: bool, clientId: Option<string>)

  datatype Engine = Engine(
    brokers: seq<Broker>,
    live: bool,
    book: Book,
    positions: Positions,
    inFlight: map<nat, Flight>,
    processed: set<string>,
    halted: bool,
    // logs
    events: seq<Event>,
    calls: seq<BrokerCall>,
    fillLog: seq<FillRecord>,
    approved: seq<string>)

  function Start(brokers: seq<Broker>, live: bool): Engine {
    Engine(brokers, live, EMPTY, map[], map[], {}, false, [], [], [], [])
  }

  /** What the broker and the clock answer during one `submit_order`. */
  datatype Market = Market(now: int, buyingPower: Option<real>, accepted: Option<string>)

  datatype Request = Request(
    reuse: Option<nat>,
    symbol: string,
    side: string,
    orderType: string,
    quantity: real,
    limitPrice: Option<real>,
    referencePrice: Option<real>,
    clientId: Option<string>,
    bypass: bool)

  /** `order` is the id of the order returned, None when the request was refused or raised. */
  datatype SubmitResult = SubmitResult(engine: Engine, order: Option<nat>)

  function ClientIdOf(s: Engine, id: nat): string {
    if id in s.book.orders && s.book.orders[id].clientId.Some? then s.book.orders[id].clientId.value else ""
  }

  function PublishRejected(s: Engine, id: nat, reason: Reason, now: int): Engine {
    s.(book := StatusUpdated(s.book, id, Rejected, now).book,
       events := s.events + [RejectedEvent(id, reason, ClientIdOf(s, id))],
       inFlight := s.inFlight - {id})
  }

  function EstimatedPrice(o: Order, reference: Option<real>): Option<real> {
    if o.limitPrice.Some? then o.limitPrice else reference
  }

  predicate Unaffordable(o: Order, reference: Option<real>, buyingPower: Option<real>) {
    var price := EstimatedPrice(o, reference);
    o.side == "buy" && price.Some? && price.value > 0.0
    && buyingPower.Some? && o.quantity * price.value > buyingPower.value
  }

  function CallFor(s: Engine, id: nat, broker: Broker, r: Request): BrokerCall
    requires id in s.book.orders
  {
    var o := s.book.orders[id];
    BrokerCall(id, broker, o.symbol, o.side, o.orderType, o.quantity, o.limitPrice, s.halted, r.bypass, o.clientId)
  }

  /** Hand the order to the broker; any failure from here on rejects it. */
  function Place(s: Engine, id: nat, broker: Broker, r: Request, m: Market): Engine
    requires id in s.book.orders
  {
    var called := s.(calls := s.calls + [CallFor(s, id, broker, r)]);
    match m.accepted
    case None => PublishRejected(called, id, SubmitFailed, m.now)
    case Some(externalId) =>
      match StatusUpdated(s.book, id, Orders.Submitted, m.now)
      case Raised(_) => PublishRejected(called, id, SubmitFailed, m.now)
      case Done(book) => called.(book := book, inFlight := s.inFlight[id := Flight(broker.name, externalId)])
  }

  /** The part of `submit_order` from the routing decision on. */
  function Dispatch(s: Engine, id: nat, r: Request, m: Market): Engine
    requires id in s.book.orders
  {
    var o := s.book.orders[id];
    match SelectBroker(s.brokers, s.live, o.symbol)
    case None => PublishRejected(s, id, NoSafeBroker, m.now)
    case Some(name) =>
      match Named(s.brokers, name)
      case None => PublishRejected(s, id, BrokerNotFound, m.now)
      case Some(broker) =>
        if broker.supportsLive && !s.live then PublishRejected(s, id, LiveBrokerBlocked, m.now)
        else if Unaffordable(o, r.referencePrice, m.buyingPower) then
          PublishRejected(s, id, InsufficientBuyingPower, m.now)
        else Place(s, id, broker, r, m)
  }

  function SubmitOrder(s: Engine, r: Request, m: Market): SubmitResult {
    if s.halted && !r.bypass then SubmitResult(s, None)
    else
      match r.reuse
      case None =>
        var id := s.book.nextId;
        var o := NewOrder(r.symbol, r.side, r.orderType, r.quantity, r.limitPrice, r.clientId, m.now);
        var created := s.(book := OrderCreated(s.book, o, m.now), events := s.events + [CreatedEvent(id)]);
        SubmitResult(Dispatch(created, id, r, m), Some(id))
      case Some(id) =>
        if id !in s.book.orders then SubmitResult(s, None)
        else SubmitResult(Dispatch(s.(events := s.events + [CreatedEvent(id)]), id, r, m), Some(id))
  }

  // ---------------------------------------------------------------- handlers

  /** The quantity field as it arrives; a Decimal NaN parses but cannot be compared. */
  datatype Quantity = Unparsable | NotANumber | Number(value: real)

  datatype Intent = Intent(correlationId: string, symbol: string, side: string, orderType: string, quantity: Quantity,
                           limitPrice: Option<real>, referencePrice: Option<real>)

  datatype Verdict = Duplicate | Malformed | Crashes | Submits

  /** What `_handle_risk_approved` decides before its first await. */
  function Judge(processed: set<string>, i: Intent): Verdict {
    if i.correlationId != "" && i.correlationId in processed then Duplicate
    else if i.symbol == "" || i.side == "" || i.quantity.Unparsable? then Malformed
    else if i.quantity.NotANumber? then Crashes
    else if i.quantity.value <= 0.0 then Malformed
    else Submits
  }

  function RequestOf(i: Intent): Request
    requires i.quantity.Number?
  {
    Request(None, i.symbol, i.side, if i.orderType == "" then "market" else i.orderType, i.quantity.value,
            i.limitPrice, i.referencePrice, if i.correlationId == "" then None else Some(i.correlationId), false)
  }

  function HandleRiskApproved(s: Engine, i: Intent, m: Market): Engine {
    if Judge(s.processed, i) != Submits then s
    else
      var noted := s.(processed := if i.correlationId == "" then s.processed else s.processed + {i.correlationId},
                      approved := s.approved + [i.correlationId]);
      SubmitOrder(noted, RequestOf(i), m).engine
  }

  /** Manual intents are not deduplicated. */
  function HandleOrderIntent(s: Engine, i: Intent, m: Market): Engine {
    if Judge({}, i) != Submits then s else SubmitOrder(s, RequestOf(i), m).engine
  }

  // ---------------------------------------------------------------- cancel, poll, flatten

  /** `reply` is the broker's answer to the cancel; None when the call raised. */
  function CancelOrder(s: Engine, id: nat, reply: Option<bool>, now: int): Engine {
    if id !in s.inFlight || Named(s.brokers, s.inFlight[id].broker).None? || reply != Some(true) then s
    else s.(book := StatusUpdated(s.book, id, Cancelled, now).book,
            inFlight := s.inFlight - {id},
            events := s.events + [CancelledEvent(id)])
  }

  datatype Report =
    | PollFailed
    | ReportFilled(quantity: real, price: real)
    | ReportRejected
    | ReportCancelled
    | ReportOther

  /** One turn of the monitor loop; `aborted` when an exception leaves the pass. */
  datatype Polled = Polled(engine: Engine, aborted: bool)

  function ForgetFlight(s: Engine, id: nat): Polled {
    Polled(s.(inFlight := s.inFlight - {id}), id !in s.inFlight)
  }

  function PollOrder(s: Engine, id: nat, flight: Flight, report: Report, now: int): Polled {
    if Named(s.brokers, flight.broker).None? then Polled(s, false)
    else match report
      case PollFailed => Polled(s, false)
      case ReportOther => Polled(s, false)
      case ReportFilled(quantity, price) =>
        if quantity > 0.0 && price > 0.0 then
          match FillRecorded(s.book, id, Fill(price, quantity), now)
          case Raised(book) => Polled(s.(book := book), true)
          case Done(book) =>
            var o := s.book.orders[id];
            var f := FillRecord(id, o.symbol, o.side, price, quantity, 0.0);
            ForgetFlight(s.(book := book, positions := Recorded(s.positions, f), fillLog := s.fillLog + [f],
                            events := s.events + [FilledEvent(id, o.symbol, o.side, price, quantity, ClientIdOf(s, id))]),
                         id)
        else ForgetFlight(s, id)
      case ReportRejected => ForgetFlight(PublishRejected(s, id, BrokerRejected, now), id)
      case ReportCancelled =>
        ForgetFlight(s.(book := StatusUpdated(s.book, id, Cancelled, now).book, events := s.events + [CancelledEvent(id)]), id)
  }

  /** A monitor pass over a snapshot of the in-flight orders; the first abort ends it. */
  function MonitorPass(s: Engine, snapshot: seq<(nat, Flight)>, reports: nat -> Report, now: int): Polled
    decreases |snapshot|
  {
    if snapshot == [] then Polled(s, false)
    else
      var p := PollOrder(s, snapshot[0].0, snapshot[0].1, reports(snapshot[0].0), now);
      if p.aborted then p else MonitorPass(p.engine, snapshot[1..], reports, now)
  }

  function Halt(s: Engine): Engine { s.(halted := true) }

  function Resume(s: Engine): Engine { s.(halted := false) }

  function CancelAll(s: Engine, ids: seq<nat>, replies: nat -> Option<bool>, now: int): Engine
    decreases |ids|
  {
    if ids == [] then s else CancelAll(CancelOrder(s, ids[0], replies(ids[0]), now), ids[1..], replies, now)
  }

  /** A position, the broker that reports holding it, and what the market answers its closing order. */
  datatype HeldPosition = HeldPosition(holder: string, holding: Holding, market: Market)

  function FlattenRequest(h: Holding): Request {
    Request(None, h.symbol, if h.quantity > 0.0 then "sell" else "buy", "market", Abs(h.quantity),
            None, None, None, true)
  }

  function CloseAll(s: Engine, held: seq<HeldPosition>): Engine
    decreases |held|
  {
    if held == [] then s
    else if held[0].holding.quantity == 0.0 then CloseAll(s, held[1..])
    else CloseAll(SubmitOrder(s, FlattenRequest(held[0].holding), held[0].market).engine, held[1..])
  }

  /** The cancellation of an order in flight goes through. */
  predicate Confirmed(s: Engine, id: nat, reply: Option<bool>) {
    id in s.inFlight && Named(s.brokers, s.inFlight[id].broker).Some? && reply == Some(true)
  }

  /** How many cancellations of the list are confirmed. */
  function Cancellations(s: Engine, ids: seq<nat>, replies: nat -> Option<bool>, now: int): nat
    decreases |ids|
  {
    if ids == [] then 0
    else (if Confirmed(s, ids[0], replies(ids[0])) then 1 else 0)
         + Cancellations(CancelOrder(s, ids[0], replies(ids[0]), now), ids[1..], replies, now)
  }

  datatype Flattened = Flattened(symbol: string, side: string, quantity: real)

  /** What the flatten reports: one line for each position it sent an order for. */
  function FlattenedOf(held: seq<HeldPosition>): seq<Flattened> {
    if held == [] then []
    else
      var h := held[|held| - 1].holding;
      FlattenedOf(held[..|held| - 1])
      + if h.quantity == 0.0 then [] else [Flattened(h.symbol, FlattenRequest(h).side, Abs(h.quantity))]
  }

  /** Halt, cancel what is in flight, then close every position the brokers report. */
  function EmergencyFlatten(s: Engine, ids: seq<nat>, replies: nat -> Option<bool>, held: seq<HeldPosition>, now: int): Engine {
    CloseAll(CancelAll(Halt(s), ids, replies, now), held)
  }

  // ---------------------------------------------------------------- runs

  datatype Op =
    | RiskApproved(intent: Intent, market: Market)
    | Manual(intent: Intent, market: Market)
    | Resubmit(request: Request, market: Market)
    | Cancel(id: nat, reply: Option<bool>, now: int)
    | Poll(id: nat, report: Report, now: int)
    | ControlHalt
    | ControlResume
    | Flatten(ids: seq<nat>, replies: nat -> Option<bool>, held: seq<HeldPosition>, now: int)

  function Apply(s: Engine, op: Op): Engine {
    match op
    case RiskApproved(i, m) => HandleRiskApproved(s, i, m)
    case Manual(i, m) => HandleOrderIntent(s, i, m)
    case Resubmit(r, m) => SubmitOrder(s, r, m).engine
    case Cancel(id, reply, now) => CancelOrder(s, id, reply, now)
    case Poll(id, report, now) => if id in s.inFlight then PollOrder(s, id, s.inFlight[id], report, now).engine else s
    case ControlHalt => Halt(s)
    case ControlResume => Resume(s)
    case Flatten(ids, replies, held, now) => EmergencyFlatten(s, ids, replies, held, now)
  }

  function Run(s: Engine, ops: seq<Op>): Engine
    decreases |ops|
  {
    if ops == [] then s else Apply(Run(s, ops[..|ops| - 1]), ops[|ops| - 1])
  }
}
