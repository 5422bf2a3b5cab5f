/** What the execution engine keeps over every run of its operations. */
module ExecutionRuns {
  import opened Wrappers
  import opened Orders
  import opened Fills
  import opened Router
  import opened Execution

  // ---------------------------------------------------------------- the invariant

  /** The fills an append-only log holds for one order. */
  function FillsOf(log: seq<FillRecord>, id: nat): seq<Fill> {
    if log == [] then []
    else
      var last := log[|log| - 1];
      FillsOf(log[..|log| - 1], id) + if last.orderId == id then [Fill(last.price, last.quantity)] else []
  }

  /** Every in-flight order is known, SUBMITTED, and with a broker that is wired. */
  ghost predicate FlightsOk(brokers: seq<Broker>, orders: map<nat, Order>, inFlight: map<nat, Flight>) {
    forall id :: id in inFlight ==>
      && id in orders && orders[id].status == Submitted
      && Named(brokers, inFlight[id].broker).Some?
  }

  predicate CallOk(brokers: seq<Broker>, live: bool, nextId: nat, c: BrokerCall) {
    && (c.whileHalted ==> c.bypass)
    && c.broker in brokers && (c.broker.supportsLive ==> live)
    && c.id < nextId
  }

  ghost predicate CallsOk(brokers: seq<Broker>, live: bool, nextId: nat, calls: seq<BrokerCall>) {
    forall c :: c in calls ==> CallOk(brokers, live, nextId, c)
  }

  predicate DescribesItsOrder(book: Book, f: FillRecord) {
    f.orderId in book.orders ==> f.symbol == book.orders[f.orderId].symbol && f.side == book.orders[f.orderId].side
  }

  /** The order manager's fills and the tracker's positions are two views of one log. */
  ghost predicate LedgersOk(book: Book, positions: Positions, log: seq<FillRecord>) {
    && BookOk(book)
    && positions == Tracked(log)
    && (forall id :: id in book.orders ==> book.fills[id] == FillsOf(log, id))
  }

  ghost predicate LogOk(book: Book, log: seq<FillRecord>) {
    forall f :: f in log ==> f.orderId < book.nextId && DescribesItsOrder(book, f)
  }

  /** No retained order changes what it trades, and new ids are new. */
  ghost predicate SameTerms(book: Book, book': Book) {
    && book.nextId <= book'.nextId
    && (forall id :: id in book'.orders && id < book.nextId ==>
          && id in book.orders && book'.orders[id].symbol == book.orders[id].symbol
          && book'.orders[id].side == book.orders[id].side)
  }

  lemma TermsKeepLog(book: Book, book': Book, log: seq<FillRecord>)
    requires LogOk(book, log) && SameTerms(book, book')
    ensures LogOk(book', log)
  {
    forall f | f in log ensures f.orderId < book'.nextId && DescribesItsOrder(book', f) {
      assert DescribesItsOrder(book, f);
    }
  }

  predicate ReasonPossible(e: Event) {
    e.RejectedEvent? ==> e.reason != BrokerNotFound && e.reason != LiveBrokerBlocked
  }

  ghost predicate ReasonsOk(events: seq<Event>) {
    forall e :: e in events ==> ReasonPossible(e)
  }

  ghost predicate Inv(s: Engine) {
    && DistinctNames(s.brokers)
    && LedgersOk(s.book, s.positions, s.fillLog)
    && LogOk(s.book, s.fillLog)
    && FlightsOk(s.brokers, s.book.orders, s.inFlight)
    && CallsOk(s.brokers, s.live, s.book.nextId, s.calls)
    && ReasonsOk(s.events)
  }

  lemma {:induction false} NoFillsForNewId(log: seq<FillRecord>, id: nat)
    requires forall f :: f in log ==> f.orderId < id
    ensures FillsOf(log, id) == []
  {
    if log == [] {
    } else {
      NoFillsForNewId(log[..|log| - 1], id);
    }
  }

  lemma StatusKeepsLedgers(book: Book, positions: Positions, log: seq<FillRecord>, id: nat, status: Status, now: int)
    requires LedgersOk(book, positions, log)
    ensures LedgersOk(StatusUpdated(book, id, status, now).book, positions, log)
    ensures StatusUpdated(book, id, status, now).book.nextId == book.nextId
    ensures SameTerms(book, StatusUpdated(book, id, status, now).book)
  {
    ApplyKeepsBook(book, DoStatus(id, status), now);
  }

  /** Taking an order out of flight while its status moves. */
  lemma LandKeepsFlights(brokers: seq<Broker>, book: Book, inFlight: map<nat, Flight>, id: nat, status: Status, now: int)
    requires FlightsOk(brokers, book.orders, inFlight)
    ensures FlightsOk(brokers, StatusUpdated(book, id, status, now).book.orders, inFlight - {id})
  {
  }

  lemma RejectKeepsInv(s: Engine, id: nat, reason: Reason, now: int)
    requires Inv(s) && reason != BrokerNotFound && reason != LiveBrokerBlocked
    ensures Inv(PublishRejected(s, id, reason, now))
  {
    hide WithFills, Recorded, Tracked, TotalQuantity, TotalCost, FillsOf;
    StatusKeepsLedgers(s.book, s.positions, s.fillLog, id, Rejected, now);
    TermsKeepLog(s.book, StatusUpdated(s.book, id, Rejected, now).book, s.fillLog);
    LandKeepsFlights(s.brokers, s.book, s.inFlight, id, Rejected, now);
  }

  lemma FlyKeepsInv(s: Engine, id: nat, flight: Flight, now: int)
    requires Inv(s) && StatusUpdated(s.book, id, Submitted, now).Done?
    requires Named(s.brokers, flight.broker).Some?
    ensures Inv(s.(book := StatusUpdated(s.book, id, Submitted, now).book, inFlight := s.inFlight[id := flight]))
  {
    hide WithFills, Recorded, Tracked, TotalQuantity, TotalCost, FillsOf;
    StatusKeepsLedgers(s.book, s.positions, s.fillLog, id, Submitted, now);
    TermsKeepLog(s.book, StatusUpdated(s.book, id, Submitted, now).book, s.fillLog);
  }

  lemma PlaceKeepsInv(s: Engine, id: nat, broker: Broker, r: Request, m: Market)
    requires Inv(s) && id in s.book.orders && (s.halted ==> r.bypass)
    requires broker in s.brokers && (broker.supportsLive ==> s.live) && Named(s.brokers, broker.name).Some?
    ensures Inv(Place(s, id, broker, r, m))
  {
    hide WithFills, Recorded, Tracked, TotalQuantity, TotalCost, FillsOf, LogOk, LedgersOk, FlightsOk, ReasonsOk, DistinctNames;
    var called := s.(calls := s.calls + [CallFor(s, id, broker, r)]);
    assert Inv(called) by { BookOf(s); }
    if m.accepted.None? || StatusUpdated(called.book, id, Submitted, m.now).Raised? {
      RejectKeepsInv(called, id, SubmitFailed, m.now);
    } else {
      FlyKeepsInv(called, id, Flight(broker.name, m.accepted.value), m.now);
    }
  }

  lemma DispatchKeepsInv(s: Engine, id: nat, r: Request, m: Market)
    requires Inv(s) && id in s.book.orders && (s.halted ==> r.bypass)
    ensures Inv(Dispatch(s, id, r, m))
  {
    hide WithFills, Recorded, Tracked, TotalQuantity, TotalCost, FillsOf;
    var o := s.book.orders[id];
    SelectionIsSafe(s.brokers, s.live, o.symbol);
    match SelectBroker(s.brokers, s.live, o.symbol)
    case None => RejectKeepsInv(s, id, NoSafeBroker, m.now);
    case Some(name) =>
      var broker := Named(s.brokers, name).value;
      if Unaffordable(o, r.referencePrice, m.buyingPower) {
        RejectKeepsInv(s, id, InsufficientBuyingPower, m.now);
      } else {
        NameFindsItsBroker(s.brokers, broker);
        PlaceKeepsInv(s, id, broker, r, m);
      }
  }

  function WithNewOrder(s: Engine, r: Request, now: int): Engine {
    var o := NewOrder(r.symbol, r.side, r.orderType, r.quantity, r.limitPrice, r.clientId, now);
    s.(book := OrderCreated(s.book, o, now), events := s.events + [CreatedEvent(s.book.nextId)])
  }

  lemma NewOrderKeepsLedgers(book: Book, positions: Positions, log: seq<FillRecord>, o: Order, now: int)
    requires LedgersOk(book, positions, log) && LogOk(book, log) && Legal(DoCreate(o))
    ensures LedgersOk(OrderCreated(book, o, now), positions, log)
    ensures LogOk(OrderCreated(book, o, now), log)
  {
    hide WithFills, Tracked, TotalQuantity, TotalCost, OrderCreated;
    NoFillsForNewId(log, book.nextId);
    CreateKeepsBook(book, o, now);
    TermsKeepLog(book, OrderCreated(book, o, now), log);
  }

  lemma NewOrderKeepsInv(s: Engine, r: Request, now: int)
    requires Inv(s)
    ensures Inv(WithNewOrder(s, r, now))
  {
    hide LedgersOk, LogOk, OrderCreated, BookOk, WithFills;
    var o := NewOrder(r.symbol, r.side, r.orderType, r.quantity, r.limitPrice, r.clientId, now);
    NewOrderKeepsLedgers(s.book, s.positions, s.fillLog, o, now);
    BookOf(s);
    CreateKeepsBook(s.book, o, now);
  }

  lemma BookOf(s: Engine)
    requires Inv(s)
    ensures BookOk(s.book)
  {
  }

  lemma SubmitKeepsInv(s: Engine, r: Request, m: Market)
    requires Inv(s)
    ensures Inv(SubmitOrder(s, r, m).engine)
  {
    if !(s.halted && !r.bypass) {
      match r.reuse
      case None =>
        NewOrderKeepsInv(s, r, m.now);
        DispatchKeepsInv(WithNewOrder(s, r, m.now), s.book.nextId, r, m);
      case Some(id) =>
        if id in s.book.orders {
          DispatchKeepsInv(s.(events := s.events + [CreatedEvent(id)]), id, r, m);
        }
    }
  }

  lemma CancelKeepsInv(s: Engine, id: nat, reply: Option<bool>, now: int)
    requires Inv(s)
    ensures Inv(CancelOrder(s, id, reply, now))
  {
    hide WithFills, Recorded, Tracked, TotalQuantity, TotalCost, FillsOf;
    StatusKeepsLedgers(s.book, s.positions, s.fillLog, id, Cancelled, now);
    TermsKeepLog(s.book, StatusUpdated(s.book, id, Cancelled, now).book, s.fillLog);
    LandKeepsFlights(s.brokers, s.book, s.inFlight, id, Cancelled, now);
  }

  lemma FillKeepsLedgers(book: Book, positions: Positions, log: seq<FillRecord>, f: FillRecord, now: int)
    requires LedgersOk(book, positions, log) && f.orderId in book.orders
    ensures LedgersOk(FillRecorded(book, f.orderId, Fill(f.price, f.quantity), now).book, Recorded(positions, f), log + [f])
    ensures FillRecorded(book, f.orderId, Fill(f.price, f.quantity), now).book.nextId == book.nextId
  {
    hide WithFills, Recorded, TotalQuantity, TotalCost, FillRecorded;
    var after := log + [f];
    assert after[..|after| - 1] == log;
    FillKeepsBook(book, f.orderId, Fill(f.price, f.quantity), now);
    FillFrame(book, f.orderId, Fill(f.price, f.quantity), now);
  }

  lemma FillKeepsLog(book: Book, log: seq<FillRecord>, f: FillRecord, now: int)
    requires LogOk(book, log) && BookOk(book) && f.orderId in book.orders && DescribesItsOrder(book, f)
    ensures LogOk(FillRecorded(book, f.orderId, Fill(f.price, f.quantity), now).book, log + [f])
  {
    var book' := FillRecorded(book, f.orderId, Fill(f.price, f.quantity), now).book;
    FillKeepsTerms(book, f.orderId, Fill(f.price, f.quantity), now);
    TermsKeepLog(book, book', log);
    TermsKeepLog(book, book', [f]);
  }

  lemma FillKeepsTerms(book: Book, id: nat, f: Fill, now: int)
    ensures SameTerms(book, FillRecorded(book, id, f, now).book)
  {
  }

  lemma PollFilledKeepsInv(s: Engine, id: nat, quantity: real, price: real, now: int)
    requires Inv(s) && id in s.inFlight
    ensures Inv(PollOrder(s, id, s.inFlight[id], ReportFilled(quantity, price), now).engine)
  {
    hide WithFills, Recorded, Tracked, TotalQuantity, TotalCost, FillsOf, FillRecorded;
    if quantity > 0.0 && price > 0.0 {
      var o := s.book.orders[id];
      FillKeepsLedgers(s.book, s.positions, s.fillLog, FillRecord(id, o.symbol, o.side, price, quantity, 0.0), now);
      FillKeepsLog(s.book, s.fillLog, FillRecord(id, o.symbol, o.side, price, quantity, 0.0), now);
      SubmittedTakesFills(s.book, id, Fill(price, quantity), now);
    }
  }

  lemma PollRejectedKeepsInv(s: Engine, id: nat, now: int)
    requires Inv(s) && id in s.inFlight
    ensures Inv(PollOrder(s, id, s.inFlight[id], ReportRejected, now).engine)
  {
    hide Inv;
    RejectKeepsInv(s, id, BrokerRejected, now);
    var s' := PublishRejected(s, id, BrokerRejected, now);
    assert s'.(inFlight := s'.inFlight - {id}) == s' by {
      assert s'.inFlight - {id} == s'.inFlight;
    }
  }

  lemma PollCancelledKeepsInv(s: Engine, id: nat, now: int)
    requires Inv(s) && id in s.inFlight
    ensures Inv(PollOrder(s, id, s.inFlight[id], ReportCancelled, now).engine)
  {
    hide WithFills, Recorded, Tracked, TotalQuantity, TotalCost, FillsOf, FillRecorded;
    StatusKeepsLedgers(s.book, s.positions, s.fillLog, id, Cancelled, now);
    TermsKeepLog(s.book, StatusUpdated(s.book, id, Cancelled, now).book, s.fillLog);
    LandKeepsFlights(s.brokers, s.book, s.inFlight, id, Cancelled, now);
  }

  lemma PollKeepsInv(s: Engine, id: nat, report: Report, now: int)
    requires Inv(s) && id in s.inFlight
    ensures Inv(PollOrder(s, id, s.inFlight[id], report, now).engine)
  {
    hide Inv;
    match report
    case PollFailed =>
    case ReportOther =>
    case ReportRejected => PollRejectedKeepsInv(s, id, now);
    case ReportCancelled => PollCancelledKeepsInv(s, id, now);
    case ReportFilled(quantity, price) => PollFilledKeepsInv(s, id, quantity, price, now);
  }

  lemma {:induction false} CancelAllKeepsInv(s: Engine, ids: seq<nat>, replies: nat -> Option<bool>, now: int)
    requires Inv(s)
    decreases |ids|
    ensures Inv(CancelAll(s, ids, replies, now))
  {
    if ids == [] {
    } else {
      CancelKeepsInv(s, ids[0], replies(ids[0]), now);
      CancelAllKeepsInv(CancelOrder(s, ids[0], replies(ids[0]), now), ids[1..], replies, now);
    }
  }

  lemma {:induction false} CloseAllKeepsInv(s: Engine, held: seq<HeldPosition>)
    requires Inv(s)
    decreases |held|
    ensures Inv(CloseAll(s, held))
  {
    if held == [] {
    } else if held[0].holding.quantity == 0.0 {
      CloseAllKeepsInv(s, held[1..]);
    } else {
      SubmitKeepsInv(s, FlattenRequest(held[0].holding), held[0].market);
      CloseAllKeepsInv(SubmitOrder(s, FlattenRequest(held[0].holding), held[0].market).engine, held[1..]);
    }
  }

  lemma ApplyKeepsInv(s: Engine, op: Op)
    requires Inv(s)
    ensures Inv(Apply(s, op))
  {
    match op
    case RiskApproved(i, m) =>
      if Judge(s.processed, i) == Submits {
        var noted := s.(processed := if i.correlationId == "" then s.processed else s.processed + {i.correlationId},
                        approved := s.approved + [i.correlationId]);
        SubmitKeepsInv(noted, RequestOf(i), m);
      }
    case Manual(i, m) =>
      if Judge({}, i) == Submits { SubmitKeepsInv(s, RequestOf(i), m); }
    case Resubmit(r, m) => SubmitKeepsInv(s, r, m);
    case Cancel(id, reply, now) => CancelKeepsInv(s, id, reply, now);
    case Poll(id, report, now) => if id in s.inFlight { PollKeepsInv(s, id, report, now); }
    case ControlHalt =>
    case ControlResume =>
    case Flatten(ids, replies, held, now) =>
      CancelAllKeepsInv(Halt(s), ids, replies, now);
      CloseAllKeepsInv(CancelAll(Halt(s), ids, replies, now), held);
  }

  lemma {:induction false} RunKeepsInv(brokers: seq<Broker>, live: bool, ops: seq<Op>)
    requires DistinctNames(brokers)
    ensures Inv(Run(Start(brokers, live), ops))
  {
    if ops == [] {
    } else {
      RunKeepsInv(brokers, live, ops[..|ops| - 1]);
      ApplyKeepsInv(Run(Start(brokers, live), ops[..|ops| - 1]), ops[|ops| - 1]);
    }
  }

  // ---------------------------------------------------------------- one Created, one ending

  predicate Creates(e: Event, id: nat) {
    e == CreatedEvent(id)
  }

  predicate Ends(e: Event, id: nat) {
    !e.CreatedEvent? && e.id == id
  }

  function CreatedCount(events: seq<Event>, id: nat): nat {
    if events == [] then 0
    else CreatedCount(events[..|events| - 1], id) + if Creates(events[|events| - 1], id) then 1 else 0
  }

  function EndCount(events: seq<Event>, id: nat): nat {
    if events == [] then 0
    else EndCount(events[..|events| - 1], id) + if Ends(events[|events| - 1], id) then 1 else 0
  }

  lemma Counted(events: seq<Event>, e: Event)
    ensures forall id: nat :: CreatedCount(events + [e], id) == CreatedCount(events, id) + if Creates(e, id) then 1 else 0
    ensures forall id: nat :: EndCount(events + [e], id) == EndCount(events, id) + if Ends(e, id) then 1 else 0
  {
    var after := events + [e];
    assert after[..|after| - 1] == events;
  }

  /** Every order ever created announced itself once and has ended at most once; an order in
      flight has not ended. */
  ghost predicate EventsOk(events: seq<Event>, nextId: nat, inFlight: set<nat>) {
    && (forall id: nat :: CreatedCount(events, id) == if id < nextId then 1 else 0)
    && (forall id: nat :: EndCount(events, id) <= if id in inFlight || id >= nextId then 0 else 1)
    && (forall id :: id in inFlight ==> id < nextId)
  }

  /** An order still in flight, or just created, ends. */
  lemma EndKeepsEvents(events: seq<Event>, nextId: nat, inFlight: set<nat>, e: Event)
    requires EventsOk(events, nextId, inFlight + {e.id}) && !e.CreatedEvent?
    ensures EventsOk(events + [e], nextId, inFlight - {e.id})
  {
    Counted(events, e);
    assert e.id in inFlight + {e.id};
  }

  lemma CreateKeepsEvents(events: seq<Event>, nextId: nat, inFlight: set<nat>)
    requires EventsOk(events, nextId, inFlight)
    ensures EventsOk(events + [CreatedEvent(nextId)], nextId + 1, inFlight + {nextId})
  {
    Counted(events, CreatedEvent(nextId));
  }

  ghost predicate Events(s: Engine) {
    EventsOk(s.events, s.book.nextId, s.inFlight.Keys)
  }

  lemma RejectKeepsEvents(s: Engine, id: nat, reason: Reason, now: int)
    requires EventsOk(s.events, s.book.nextId, s.inFlight.Keys + {id})
    ensures Events(PublishRejected(s, id, reason, now))
  {
    EndKeepsEvents(s.events, s.book.nextId, s.inFlight.Keys, RejectedEvent(id, reason, ClientIdOf(s, id)));
    assert (s.inFlight - {id}).Keys == s.inFlight.Keys - {id};
  }

  lemma DispatchKeepsEvents(s: Engine, id: nat, r: Request, m: Market)
    requires id in s.book.orders && EventsOk(s.events, s.book.nextId, s.inFlight.Keys + {id})
    ensures Events(Dispatch(s, id, r, m))
  {
    hide EventsOk;
    var o := s.book.orders[id];
    match SelectBroker(s.brokers, s.live, o.symbol)
    case None => RejectKeepsEvents(s, id, NoSafeBroker, m.now);
    case Some(name) =>
      match Named(s.brokers, name)
      case None => RejectKeepsEvents(s, id, BrokerNotFound, m.now);
      case Some(broker) =>
        if broker.supportsLive && !s.live {
          RejectKeepsEvents(s, id, LiveBrokerBlocked, m.now);
        } else if Unaffordable(o, r.referencePrice, m.buyingPower) {
          RejectKeepsEvents(s, id, InsufficientBuyingPower, m.now);
        } else {
          var called := s.(calls := s.calls + [CallFor(s, id, broker, r)]);
          if m.accepted.None? || StatusUpdated(called.book, id, Submitted, m.now).Raised? {
            RejectKeepsEvents(called, id, SubmitFailed, m.now);
          } else {
            assert s.inFlight[id := Flight(broker.name, m.accepted.value)].Keys == s.inFlight.Keys + {id};
          }
        }
  }

  lemma SubmitKeepsEvents(s: Engine, r: Request, m: Market)
    requires Events(s) && r.reuse.None?
    ensures Events(SubmitOrder(s, r, m).engine)
  {
    hide EventsOk;
    if !(s.halted && !r.bypass) {
      CreateKeepsEvents(s.events, s.book.nextId, s.inFlight.Keys);
      DispatchKeepsEvents(WithNewOrder(s, r, m.now), s.book.nextId, r, m);
    }
  }

  lemma CancelKeepsEvents(s: Engine, id: nat, reply: Option<bool>, now: int)
    requires Events(s)
    ensures Events(CancelOrder(s, id, reply, now))
  {
    if CancelOrder(s, id, reply, now) != s {
      assert s.inFlight.Keys + {id} == s.inFlight.Keys;
      EndKeepsEvents(s.events, s.book.nextId, s.inFlight.Keys, CancelledEvent(id));
      assert (s.inFlight - {id}).Keys == s.inFlight.Keys - {id};
    }
  }

  lemma PollFilledKeepsEvents(s: Engine, id: nat, quantity: real, price: real, now: int)
    requires Inv(s) && Events(s) && id in s.inFlight
    ensures Events(PollOrder(s, id, s.inFlight[id], ReportFilled(quantity, price), now).engine)
  {
    hide FillRecorded, CallsOk, ReasonsOk, Tracked, FillsOf, WithFills, Recorded, EventsOk;
    ShrinkKeepsEvents(s.events, s.book.nextId, s.inFlight.Keys, id);
    assert (s.inFlight - {id}).Keys == s.inFlight.Keys - {id};
    if quantity > 0.0 && price > 0.0 {
      SubmittedTakesFills(s.book, id, Fill(price, quantity), now);
      var o := s.book.orders[id];
      assert s.inFlight.Keys + {id} == s.inFlight.Keys;
      EndKeepsEvents(s.events, s.book.nextId, s.inFlight.Keys,
                     FilledEvent(id, o.symbol, o.side, price, quantity, ClientIdOf(s, id)));
    }
  }

  lemma ShrinkKeepsEvents(events: seq<Event>, nextId: nat, inFlight: set<nat>, id: nat)
    requires EventsOk(events, nextId, inFlight)
    ensures EventsOk(events, nextId, inFlight - {id})
  {
  }

  lemma PollKeepsEvents(s: Engine, id: nat, report: Report, now: int)
    requires Inv(s) && Events(s) && id in s.inFlight
    ensures Events(PollOrder(s, id, s.inFlight[id], report, now).engine)
  {
    hide EventsOk, LedgersOk, CallsOk, ReasonsOk;
    assert s.inFlight.Keys + {id} == s.inFlight.Keys;
    assert (s.inFlight - {id}).Keys == s.inFlight.Keys - {id};
    match report
    case PollFailed =>
    case ReportOther =>
    case ReportRejected =>
      RejectKeepsEvents(s, id, BrokerRejected, now);
      var s' := PublishRejected(s, id, BrokerRejected, now);
      assert s'.inFlight - {id} == s'.inFlight;
    case ReportCancelled =>
      EndKeepsEvents(s.events, s.book.nextId, s.inFlight.Keys, CancelledEvent(id));
    case ReportFilled(quantity, price) => PollFilledKeepsEvents(s, id, quantity, price, now);
  }

  lemma {:induction false} CancelAllKeepsEvents(s: Engine, ids: seq<nat>, replies: nat -> Option<bool>, now: int)
    requires Events(s)
    ensures Events(CancelAll(s, ids, replies, now))
    decreases |ids|
  {
    hide Events, CancelOrder;
    if ids == [] {
    } else {
      CancelKeepsEvents(s, ids[0], replies(ids[0]), now);
      CancelAllKeepsEvents(CancelOrder(s, ids[0], replies(ids[0]), now), ids[1..], replies, now);
    }
  }

  lemma {:induction false} CloseAllKeepsEvents(s: Engine, held: seq<HeldPosition>)
    requires Events(s)
    ensures Events(CloseAll(s, held))
    decreases |held|
  {
    hide Events, SubmitOrder;
    if held == [] {
    } else if held[0].holding.quantity == 0.0 {
      CloseAllKeepsEvents(s, held[1..]);
    } else {
      SubmitKeepsEvents(s, FlattenRequest(held[0].holding), held[0].market);
      CloseAllKeepsEvents(SubmitOrder(s, FlattenRequest(held[0].holding), held[0].market).engine, held[1..]);
    }
  }

  predicate Fresh(op: Op) {
    op.Resubmit? ==> op.request.reuse.None?
  }

  lemma ApplyKeepsEvents(s: Engine, op: Op)
    requires Inv(s) && Events(s) && Fresh(op)
    ensures Events(Apply(s, op))
  {
    hide Inv, EventsOk;
    match op
    case RiskApproved(i, m) =>
      if Judge(s.processed, i) == Submits {
        var noted := s.(processed := if i.correlationId == "" then s.processed else s.processed + {i.correlationId},
                        approved := s.approved + [i.correlationId]);
        SubmitKeepsEvents(noted, RequestOf(i), m);
      }
    case Manual(i, m) =>
      if Judge({}, i) == Submits { SubmitKeepsEvents(s, RequestOf(i), m); }
    case Resubmit(r, m) => SubmitKeepsEvents(s, r, m);
    case Cancel(id, reply, now) => CancelKeepsEvents(s, id, reply, now);
    case Poll(id, report, now) => if id in s.inFlight { PollKeepsEvents(s, id, report, now); }
    case ControlHalt =>
    case ControlResume =>
    case Flatten(ids, replies, held, now) =>
      CancelAllKeepsEvents(Halt(s), ids, replies, now);
      CloseAllKeepsEvents(CancelAll(Halt(s), ids, replies, now), held);
  }

  /** Over every run in which no old order id is submitted again: each order created emits
      Created exactly once and at most one of Filled, Rejected and Cancelled, and none of
      these while it is in flight. */
  lemma {:induction false} RunKeepsEvents(brokers: seq<Broker>, live: bool, ops: seq<Op>)
    requires DistinctNames(brokers) && forall i :: 0 <= i < |ops| ==> Fresh(ops[i])
    ensures Events(Run(Start(brokers, live), ops))
  {
    if ops == [] {
    } else {
      var before := ops[..|ops| - 1];
      RunKeepsEvents(brokers, live, before);
      RunKeepsInv(brokers, live, before);
      ApplyKeepsEvents(Run(Start(brokers, live), before), ops[|ops| - 1]);
    }
  }

  lemma RejectCreatesNothing(s: Engine, id: nat, reason: Reason, now: int)
    ensures forall d: nat :: CreatedCount(PublishRejected(s, id, reason, now).events, d) == CreatedCount(s.events, d)
  {
    Counted(s.events, RejectedEvent(id, reason, ClientIdOf(s, id)));
  }

  lemma DispatchCreatesNothing(s: Engine, id: nat, r: Request, m: Market)
    requires id in s.book.orders
    ensures forall d: nat :: CreatedCount(Dispatch(s, id, r, m).events, d) == CreatedCount(s.events, d)
  {
    hide StatusUpdated, Unaffordable, PublishRejected, CreatedCount;
    var called := s;
    var choice := SelectBroker(s.brokers, s.live, s.book.orders[id].symbol);
    if choice.Some? && Named(s.brokers, choice.value).Some? {
      called := s.(calls := s.calls + [CallFor(s, id, Named(s.brokers, choice.value).value, r)]);
    }
    RejectCreatesNothing(s, id, NoSafeBroker, m.now);
    RejectCreatesNothing(s, id, BrokerNotFound, m.now);
    RejectCreatesNothing(s, id, LiveBrokerBlocked, m.now);
    RejectCreatesNothing(s, id, InsufficientBuyingPower, m.now);
    RejectCreatesNothing(called, id, SubmitFailed, m.now);
  }

  /** Submitting a known id again breaks that: whatever the state, Created is emitted twice. */
  lemma ReuseAnnouncesTwice(s: Engine, r: Request, m: Market)
    requires Inv(s) && Events(s) && r.reuse.Some? && r.reuse.value in s.book.orders && (s.halted ==> r.bypass)
    ensures CreatedCount(SubmitOrder(s, r, m).engine.events, r.reuse.value) == 2
  {
    hide CallsOk, ReasonsOk, FlightsOk, WithFills, Tracked, FillsOf, Dispatch;
    var id := r.reuse.value;
    Counted(s.events, CreatedEvent(id));
    assert CreatedCount(s.events, id) == 1;
    DispatchCreatesNothing(s.(events := s.events + [CreatedEvent(id)]), id, r, m);
  }

  // ---------------------------------------------------------------- what a run guarantees

  /** No broker is called with an order while the engine is halted unless the order bypasses
      the halt, and no broker that can place real-money orders is called outside live mode. */
  lemma CallsAreSafe(brokers: seq<Broker>, live: bool, ops: seq<Op>, c: BrokerCall)
    requires DistinctNames(brokers) && c in Run(Start(brokers, live), ops).calls
    ensures c.whileHalted ==> c.bypass
    ensures c.broker.supportsLive ==> Run(Start(brokers, live), ops).live
    ensures c.broker in Run(Start(brokers, live), ops).brokers
  {
    RunKeepsInv(brokers, live, ops);
  }

  /** A cancellation goes through exactly when the order is in flight and its broker confirms:
      the order leaves flight, ends CANCELLED and is announced so once. Otherwise nothing changes. */
  lemma CancelsExactlyWhenConfirmed(s: Engine, id: nat, reply: Option<bool>, now: int)
    requires Inv(s)
    ensures var s' := CancelOrder(s, id, reply, now);
            if id in s.inFlight && reply == Some(true)
            then
              && s'.inFlight == s.inFlight - {id} && s'.events == s.events + [CancelledEvent(id)]
              && id in s'.book.orders && s'.book.orders[id] == s.book.orders[id].(status := Cancelled, updatedAt := now)
              && s' == s.(book := s.book.(orders := s.book.orders[id := s'.book.orders[id]]), inFlight := s'.inFlight, events := s'.events)
            else s' == s
  {
    hide LedgersOk, LogOk, CallsOk, ReasonsOk;
  }

  /** Whatever is in flight is a retained order in status SUBMITTED, held by a known broker. */
  lemma InFlightIsSubmitted(brokers: seq<Broker>, live: bool, ops: seq<Op>, id: nat)
    requires DistinctNames(brokers) && id in Run(Start(brokers, live), ops).inFlight
    ensures var s := Run(Start(brokers, live), ops);
            && id in s.book.orders && s.book.orders[id].status == Submitted
            && Named(s.brokers, s.inFlight[id].broker).Some?
  {
    RunKeepsInv(brokers, live, ops);
  }

  /** The order manager's fills and the fill tracker's positions agree on every fill ever
      recorded: the tracked quantity of a symbol is the signed sum of the log, a retained order
      holds exactly the log's fills of that order, and they all trade its symbol and side. */
  lemma LedgersAgree(brokers: seq<Broker>, live: bool, ops: seq<Op>, symbol: string, id: nat)
    requires DistinctNames(brokers)
    ensures var s := Run(Start(brokers, live), ops);
            PositionOf(s.positions, symbol).quantity == NetQuantity(s.fillLog, symbol)
    ensures var s := Run(Start(brokers, live), ops);
            id in s.book.orders ==>
              && id in s.book.fills && s.book.fills[id] == FillsOf(s.fillLog, id)
              && s.book.orders[id].filled == TotalQuantity(FillsOf(s.fillLog, id))
              && forall f :: f in s.fillLog && f.orderId == id ==>
                   f.symbol == s.book.orders[id].symbol && f.side == s.book.orders[id].side
  {
    RunKeepsInv(brokers, live, ops);
    var s := Run(Start(brokers, live), ops);
    PositionIsNetOfLog(s.fillLog, symbol);
    assert forall f :: f in s.fillLog ==> DescribesItsOrder(s.book, f);
  }

  predicate LeavesHalt(op: Op) {
    op.ControlResume? || op.Flatten? || (op.Resubmit? && op.request.bypass)
  }

  /** From a halted state nothing new reaches a broker, and nothing is even announced, until
      an operator resumes or the flatten's own orders bypass the halt. */
  lemma {:induction false} HaltedSendsNothing(s: Engine, ops: seq<Op>)
    requires s.halted && forall i :: 0 <= i < |ops| ==> !LeavesHalt(ops[i])
    ensures var s' := Run(s, ops);
            s'.halted && s'.calls == s.calls && s'.book.nextId == s.book.nextId
    decreases |ops|
  {
    if ops == [] {
    } else {
      HaltedSendsNothing(s, ops[..|ops| - 1]);
      HaltedStep(Run(s, ops[..|ops| - 1]), ops[|ops| - 1]);
    }
  }

  lemma HaltedStep(s: Engine, op: Op)
    requires s.halted && !LeavesHalt(op)
    ensures var s' := Apply(s, op); s'.halted && s'.calls == s.calls && s'.book.nextId == s.book.nextId
  {
    hide WithFills, Recorded, PollOrder, Dispatch;
    if op.Poll? && op.id in s.inFlight {
      PollCallsNobody(s, op.id, s.inFlight[op.id], op.report, op.now);
    }
  }

  lemma PollCallsNobody(s: Engine, id: nat, flight: Flight, report: Report, now: int)
    ensures var s' := PollOrder(s, id, flight, report, now).engine;
            s'.halted == s.halted && s'.calls == s.calls && s'.book.nextId == s.book.nextId
  {
    hide WithFills, Recorded, FillRecorded, StatusUpdated;
    IdsStay(s.book, id, now);
  }

  lemma IdsStay(book: Book, id: nat, now: int)
    ensures forall status :: StatusUpdated(book, id, status, now).book.nextId == book.nextId
    ensures forall f :: FillRecorded(book, id, f, now).book.nextId == book.nextId
  {
    hide WithFills;
  }

  /** A poll takes an order out of flight without any event exactly when the broker reports it
      filled with no quantity or no price; the order is left behind in status SUBMITTED. */
  lemma LeavesSilentlyExactlyWhen(s: Engine, id: nat, report: Report, now: int)
    requires Inv(s) && id in s.inFlight
    ensures var s' := PollOrder(s, id, s.inFlight[id], report, now).engine;
            && ((id !in s'.inFlight && s'.events == s.events) <==>
                (report.ReportFilled? && (report.quantity <= 0.0 || report.price <= 0.0)))
            && (id !in s'.inFlight && s'.events == s.events ==> s'.book == s.book && s'.book.orders[id].status == Submitted)
  {
    hide CallsOk, ReasonsOk, FillRecorded, Recorded, Tracked, FillsOf, WithFills;
    if report.ReportFilled? && report.quantity > 0.0 && report.price > 0.0 {
      SubmittedTakesFills(s.book, id, Fill(report.price, report.quantity), now);
    }
  }

  /** The order manager takes the fill: the order is known, and either still takes completion or
      stays short of its quantity. */
  predicate FillIsTaken(book: Book, id: nat, quantity: real) {
    && id in book.orders
    && (book.orders[id].filled + quantity < book.orders[id].quantity || TakesCompletion(book.orders[id].status))
  }

  /** The report makes a poll announce an ending. */
  predicate Announces(book: Book, id: nat, report: Report) {
    || report.ReportRejected?
    || report.ReportCancelled?
    || (report.ReportFilled? && report.quantity > 0.0 && report.price > 0.0 && FillIsTaken(book, id, report.quantity))
  }

  /** A poll of an order that has left flight since the snapshot (cancelled, say, or filled),
      known or pruned, announces an ending exactly on a rejection, a cancellation or a positive
      fill the order manager takes: for an order that has ended, the second one.  Such a poll
      aborts the pass on every report but a failed or an open one. */
  lemma StalePollEndsAgainExactlyWhen(s: Engine, id: nat, flight: Flight, report: Report, now: int)
    requires Inv(s) && Named(s.brokers, flight.broker).Some? && id !in s.inFlight
    ensures var p := PollOrder(s, id, flight, report, now);
            && EndCount(p.engine.events, id) == EndCount(s.events, id) + (if Announces(s.book, id, report) then 1 else 0)
            && (p.aborted <==> !report.PollFailed? && !report.ReportOther?)
            && id !in p.engine.inFlight
  {
    hide CallsOk, ReasonsOk, LogOk, FlightsOk, Tracked, FillsOf, Recorded, EndCount, FillRecorded;
    match report
    case PollFailed =>
    case ReportOther =>
    case ReportRejected => Counted(s.events, RejectedEvent(id, BrokerRejected, ClientIdOf(s, id)));
    case ReportCancelled => Counted(s.events, CancelledEvent(id));
    case ReportFilled(quantity, price) =>
      if quantity > 0.0 && price > 0.0 {
        StaleFillIsTakenExactlyWhen(s.book, id, Fill(price, quantity), now);
        if FillIsTaken(s.book, id, quantity) {
          var o := s.book.orders[id];
          Counted(s.events, FilledEvent(id, o.symbol, o.side, price, quantity, ClientIdOf(s, id)));
        }
      }
  }

  lemma StaleFillIsTakenExactlyWhen(book: Book, id: nat, f: Fill, now: int)
    requires BookOk(book)
    ensures FillRecorded(book, id, f, now).Done? <==> FillIsTaken(book, id, f.quantity)
  {
    if id in book.orders {
      FillIsStoredAndRaisesExactlyWhen(book, id, f, now);
    }
  }

  // ---------------------------------------------------------------- the monitor pass

  /** A snapshot of distinct in-flight orders. */
  ghost predicate SnapshotOf(s: Engine, snapshot: seq<(nat, Flight)>) {
    && (forall i :: 0 <= i < |snapshot| ==> snapshot[i].0 in s.inFlight && s.inFlight[snapshot[i].0] == snapshot[i].1)
    && (forall i, j :: 0 <= i < j < |snapshot| ==> snapshot[i].0 != snapshot[j].0)
  }

  lemma PollTouchesOneFlight(s: Engine, id: nat, report: Report, now: int)
    requires Inv(s) && id in s.inFlight
    ensures var p := PollOrder(s, id, s.inFlight[id], report, now);
            && (p.engine.inFlight == s.inFlight || p.engine.inFlight == s.inFlight - {id})
            && (p.aborted <==> report == ReportRejected)
  {
    hide CallsOk, ReasonsOk, FillRecorded, Recorded, Tracked, FillsOf, WithFills;
    if report.ReportFilled? && report.quantity > 0.0 && report.price > 0.0 {
      SubmittedTakesFills(s.book, id, Fill(report.price, report.quantity), now);
    }
    assert s.inFlight - {id} - {id} == s.inFlight - {id};
  }

  /** How far a pass gets: to the first order reported rejected, that one included. */
  function Reach(snapshot: seq<(nat, Flight)>, reports: nat -> Report): (n: nat)
    ensures n <= |snapshot|
    ensures forall i :: 0 <= i < n - 1 ==> reports(snapshot[i].0) != ReportRejected
    ensures n < |snapshot| ==> n > 0 && reports(snapshot[n - 1].0) == ReportRejected
  {
    if snapshot == [] then 0
    else if reports(snapshot[0].0) == ReportRejected then 1
    else 1 + Reach(snapshot[1..], reports)
  }

  function Polls(s: Engine, snapshot: seq<(nat, Flight)>, reports: nat -> Report, now: int): Engine
    decreases |snapshot|
  {
    if snapshot == [] then s
    else Polls(Apply(s, Poll(snapshot[0].0, reports(snapshot[0].0), now)), snapshot[1..], reports, now)
  }

  /** A monitor pass is the run of atomic polls of the orders up to and including the first one
      the broker rejected: there the second deletion of the in-flight entry raises, and the
      orders behind it wait for the next pass. */
  lemma {:induction false} PassStopsAtFirstRejection(s: Engine, snapshot: seq<(nat, Flight)>, reports: nat -> Report, now: int)
    requires Inv(s) && SnapshotOf(s, snapshot)
    ensures var p := MonitorPass(s, snapshot, reports, now);
            && Inv(p.engine)
            && p.engine == Polls(s, snapshot[..Reach(snapshot, reports)], reports, now)
            && (p.aborted <==> exists i :: 0 <= i < |snapshot| && reports(snapshot[i].0) == ReportRejected)
    decreases |snapshot|
  {
    hide Inv;
    if snapshot == [] {
    } else {
      var id := snapshot[0].0;
      PollTouchesOneFlight(s, id, reports(id), now);
      PollKeepsInv(s, id, reports(id), now);
      var p := PollOrder(s, id, s.inFlight[id], reports(id), now);
      var polled := snapshot[..Reach(snapshot, reports)];
      assert Apply(s, Poll(id, reports(id), now)) == p.engine;
      if p.aborted {
        assert polled == [snapshot[0]] && polled[1..] == [];
      } else {
        forall i | 0 <= i < |snapshot[1..]|
          ensures snapshot[1..][i].0 in p.engine.inFlight && p.engine.inFlight[snapshot[1..][i].0] == snapshot[1..][i].1
        {
          assert snapshot[1..][i] == snapshot[i + 1];
        }
        PassStopsAtFirstRejection(p.engine, snapshot[1..], reports, now);
        assert polled[1..] == snapshot[1..][..Reach(snapshot[1..], reports)];
        assert polled[0] == snapshot[0];
        assert forall i :: 0 < i < |snapshot| ==> snapshot[i] == snapshot[1..][i - 1];
      }
    }
  }
}
