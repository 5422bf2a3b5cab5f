/**
  What the engine announces about fills (`services/execution/service.py`): every fill event repeats
  one fill of the ledgers and names the order, and the message behind it, that a broker was called
  with.
 */
module FillEvents {
  import opened Arithmetic
  import opened Wrappers
  import opened Orders
  import opened Fills
  import opened Router
  import opened Execution
  import opened ExecutionRuns

  // ---------------------------------------------------------------- one poll

  function ClientOf(o: Order): string {
    if o.clientId.Some? then o.clientId.value else ""
  }

  /** What one report about an order in flight adds to the announcements and to the ledgers: a fill
      is announced with the order's symbol, side and client id and with the report's price and
      quantity, which are also what is recorded. */
  ghost predicate Announces(s: Engine, id: nat, o: Order, report: Report, s': Engine)
    requires id in s'.book.orders
  {
    match report
    case ReportFilled(quantity, price) =>
      s'.inFlight == s.inFlight - {id}
      && if quantity > 0.0 && price > 0.0
         then s'.events == s.events + [FilledEvent(id, o.symbol, o.side, price, quantity, ClientOf(o))]
              && s'.fillLog == s.fillLog + [FillRecord(id, o.symbol, o.side, price, quantity, 0.0)]
         else s'.events == s.events && s'.fillLog == s.fillLog
    case ReportRejected =>
      s'.events == s.events + [RejectedEvent(id, BrokerRejected, ClientOf(o))] && s'.fillLog == s.fillLog
      && s'.inFlight == s.inFlight - {id} && s'.book.orders[id].status == Rejected
    case ReportCancelled =>
      s'.events == s.events + [CancelledEvent(id)] && s'.fillLog == s.fillLog
      && s'.inFlight == s.inFlight - {id} && s'.book.orders[id].status == Cancelled
    case _ => s' == s
  }

  lemma FillAnnounces(s: Engine, id: nat, quantity: real, price: real, now: int)
    requires Inv(s) && id in s.inFlight && quantity > 0.0 && price > 0.0
    ensures id in s.book.orders
    ensures var s', o := PollOrder(s, id, s.inFlight[id], ReportFilled(quantity, price), now).engine, s.book.orders[id];
            && s'.book.orders.Keys == s.book.orders.Keys
            && s'.events == s.events + [FilledEvent(id, o.symbol, o.side, price, quantity, ClientOf(o))]
            && s'.fillLog == s.fillLog + [FillRecord(id, o.symbol, o.side, price, quantity, 0.0)]
            && s'.inFlight == s.inFlight - {id}
  {
    InFlightIsKnown(s);
    BookOf(s);
    SubmittedTakesFills(s.book, id, Fill(price, quantity), now);
    hide FillRecorded, Recorded, LedgersOk, LogOk, CallsOk, ReasonsOk;
  }

  lemma PollAnnounces(s: Engine, id: nat, report: Report, now: int)
    requires Inv(s) && id in s.inFlight
    ensures id in s.book.orders && id in PollOrder(s, id, s.inFlight[id], report, now).engine.book.orders
    ensures Announces(s, id, s.book.orders[id], report, PollOrder(s, id, s.inFlight[id], report, now).engine)
  {
    InFlightIsKnown(s);
    FlightIsWired(s, id);
    hide Inv, PollOrder;
    if report.ReportFilled? && report.quantity > 0.0 && report.price > 0.0 {
      FillAnnounces(s, id, report.quantity, report.price, now);
    } else {
      EndAnnounces(s, id, report, now);
    }
  }

  lemma FlightIsWired(s: Engine, id: nat)
    requires Inv(s) && id in s.inFlight
    ensures Named(s.brokers, s.inFlight[id].broker).Some?
  {
  }

  lemma EndAnnounces(s: Engine, id: nat, report: Report, now: int)
    requires id in s.inFlight && id in s.book.orders && s.book.orders[id].status == Submitted
    requires Named(s.brokers, s.inFlight[id].broker).Some?
    requires report.ReportFilled? ==> !(report.quantity > 0.0 && report.price > 0.0)
    ensures id in PollOrder(s, id, s.inFlight[id], report, now).engine.book.orders
    ensures Announces(s, id, s.book.orders[id], report, PollOrder(s, id, s.inFlight[id], report, now).engine)
  {
    hide FillRecorded, Recorded, Named;
  }

  // ---------------------------------------------------------------- every fill event of a run

  /** The fills a list of events announces, in order. */
  function Told(events: seq<Event>): seq<FillRecord> {
    if events == [] then []
    else
      Told(events[..|events| - 1])
      + match events[|events| - 1]
        case FilledEvent(id, symbol, side, price, quantity, _) => [FillRecord(id, symbol, side, price, quantity, 0.0)]
        case _ => []
  }

  lemma ToldOneMore(events: seq<Event>, e: Event)
    ensures Told(events + [e]) == Told(events) + if e.FilledEvent? then [FillRecord(e.id, e.symbol, e.side, e.price, e.quantity, 0.0)] else []
  {
    assert (events + [e])[..|events|] == events;
  }

  /** A broker was called with this order. */
  ghost predicate CalledWith(calls: seq<BrokerCall>, id: nat, o: Order) {
    exists c :: c in calls && c.id == id && c.symbol == o.symbol && c.side == o.side && c.quantity == o.quantity && c.clientId == o.clientId
  }

  /** The fill announced is one of the order of this call, under the same client id. */
  predicate Behind(c: BrokerCall, e: Event) {
    e.FilledEvent? && c.id == e.id && c.symbol == e.symbol && c.side == e.side
    && e.clientId == if c.clientId.Some? then c.clientId.value else ""
  }

  ghost predicate FlightsCalled(s: Engine) {
    forall id :: id in s.inFlight ==> id in s.book.orders && CalledWith(s.calls, id, s.book.orders[id])
  }

  ghost predicate FillsCalled(s: Engine) {
    forall e :: e in s.events && e.FilledEvent? ==> exists c :: c in s.calls && Behind(c, e)
  }

  ghost predicate Linked(s: Engine) {
    Told(s.events) == s.fillLog && FlightsCalled(s) && FillsCalled(s)
  }

  predicate SameOrder(o: Order, o': Order) {
    o'.symbol == o.symbol && o'.side == o.side && o'.quantity == o.quantity && o'.clientId == o.clientId
  }

  ghost predicate FlightsStay(s: Engine, s': Engine) {
    forall id :: id in s'.inFlight ==>
      && id in s'.book.orders
      && ((id in s.inFlight && id in s.book.orders && SameOrder(s.book.orders[id], s'.book.orders[id]))
          || CalledWith(s'.calls, id, s'.book.orders[id]))
  }

  /** Nothing was filled, and whatever is newly in flight was called. */
  ghost predicate Quiet(s: Engine, s': Engine) {
    && (forall c :: c in s.calls ==> c in s'.calls)
    && s'.fillLog == s.fillLog && Told(s'.events) == Told(s.events)
    && (forall e :: e in s'.events && e.FilledEvent? ==> e in s.events)
    && FlightsStay(s, s')
  }

  lemma QuietKeepsLinked(s: Engine, s': Engine)
    requires Linked(s) && Quiet(s, s')
    ensures Linked(s')
  {
    forall id | id in s'.inFlight ensures CalledWith(s'.calls, id, s'.book.orders[id]) {
      if id in s.inFlight && id in s.book.orders && SameOrder(s.book.orders[id], s'.book.orders[id]) {
        assert CalledWith(s.calls, id, s.book.orders[id]);
      }
    }
    forall e | e in s'.events && e.FilledEvent? ensures exists c :: c in s'.calls && Behind(c, e) {
      var c :| c in s.calls && Behind(c, e);
      assert c in s'.calls;
    }
  }

  lemma StatusKeepsOrders(b: Book, id: nat, status: Status, now: int)
    ensures var b' := StatusUpdated(b, id, status, now).book;
            b'.orders.Keys == b.orders.Keys && forall i :: i in b.orders ==> SameOrder(b.orders[i], b'.orders[i])
  {
  }

  lemma RejectIsQuiet(s: Engine, id: nat, reason: Reason, now: int)
    requires forall i :: i in s.inFlight ==> i in s.book.orders
    ensures Quiet(s, PublishRejected(s, id, reason, now))
  {
    hide Told, CalledWith, StatusUpdated;
    StatusKeepsOrders(s.book, id, Rejected, now);
    ToldOneMore(s.events, RejectedEvent(id, reason, ClientIdOf(s, id)));
  }

  lemma CancelIsQuiet(s: Engine, id: nat, reply: Option<bool>, now: int)
    requires forall i :: i in s.inFlight ==> i in s.book.orders
    ensures Quiet(s, CancelOrder(s, id, reply, now))
  {
    hide Told, CalledWith, StatusUpdated;
    StatusKeepsOrders(s.book, id, Cancelled, now);
    ToldOneMore(s.events, CancelledEvent(id));
  }

  lemma AnnouncedIsQuiet(s: Engine, id: nat)
    requires forall i :: i in s.inFlight ==> i in s.book.orders
    ensures Quiet(s, s.(events := s.events + [CreatedEvent(id)]))
  {
    hide Told, CalledWith;
    ToldOneMore(s.events, CreatedEvent(id));
  }

  lemma CreatedIsQuiet(s: Engine, r: Request, now: int)
    requires Inv(s)
    ensures Quiet(s, WithNewOrder(s, r, now))
  {
    hide Told, CalledWith, WithFills, Tracked, FillsOf;
    ToldOneMore(s.events, CreatedEvent(s.book.nextId));
    BookOf(s);
    InFlightIsKnown(s);
    forall id | id in s.inFlight
      ensures id in WithNewOrder(s, r, now).book.orders && SameOrder(s.book.orders[id], WithNewOrder(s, r, now).book.orders[id])
    {
      assert s.book.orders[id].status == Submitted;
    }
  }

  lemma InFlightIsKnown(s: Engine)
    requires Inv(s)
    ensures forall id :: id in s.inFlight ==> id in s.book.orders && s.book.orders[id].status == Submitted && id < s.book.nextId
  {
  }

  lemma PlaceKeepsLinked(s: Engine, id: nat, broker: Broker, r: Request, m: Market)
    requires Linked(s) && id in s.book.orders
    ensures Linked(Place(s, id, broker, r, m))
  {
    var called := s.(calls := s.calls + [CallFor(s, id, broker, r)]);
    var c := CallFor(s, id, broker, r);
    assert c in called.calls;
    assert CalledWith(called.calls, id, s.book.orders[id]);
    assert Quiet(s, called);
    QuietKeepsLinked(s, called);
    hide Linked, Quiet, Told, CalledWith;
    if m.accepted.None? || StatusUpdated(s.book, id, Submitted, m.now).Raised? {
      RejectKeepsLinked(called, id, SubmitFailed, m.now);
    } else {
      FlownIsQuiet(called, id, Flight(broker.name, m.accepted.value), m.now);
      QuietKeepsLinked(called, Place(s, id, broker, r, m));
    }
  }

  lemma FlownIsQuiet(s: Engine, id: nat, flight: Flight, now: int)
    requires Linked(s) && id in s.book.orders && CalledWith(s.calls, id, s.book.orders[id])
    ensures Quiet(s, s.(book := StatusUpdated(s.book, id, Submitted, now).book, inFlight := s.inFlight[id := flight]))
  {
    hide Told, StatusUpdated;
    StatusKeepsOrders(s.book, id, Submitted, now);
  }

  lemma RejectKeepsLinked(s: Engine, id: nat, reason: Reason, now: int)
    requires Linked(s)
    ensures Linked(PublishRejected(s, id, reason, now))
  {
    RejectIsQuiet(s, id, reason, now);
    QuietKeepsLinked(s, PublishRejected(s, id, reason, now));
  }

  lemma DispatchKeepsLinked(s: Engine, id: nat, r: Request, m: Market)
    requires Linked(s) && id in s.book.orders
    ensures Linked(Dispatch(s, id, r, m))
  {
    hide Linked, Place, PublishRejected;
    var o := s.book.orders[id];
    match SelectBroker(s.brokers, s.live, o.symbol)
    case None => RejectKeepsLinked(s, id, NoSafeBroker, m.now);
    case Some(name) =>
      match Named(s.brokers, name)
      case None => RejectKeepsLinked(s, id, BrokerNotFound, m.now);
      case Some(broker) =>
        RejectKeepsLinked(s, id, LiveBrokerBlocked, m.now);
        RejectKeepsLinked(s, id, InsufficientBuyingPower, m.now);
        PlaceKeepsLinked(s, id, broker, r, m);
  }

  lemma SubmitKeepsLinked(s: Engine, r: Request, m: Market)
    requires Inv(s) && Linked(s)
    ensures Linked(SubmitOrder(s, r, m).engine)
  {
    hide Inv, Linked, Dispatch;
    if !(s.halted && !r.bypass) {
      match r.reuse
      case None =>
        CreatedIsQuiet(s, r, m.now);
        QuietKeepsLinked(s, WithNewOrder(s, r, m.now));
        DispatchKeepsLinked(WithNewOrder(s, r, m.now), s.book.nextId, r, m);
      case Some(id) =>
        if id in s.book.orders {
          InFlightIsKnown(s);
          AnnouncedIsQuiet(s, id);
          QuietKeepsLinked(s, s.(events := s.events + [CreatedEvent(id)]));
          DispatchKeepsLinked(s.(events := s.events + [CreatedEvent(id)]), id, r, m);
        }
    }
  }

  lemma FillKeepsOrders(b: Book, id: nat, f: Fill, now: int)
    ensures var b' := FillRecorded(b, id, f, now).book;
            b'.orders.Keys == b.orders.Keys && forall i :: i in b.orders ==> SameOrder(b.orders[i], b'.orders[i])
  {
    hide TotalQuantity, TotalCost;
  }

  lemma PollFilledKeepsLinked(s: Engine, id: nat, quantity: real, price: real, now: int)
    requires Inv(s) && Linked(s) && id in s.inFlight && quantity > 0.0 && price > 0.0
    ensures Linked(PollOrder(s, id, s.inFlight[id], ReportFilled(quantity, price), now).engine)
  {
    var s' := PollOrder(s, id, s.inFlight[id], ReportFilled(quantity, price), now).engine;
    InFlightIsKnown(s);
    PollAnnounces(s, id, ReportFilled(quantity, price), now);
    PolledBook(s, id, quantity, price, now);
    FillKeepsOrders(s.book, id, Fill(price, quantity), now);
    hide Inv, PollOrder, FillRecorded, Linked, Told;
    var e := s'.events[|s.events|];
    FillIsLinked(s, id, e, s');
  }

  lemma FillIsLinked(s: Engine, id: nat, e: Event, s': Engine)
    requires Linked(s) && id in s.inFlight && id in s.book.orders && e.FilledEvent?
    requires var o := s.book.orders[id];
             && e == FilledEvent(id, o.symbol, o.side, e.price, e.quantity, ClientOf(o))
             && s'.fillLog == s.fillLog + [FillRecord(id, o.symbol, o.side, e.price, e.quantity, 0.0)]
    requires s'.events == s.events + [e] && s'.calls == s.calls && s'.inFlight == s.inFlight - {id}
    requires s'.book.orders.Keys == s.book.orders.Keys
    requires forall i :: i in s.book.orders ==> SameOrder(s.book.orders[i], s'.book.orders[i])
    ensures Linked(s')
  {
    ToldOneMore(s.events, e);
    hide Told;
    assert CalledWith(s.calls, id, s.book.orders[id]);
    var c :| c in s.calls && c.id == id && c.symbol == e.symbol && c.side == e.side && c.clientId == s.book.orders[id].clientId;
    assert Behind(c, e);
    forall i | i in s'.inFlight ensures CalledWith(s'.calls, i, s'.book.orders[i]) {
      assert CalledWith(s.calls, i, s.book.orders[i]);
    }
  }

  lemma PolledBook(s: Engine, id: nat, quantity: real, price: real, now: int)
    requires Inv(s) && id in s.inFlight && quantity > 0.0 && price > 0.0
    ensures var s' := PollOrder(s, id, s.inFlight[id], ReportFilled(quantity, price), now).engine;
            s'.book == FillRecorded(s.book, id, Fill(price, quantity), now).book && s'.calls == s.calls
  {
    hide FillRecorded, Recorded;
  }

  lemma PollKeepsLinked(s: Engine, id: nat, report: Report, now: int)
    requires Inv(s) && Linked(s) && id in s.inFlight
    ensures Linked(PollOrder(s, id, s.inFlight[id], report, now).engine)
  {
    var s' := PollOrder(s, id, s.inFlight[id], report, now).engine;
    if report.ReportFilled? && report.quantity > 0.0 && report.price > 0.0 {
      PollFilledKeepsLinked(s, id, report.quantity, report.price, now);
    } else {
      InFlightIsKnown(s);
      OtherPollIsQuiet(s, id, report, now);
      hide Inv, Linked, Quiet;
      QuietKeepsLinked(s, s');
    }
  }

  lemma OtherPollIsQuiet(s: Engine, id: nat, report: Report, now: int)
    requires id in s.inFlight && (forall i :: i in s.inFlight ==> i in s.book.orders)
    requires report.ReportFilled? ==> !(report.quantity > 0.0 && report.price > 0.0)
    ensures Quiet(s, PollOrder(s, id, s.inFlight[id], report, now).engine)
  {
    hide Told, CalledWith, StatusUpdated, FillRecorded, Recorded;
    RejectIsQuiet(s, id, BrokerRejected, now);
    StatusKeepsOrders(s.book, id, Cancelled, now);
    ToldOneMore(s.events, CancelledEvent(id));
  }

  lemma {:induction false} CancelAllKeepsLinked(s: Engine, ids: seq<nat>, replies: nat -> Option<bool>, now: int)
    requires Inv(s) && Linked(s)
    ensures Inv(CancelAll(s, ids, replies, now)) && Linked(CancelAll(s, ids, replies, now))
    decreases |ids|
  {
    hide Inv, Linked, Quiet, CancelOrder;
    if ids == [] {
    } else {
      InFlightIsKnown(s);
      CancelIsQuiet(s, ids[0], replies(ids[0]), now);
      QuietKeepsLinked(s, CancelOrder(s, ids[0], replies(ids[0]), now));
      CancelKeepsInv(s, ids[0], replies(ids[0]), now);
      CancelAllKeepsLinked(CancelOrder(s, ids[0], replies(ids[0]), now), ids[1..], replies, now);
    }
  }

  lemma {:induction false} CloseAllKeepsLinked(s: Engine, held: seq<HeldPosition>)
    requires Inv(s) && Linked(s)
    ensures Linked(CloseAll(s, held))
    decreases |held|
  {
    hide Inv, Linked, SubmitOrder;
    if held == [] {
    } else if held[0].holding.quantity == 0.0 {
      CloseAllKeepsLinked(s, held[1..]);
    } else {
      SubmitKeepsLinked(s, FlattenRequest(held[0].holding), held[0].market);
      SubmitKeepsInv(s, FlattenRequest(held[0].holding), held[0].market);
      CloseAllKeepsLinked(SubmitOrder(s, FlattenRequest(held[0].holding), held[0].market).engine, held[1..]);
    }
  }

  lemma NotedIsLinked(s: Engine, s': Engine)
    requires Inv(s) && Linked(s) && s' == s.(processed := s'.processed, approved := s'.approved, halted := s'.halted)
    ensures Inv(s') && Linked(s')
  {
  }

  lemma ApplyKeepsLinked(s: Engine, op: Op)
    requires Inv(s) && Linked(s)
    ensures Linked(Apply(s, op))
  {
    hide Inv, Linked, SubmitOrder, PollOrder, CancelOrder, CancelAll, CloseAll;
    match op
    case RiskApproved(i, m) =>
      if Judge(s.processed, i) == Submits {
        var noted := s.(processed := if i.correlationId == "" then s.processed else s.processed + {i.correlationId},
                        approved := s.approved + [i.correlationId]);
        NotedIsLinked(s, noted);
        SubmitKeepsLinked(noted, RequestOf(i), m);
      }
    case Manual(i, m) =>
      if Judge({}, i) == Submits { SubmitKeepsLinked(s, RequestOf(i), m); }
    case Resubmit(r, m) => SubmitKeepsLinked(s, r, m);
    case Cancel(id, reply, now) =>
      InFlightIsKnown(s);
      CancelIsQuiet(s, id, reply, now);
      QuietKeepsLinked(s, CancelOrder(s, id, reply, now));
    case Poll(id, report, now) => if id in s.inFlight { PollKeepsLinked(s, id, report, now); }
    case ControlHalt => NotedIsLinked(s, Halt(s));
    case ControlResume => NotedIsLinked(s, Resume(s));
    case Flatten(ids, replies, held, now) =>
      NotedIsLinked(s, Halt(s));
      CancelAllKeepsLinked(Halt(s), ids, replies, now);
      CloseAllKeepsLinked(CancelAll(Halt(s), ids, replies, now), held);
  }

  lemma {:induction false} RunKeepsLinked(brokers: seq<Broker>, live: bool, ops: seq<Op>)
    requires DistinctNames(brokers)
    ensures Linked(Run(Start(brokers, live), ops))
  {
    if ops == [] {
    } else {
      RunKeepsLinked(brokers, live, ops[..|ops| - 1]);
      RunKeepsInv(brokers, live, ops[..|ops| - 1]);
      hide Inv, Linked, Apply;
      ApplyKeepsLinked(Run(Start(brokers, live), ops[..|ops| - 1]), ops[|ops| - 1]);
    }
  }

  /** In every run the fill events announce exactly the fills in the ledgers, in order, and each is
      for an order that a broker was called with: same id, symbol and side, and the client id that
      carries the message's correlation id. */
  lemma FillEventsTellTheLedger(brokers: seq<Broker>, live: bool, ops: seq<Op>, e: Event)
    requires DistinctNames(brokers)
    ensures var s := Run(Start(brokers, live), ops);
            && Told(s.events) == s.fillLog
            && (e in s.events && e.FilledEvent? ==> exists c :: c in s.calls && Behind(c, e))
  {
    RunKeepsLinked(brokers, live, ops);
    hide Run;
  }
}
