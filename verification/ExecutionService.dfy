/** `ExecutionEngineService` as code: every method is proved to do what `Execution` specifies. */
module ExecutionService {
  import opened Wrappers
  import opened Orders
  import opened Fills
  import opened Router
  import opened Execution

  /** The kill switch's own orders pass the halt, so each of them is an order. */
  lemma FlattenIsPlaced(s: Engine, h: Holding, m: Market)
    ensures Execution.SubmitOrder(s, FlattenRequest(h), m).order.Some?
  {
  }

  class ExecutionEngine {
    const brokers: seq<Broker>
    const live: bool
    const orderManager: OrderManager
    const fillTracker: FillTracker
    var inFlight: map<nat, Flight>
    var processed: set<string>
    var halted: bool
    // what the bus and the brokers have seen
    ghost var events: seq<Event>
    ghost var calls: seq<BrokerCall>
    ghost var fillLog: seq<FillRecord>
    ghost var approved: seq<string>

    ghost function View(): Engine
      reads this, orderManager, fillTracker
    {
      Engine(brokers, live, orderManager.View(), fillTracker.positions, inFlight, processed, halted,
             events, calls, fillLog, approved)
    }

    constructor (brokers: seq<Broker>, live: bool)
      ensures View() == Start(brokers, live)
      ensures fresh(orderManager) && fresh(fillTracker)
    {
      this.brokers, this.live := brokers, live;
      orderManager := new OrderManager();
      fillTracker := new FillTracker();
      inFlight, processed, halted := map[], {}, false;
      events, calls, fillLog, approved := [], [], [], [];
    }

    method PublishRejected(id: nat, reason: Reason, now: int)
      modifies this, orderManager
      ensures View() == old(Execution.PublishRejected(View(), id, reason, now))
    {
      ghost var clientId := ClientIdOf(View(), id);
      var _ := orderManager.UpdateStatus(id, Rejected, now);
      events := events + [RejectedEvent(id, reason, clientId)];
      if id in inFlight {
        inFlight := inFlight - {id};
      }
      assert old(inFlight) - {id} == inFlight;
    }

    method SubmitOrder(r: Request, m: Market) returns (order: Option<nat>)
      modifies this, orderManager
      ensures View() == old(Execution.SubmitOrder(View(), r, m)).engine
      ensures order == old(Execution.SubmitOrder(View(), r, m)).order
    {
      if halted && !r.bypass {
        return None;
      }
      var id: nat;
      if r.reuse.None? {
        id := orderManager.CreateOrder(r.symbol, r.side, r.orderType, r.quantity, r.limitPrice, r.clientId, m.now);
      } else {
        id := r.reuse.value;
        if id !in orderManager.orders {
          return None;
        }
      }
      order := Some(id);
      events := events + [CreatedEvent(id)];
      RouteAndSend(id, r, m);
    }

    method Place(id: nat, broker: Broker, r: Request, m: Market)
      requires id in orderManager.orders
      modifies this, orderManager
      ensures View() == old(Execution.Place(View(), id, broker, r, m))
    {
      calls := calls + [CallFor(View(), id, broker, r)];
      if m.accepted.None? {
        PublishRejected(id, SubmitFailed, m.now);
        return;
      }
      var raised := orderManager.UpdateStatus(id, Submitted, m.now);
      if raised {
        PublishRejected(id, SubmitFailed, m.now);
      } else {
        inFlight := inFlight[id := Flight(broker.name, m.accepted.value)];
      }
    }

    method RouteAndSend(id: nat, r: Request, m: Market)
      requires id in orderManager.orders
      modifies this, orderManager
      ensures View() == old(Dispatch(View(), id, r, m))
    {
      hide Execution.Place, Execution.PublishRejected;
      var o := orderManager.orders[id];
      var choice := SelectBroker(brokers, live, o.symbol);
      if choice.None? {
        PublishRejected(id, NoSafeBroker, m.now);
        return;
      }
      var found := Named(brokers, choice.value);
      if found.None? {
        PublishRejected(id, BrokerNotFound, m.now);
        return;
      }
      var broker := found.value;
      if broker.supportsLive && !live {
        PublishRejected(id, LiveBrokerBlocked, m.now);
        return;
      }
      var price := if o.limitPrice.Some? then o.limitPrice else r.referencePrice;
      if o.side == "buy" && price.Some? && price.value > 0.0 {
        if m.buyingPower.Some? && o.quantity * price.value > m.buyingPower.value {
          PublishRejected(id, InsufficientBuyingPower, m.now);
          return;
        }
      }
      Place(id, broker, r, m);
    }

    /** Comparing a NaN quantity raises out of the handler. */
    method HandleRiskApproved(i: Intent, m: Market) returns (raised: bool)
      modifies this, orderManager
      ensures View() == old(Execution.HandleRiskApproved(View(), i, m))
      ensures raised <==> Judge(old(processed), i) == Crashes
    {
      if i.correlationId != "" && i.correlationId in processed {
        return false;
      }
      if i.symbol == "" || i.side == "" || i.quantity.Unparsable? {
        return false;
      }
      if i.quantity.NotANumber? {
        return true;
      }
      if i.quantity.value <= 0.0 {
        return false;
      }
      raised := false;
      if i.correlationId != "" {
        processed := processed + {i.correlationId};
      }
      approved := approved + [i.correlationId];
      var _ := SubmitOrder(RequestOf(i), m);
    }

    method HandleOrderIntent(i: Intent, m: Market) returns (raised: bool)
      modifies this, orderManager
      ensures View() == old(Execution.HandleOrderIntent(View(), i, m))
      ensures raised <==> Judge({}, i) == Crashes
    {
      if i.symbol == "" || i.side == "" || i.quantity.Unparsable? {
        return false;
      }
      if i.quantity.NotANumber? {
        return true;
      }
      if i.quantity.value <= 0.0 {
        return false;
      }
      raised := false;
      var _ := SubmitOrder(RequestOf(i), m);
    }

    method CancelOrder(id: nat, reply: Option<bool>, now: int) returns (cancelled: bool)
      modifies this, orderManager
      ensures View() == old(Execution.CancelOrder(View(), id, reply, now))
      ensures cancelled <==> old(Confirmed(View(), id, reply))
    {
      if id !in inFlight || Named(brokers, inFlight[id].broker).None? {
        return false;
      }
      cancelled := reply == Some(true);
      if cancelled {
        var _ := orderManager.UpdateStatus(id, Cancelled, now);
        inFlight := inFlight - {id};
        events := events + [CancelledEvent(id)];
      }
    }

    /** `del self._in_flight[id]`: raises when the entry is already gone. */
    method DropFlight(id: nat) returns (raised: bool)
      modifies this`inFlight
      ensures inFlight == old(inFlight) - {id} && (raised <==> id !in old(inFlight))
    {
      raised := id !in inFlight;
      inFlight := inFlight - {id};
    }

    method PollOrder(id: nat, flight: Flight, report: Report, now: int) returns (aborted: bool)
      modifies this, orderManager, fillTracker
      ensures View() == old(Execution.PollOrder(View(), id, flight, report, now)).engine
      ensures aborted == old(Execution.PollOrder(View(), id, flight, report, now)).aborted
    {
      aborted := false;
      if Named(brokers, flight.broker).None? {
        return;
      }
      match report
      case PollFailed =>
      case ReportOther =>
      case ReportFilled(quantity, price) =>
        if quantity > 0.0 && price > 0.0 {
          ghost var before := View();
          var raised := orderManager.RecordFill(id, price, quantity, now);
          if raised {
            return true;
          }
          var o := orderManager.orders[id];
          assert o.symbol == before.book.orders[id].symbol && o.side == before.book.orders[id].side;
          fillTracker.RecordFill(id, o.symbol, o.side, price, quantity, 0.0);
          fillLog := fillLog + [FillRecord(id, o.symbol, o.side, price, quantity, 0.0)];
          events := events + [FilledEvent(id, o.symbol, o.side, price, quantity, ClientIdOf(before, id))];
        }
        aborted := DropFlight(id);
      case ReportRejected =>
        PublishRejected(id, BrokerRejected, now);
        aborted := DropFlight(id);
      case ReportCancelled =>
        var _ := orderManager.UpdateStatus(id, Cancelled, now);
        events := events + [CancelledEvent(id)];
        aborted := DropFlight(id);
    }

    /** One pass of the monitor loop over a snapshot of the in-flight dictionary. */
    method MonitorPass(snapshot: seq<(nat, Flight)>, reports: nat -> Report, now: int) returns (aborted: bool)
      modifies this, orderManager, fillTracker
      ensures View() == old(Execution.MonitorPass(View(), snapshot, reports, now)).engine
      ensures aborted == old(Execution.MonitorPass(View(), snapshot, reports, now)).aborted
    {
      hide Execution.PollOrder;
      var k := 0;
      aborted := false;
      ghost var start := View();
      while k < |snapshot|
        invariant 0 <= k <= |snapshot| && !aborted
        invariant Execution.MonitorPass(start, snapshot, reports, now)
                  == Execution.MonitorPass(View(), snapshot[k..], reports, now)
      {
        aborted := PollOrder(snapshot[k].0, snapshot[k].1, reports(snapshot[k].0), now);
        if aborted {
          return;
        }
        k := k + 1;
      }
    }

    method Halt()
      modifies this`halted
      ensures View() == old(Execution.Halt(View()))
    {
      halted := true;
    }

    method Resume()
      modifies this`halted
      ensures View() == old(Execution.Resume(View()))
    {
      halted := false;
    }

    /** Also counts the confirmed cancellations and lists the positions it sent orders for. */
    method EmergencyFlatten(ids: seq<nat>, replies: nat -> Option<bool>, held: seq<HeldPosition>, now: int)
        returns (cancelled: nat, flattened: seq<Flattened>)
      modifies this, orderManager
      ensures View() == old(Execution.EmergencyFlatten(View(), ids, replies, held, now))
      ensures cancelled == old(Cancellations(Execution.Halt(View()), ids, replies, now))
      ensures flattened == FlattenedOf(held)
    {
      Halt();
      cancelled := CancelListed(ids, replies, now);
      hide Execution.CancelAll, Cancellations;
      flattened := CloseHeld(held);
    }

    method CancelListed(ids: seq<nat>, replies: nat -> Option<bool>, now: int) returns (cancelled: nat)
      modifies this, orderManager
      ensures View() == old(CancelAll(View(), ids, replies, now))
      ensures cancelled == old(Cancellations(View(), ids, replies, now))
    {
      hide Execution.CancelOrder;
      cancelled := 0;
      var k := 0;
      ghost var start := View();
      while k < |ids|
        invariant 0 <= k <= |ids|
        invariant CancelAll(start, ids, replies, now) == CancelAll(View(), ids[k..], replies, now)
        invariant Cancellations(start, ids, replies, now) == cancelled + Cancellations(View(), ids[k..], replies, now)
      {
        var done := CancelOrder(ids[k], replies(ids[k]), now);
        if done {
          cancelled := cancelled + 1;
        }
        k := k + 1;
      }
    }

    method CloseHeld(held: seq<HeldPosition>) returns (flattened: seq<Flattened>)
      modifies this, orderManager
      ensures View() == old(CloseAll(View(), held))
      ensures flattened == FlattenedOf(held)
    {
      hide Execution.SubmitOrder;
      flattened := [];
      var k := 0;
      ghost var start := View();
      while k < |held|
        invariant 0 <= k <= |held|
        invariant CloseAll(start, held) == CloseAll(View(), held[k..])
        invariant flattened == FlattenedOf(held[..k])
      {
        assert held[..k + 1][..k] == held[..k];
        var h := held[k].holding;
        if h.quantity != 0.0 {
          var r := FlattenRequest(h);
          FlattenIsPlaced(View(), h, held[k].market);
          var placed := SubmitOrder(r, held[k].market);
          if placed.Some? {
            flattened := flattened + [Flattened(h.symbol, r.side, r.quantity)];
          }
        }
        k := k + 1;
      }
      assert held[..k] == held;
    }

    /** Control events; actions owned by other services and unknown ones change nothing. */
    method HandleControl(action: string, ids: seq<nat>, replies: nat -> Option<bool>, held: seq<HeldPosition>, now: int)
      modifies this, orderManager
      ensures View() == old(if action == "halt" then Execution.Halt(View())
                            else if action == "resume" then Execution.Resume(View())
                            else if action == "flatten" then Execution.EmergencyFlatten(View(), ids, replies, held, now)
                            else View())
    {
      if action == "halt" {
        Halt();
      } else if action == "resume" {
        Resume();
      } else if action == "flatten" {
        var _, _ := EmergencyFlatten(ids, replies, held, now);
      }
    }
  }
}
