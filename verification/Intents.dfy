/**
  What becomes of an order intent: the order a broker is sent is the one the message asked for
  (`services/execution/service.py`), for one message and over whole runs.
 */
module Intents {
  import opened Arithmetic
  import opened Wrappers
  import opened Orders
  import opened Fills
  import opened Router
  import opened Execution
  import opened ExecutionRuns
  import opened EmergencyFlatten
  import ExactlyOnce

  // ---------------------------------------------------------------- one intent

  /** The fields of the message make an order. */
  predicate Tradable(i: Intent) {
    i.symbol != "" && i.side != "" && i.quantity.Number? && i.quantity.value > 0.0
  }

  /** The handler of risk-approved messages also drops what it has seen before. */
  predicate GoesThrough(processed: set<string>, i: Intent) {
    Tradable(i) && (i.correlationId == "" || i.correlationId !in processed)
  }

  function Known(correlationId: string): Option<string> {
    if correlationId == "" then None else Some(correlationId)
  }

  function TypeOf(i: Intent): string {
    if i.orderType == "" then "market" else i.orderType
  }

  /** A buy whose limit price, or failing that its reference price, costs more than the account has. */
  predicate OverBuyingPower(i: Intent, buyingPower: Option<real>)
    requires i.quantity.Number?
  {
    var price := match i.limitPrice case Some(limit) => Some(limit) case None => i.referencePrice;
    i.side == "buy" && price.Some? && price.value > 0.0 && buyingPower.Some? && i.quantity.value * price.value > buyingPower.value
  }

  ghost predicate AnySafe(brokers: seq<Broker>, live: bool) {
    exists b :: b in brokers && (live || !b.supportsLive)
  }

  /** The call asks the broker for what the intent asked for. */
  ghost predicate Carries(c: BrokerCall, e: Engine, i: Intent)
    requires i.quantity.Number?
  {
    && c.id == e.book.nextId && c.symbol == i.symbol && c.side == i.side && c.quantity == i.quantity.value
    && c.orderType == TypeOf(i) && c.limitPrice == i.limitPrice && c.clientId == Known(i.correlationId)
    && !c.bypass && !c.whileHalted
    && exists k: nat :: k < |e.brokers| && FirstChoice(e.brokers, e.live, i.symbol, k) && c.broker == e.brokers[k]
  }

  /** So does the order in the book. */
  predicate Records(o: Order, i: Intent)
    requires i.quantity.Number?
  {
    && o.symbol == i.symbol && o.side == i.side && o.quantity == i.quantity.value
    && o.orderType == TypeOf(i) && o.limitPrice == i.limitPrice && o.clientId == Known(i.correlationId)
    && o.filled == 0.0 && o.avgPrice.None?
  }

  /** The order was created, called at the right broker, and is in flight or was rejected as the
      broker answered. */
  ghost predicate SentAs(e: Engine, i: Intent, m: Market, e': Engine)
    requires i.quantity.Number?
  {
    var id, client := e.book.nextId, i.correlationId;
    && |e'.calls| == |e.calls| + 1 && e.calls <= e'.calls && Carries(e'.calls[|e.calls|], e, i)
    && id in e'.book.orders && Records(e'.book.orders[id], i)
    && match m.accepted
       case Some(externalId) =>
         && e'.events == e.events + [CreatedEvent(id)]
         && e'.book.orders[id].status == Submitted
         && e'.inFlight == e.inFlight[id := Flight(e'.calls[|e.calls|].broker.name, externalId)]
       case None =>
         && e'.events == e.events + [CreatedEvent(id), RejectedEvent(id, SubmitFailed, client)]
         && e'.book.orders[id].status == Rejected
         && e'.inFlight == e.inFlight - {id}
  }

  /** The order was created and rejected before any broker was called. */
  ghost predicate RefusedAs(e: Engine, i: Intent, reason: Reason, e': Engine)
    requires i.quantity.Number?
  {
    var id := e.book.nextId;
    && e'.calls == e.calls
    && e'.events == e.events + [CreatedEvent(id), RejectedEvent(id, reason, i.correlationId)]
    && id in e'.book.orders && Records(e'.book.orders[id], i) && e'.book.orders[id].status == Rejected
    && e'.inFlight == e.inFlight - {id}
  }

  /** All that happens to a message whose fields make an order. */
  ghost predicate Dealt(e: Engine, i: Intent, m: Market, e': Engine)
    requires i.quantity.Number?
  {
    if e.halted then e' == e
    else if !AnySafe(e.brokers, e.live) then RefusedAs(e, i, NoSafeBroker, e')
    else if OverBuyingPower(i, m.buyingPower) then RefusedAs(e, i, InsufficientBuyingPower, e')
    else SentAs(e, i, m, e')
  }

  lemma ChoiceIsFirst(brokers: seq<Broker>, live: bool, symbol: string)
    requires DistinctNames(brokers)
    ensures SelectBroker(brokers, live, symbol).None? <==> !AnySafe(brokers, live)
    ensures var choice := SelectBroker(brokers, live, symbol);
            choice.Some? ==>
              exists k: nat :: k < |brokers| && FirstChoice(brokers, live, symbol, k)
                && Named(brokers, choice.value) == Some(brokers[k]) && (brokers[k].supportsLive ==> live)
                && brokers[k].name == choice.value
  {
    SelectionIsSafe(brokers, live, symbol);
    var choice := SelectBroker(brokers, live, symbol);
    if choice.Some? {
      var b := Named(brokers, choice.value).value;
      var k: nat :| k < |brokers| && brokers[k] == b;
      SelectsExactlyWhen(brokers, live, symbol, k);
    } else {
      assert forall b :: b in brokers ==> !Eligible(b, live);
    }
  }

  /** The order has been created and nothing else has happened yet. */
  predicate JustCreated(e: Engine, i: Intent, created: Engine)
    requires i.quantity.Number?
  {
    var id := e.book.nextId;
    && id in created.book.orders && Records(created.book.orders[id], i) && created.book.orders[id].status == Pending
    && created == e.(book := created.book, events := e.events + [CreatedEvent(id)])
  }

  lemma CreatedRecords(e: Engine, i: Intent, m: Market)
    requires i.quantity.Number?
    ensures JustCreated(e, i, WithNewOrder(e, RequestOf(i), m.now))
  {
  }

  lemma RejectedAs(e: Engine, i: Intent, created: Engine, reason: Reason, now: int)
    requires i.quantity.Number? && JustCreated(e, i, created)
    ensures RefusedAs(e, i, reason, PublishRejected(created, e.book.nextId, reason, now))
  {
  }

  lemma PlacedAs(e: Engine, i: Intent, created: Engine, broker: Broker, r: Request, m: Market)
    requires i.quantity.Number? && !e.halted && !r.bypass && JustCreated(e, i, created)
    requires exists k: nat :: k < |e.brokers| && FirstChoice(e.brokers, e.live, i.symbol, k) && broker == e.brokers[k]
    ensures SentAs(e, i, m, Place(created, e.book.nextId, broker, r, m))
  {
    var id, e' := e.book.nextId, Place(created, e.book.nextId, broker, r, m);
    hide FirstChoice;
    assert e'.calls == e.calls + [CallFor(created, id, broker, r)];
    assert Carries(CallFor(created, id, broker, r), e, i);
    assert e.events + [CreatedEvent(id), RejectedEvent(id, SubmitFailed, i.correlationId)]
        == e.events + [CreatedEvent(id)] + [RejectedEvent(id, SubmitFailed, i.correlationId)];
  }

  lemma PricesAgree(o: Order, i: Intent, buyingPower: Option<real>)
    requires i.quantity.Number? && Records(o, i)
    ensures Unaffordable(o, i.referencePrice, buyingPower) <==> OverBuyingPower(i, buyingPower)
  {
  }

  lemma DispatchedAs(e: Engine, i: Intent, created: Engine, r: Request, m: Market)
    requires DistinctNames(e.brokers) && i.quantity.Number? && !e.halted && !r.bypass && JustCreated(e, i, created)
    requires r.referencePrice == i.referencePrice
    ensures Dealt(e, i, m, Dispatch(created, e.book.nextId, r, m))
  {
    var id := e.book.nextId;
    ChoiceIsFirst(e.brokers, e.live, i.symbol);
    PricesAgree(created.book.orders[id], i, m.buyingPower);
    assert created.book.orders[id].symbol == i.symbol && created.brokers == e.brokers && created.live == e.live;
    hide SelectBroker, Named, AnySafe, Place, PublishRejected, SentAs, RefusedAs, FirstChoice, JustCreated, Unaffordable, OverBuyingPower;
    var choice := SelectBroker(e.brokers, e.live, i.symbol);
    if choice.None? {
      RejectedAs(e, i, created, NoSafeBroker, m.now);
    } else if OverBuyingPower(i, m.buyingPower) {
      RejectedAs(e, i, created, InsufficientBuyingPower, m.now);
    } else {
      PlacedAs(e, i, created, Named(e.brokers, choice.value).value, r, m);
    }
  }

  lemma SubmittedIsDealt(e: Engine, i: Intent, m: Market)
    requires DistinctNames(e.brokers) && i.quantity.Number?
    ensures Dealt(e, i, m, SubmitOrder(e, RequestOf(i), m).engine)
  {
    if !e.halted {
      CreatedRecords(e, i, m);
      assert SubmitOrder(e, RequestOf(i), m).engine == Dispatch(WithNewOrder(e, RequestOf(i), m.now), e.book.nextId, RequestOf(i), m);
      hide Dispatch, Dealt, JustCreated, WithNewOrder, SubmitOrder;
      DispatchedAs(e, i, WithNewOrder(e, RequestOf(i), m.now), RequestOf(i), m);
    }
  }

  /** A risk-approved message that goes through adds at most one call, for exactly the order it
      asked for: it is made iff the engine is not halted, some wired broker is safe in this mode,
      and it is not a buy over the buying power; otherwise the order is rejected once, or nothing
      happens at all while halted. Any other message changes nothing. */
  lemma ApprovedIntentIsSentExactlyWhen(e: Engine, i: Intent, m: Market)
    requires DistinctNames(e.brokers)
    ensures var e' := HandleRiskApproved(e, i, m);
            if GoesThrough(e.processed, i)
            then
              && Dealt(e.(processed := e'.processed, approved := e.approved + [i.correlationId]), i, m, e')
              && e'.processed == e.processed + (if i.correlationId == "" then {} else {i.correlationId})
            else e' == e
  {
    if GoesThrough(e.processed, i) {
      var noted := e.(processed := if i.correlationId == "" then e.processed else e.processed + {i.correlationId},
                      approved := e.approved + [i.correlationId]);
      SubmittedIsDealt(noted, i, m);
      ExactlyOnce.SubmitKeepsDedupe(noted, RequestOf(i), m);
      hide SubmitOrder, Dealt;
    }
  }

  /** The same for a manual intent, which is not deduplicated. */
  lemma ManualIntentIsSentExactlyWhen(e: Engine, i: Intent, m: Market)
    requires DistinctNames(e.brokers)
    ensures var e' := HandleOrderIntent(e, i, m);
            if Tradable(i) then Dealt(e, i, m, e') else e' == e
  {
    if Tradable(i) {
      SubmittedIsDealt(e, i, m);
      hide SubmitOrder, Dealt;
    }
  }

  // ---------------------------------------------------------------- the halt flag of a run

  predicate Halts(op: Op) {
    op.ControlHalt? || op.Flatten?
  }

  /** Some halt or flatten has not been resumed since. */
  ghost predicate StillHalted(ops: seq<Op>) {
    exists k :: 0 <= k < |ops| && Halts(ops[k]) && forall j :: k < j < |ops| ==> !ops[j].ControlResume?
  }

  lemma OpMovesHalt(s: Engine, op: Op)
    requires Inv(s)
    ensures Apply(s, op).halted == if Halts(op) then true else if op.ControlResume? then false else s.halted
  {
    hide SubmitOrder, PollOrder, CancelAll, CloseAll, StatusUpdated;
    match op
    case RiskApproved(i, m) =>
      if Judge(s.processed, i) == Submits {
        SubmitKeepsHalt(s.(processed := if i.correlationId == "" then s.processed else s.processed + {i.correlationId},
                           approved := s.approved + [i.correlationId]), RequestOf(i), m);
      }
    case Manual(i, m) => if Judge({}, i) == Submits { SubmitKeepsHalt(s, RequestOf(i), m); }
    case Resubmit(r, m) => SubmitKeepsHalt(s, r, m);
    case Poll(id, report, now) => if id in s.inFlight { PollCallsNobody(s, id, s.inFlight[id], report, now); }
    case Flatten(ids, replies, held, now) => FlattenOutcome(s, ids, replies, held, now);
    case Cancel(_, _, _) =>
    case ControlHalt =>
    case ControlResume =>
  }

  lemma SubmitKeepsHalt(s: Engine, r: Request, m: Market)
    ensures SubmitOrder(s, r, m).engine.halted == s.halted
  {
    hide SelectBroker, Named, StatusUpdated, OrderCreated;
  }

  /** In every run the engine is halted exactly while a halt or a flatten has not been resumed. */
  lemma {:induction false} HaltedExactlyWhen(brokers: seq<Broker>, live: bool, ops: seq<Op>)
    requires DistinctNames(brokers)
    ensures Run(Start(brokers, live), ops).halted <==> StillHalted(ops)
  {
    if ops == [] {
    } else {
      var before, last := ops[..|ops| - 1], ops[|ops| - 1];
      HaltedExactlyWhen(brokers, live, before);
      RunKeepsInv(brokers, live, before);
      hide Inv, Apply;
      OpMovesHalt(Run(Start(brokers, live), before), last);
      HaltGoesOn(before, last);
      assert before + [last] == ops;
    }
  }

  lemma HaltGoesOn(ops: seq<Op>, op: Op)
    ensures StillHalted(ops + [op]) <==> Halts(op) || (StillHalted(ops) && !op.ControlResume?)
  {
    hide Halts;
    var all := ops + [op];
    if StillHalted(ops) && !op.ControlResume? {
      var k :| 0 <= k < |ops| && Halts(ops[k]) && forall j :: k < j < |ops| ==> !ops[j].ControlResume?;
      assert Halts(all[k]);
    }
    if StillHalted(all) && !Halts(op) {
      var k :| 0 <= k < |all| && Halts(all[k]) && forall j :: k < j < |all| ==> !all[j].ControlResume?;
      assert k < |ops| && Halts(ops[k]) && !all[|ops|].ControlResume?;
      assert forall j :: k < j < |ops| ==> ops[j] == all[j];
    }
    assert all[|ops|] == op;
  }

  // ---------------------------------------------------------------- every call of a run

  /** A call made for a request of its own: a new order with the request's terms, or the terms of
      the order it names. */
  predicate Asks(c: BrokerCall, s: Engine, r: Request) {
    && c.bypass == r.bypass && c.whileHalted == s.halted
    && match r.reuse
       case None =>
         && c.id == s.book.nextId && c.symbol == r.symbol && c.side == r.side && c.quantity == r.quantity
         && c.orderType == r.orderType && c.limitPrice == r.limitPrice && c.clientId == r.clientId
       case Some(id) =>
         id in s.book.orders && c.id == id
         && var o := s.book.orders[id];
            c.symbol == o.symbol && c.side == o.side && c.quantity == o.quantity
            && c.orderType == o.orderType && c.limitPrice == o.limitPrice && c.clientId == o.clientId
  }

  /** The call is one this operation asks for. */
  ghost predicate AskedFor(op: Op, s: Engine, c: BrokerCall) {
    match op
    case RiskApproved(i, _) => GoesThrough(s.processed, i) && Carries(c, s, i)
    case Manual(i, _) => Tradable(i) && Carries(c, s, i)
    case Resubmit(r, _) => Asks(c, s, r)
    case Flatten(_, _, held, _) => exists h :: h in held && Offsets(c, h.holding)
    case _ => false
  }

  /** The calls of an operation come after the earlier ones, and each is one it asks for; only a
      flatten makes more than one. */
  ghost predicate CallsAsked(op: Op, s: Engine, s': Engine) {
    && s.calls <= s'.calls
    && (forall j :: |s.calls| <= j < |s'.calls| ==> AskedFor(op, s, s'.calls[j]))
    && (!op.Flatten? ==> |s'.calls| <= |s.calls| + 1)
    && s'.brokers == s.brokers && s'.live == s.live
  }

  lemma DispatchAsks(s: Engine, id: nat, r: Request, m: Market)
    requires id in s.book.orders
    ensures var s' := Dispatch(s, id, r, m);
            && (s'.calls == s.calls || exists broker :: s'.calls == s.calls + [CallFor(s, id, broker, r)])
            && s'.brokers == s.brokers && s'.live == s.live
  {
    hide StatusUpdated, Unaffordable, SelectBroker, Named, CallFor;
  }

  lemma SubmitAsks(s: Engine, r: Request, m: Market)
    ensures var s' := SubmitOrder(s, r, m).engine;
            && (s'.calls == s.calls || exists c :: s'.calls == s.calls + [c] && Asks(c, s, r))
            && s'.brokers == s.brokers && s'.live == s.live
  {
    hide Dispatch, Pruned;
    if !(s.halted && !r.bypass) {
      var announced := if r.reuse.None? then WithNewOrder(s, r, m.now) else s.(events := s.events + [CreatedEvent(r.reuse.value)]);
      var id := if r.reuse.None? then s.book.nextId else r.reuse.value;
      if id in announced.book.orders {
        DispatchAsks(announced, id, r, m);
        assert forall broker :: Asks(CallFor(announced, id, broker, r), s, r);
      }
    }
  }

  lemma DealtIsAsked(e: Engine, i: Intent, m: Market, e': Engine, op: Op, s: Engine)
    requires i.quantity.Number? && Dealt(e, i, m, e') && e'.brokers == s.brokers && e'.live == s.live && !op.Flatten?
    requires e.calls == s.calls && (forall c :: Carries(c, e, i) ==> AskedFor(op, s, c))
    ensures CallsAsked(op, s, e')
  {
    hide Carries, AskedFor, AnySafe, Records;
  }

  lemma ManualAsks(s: Engine, i: Intent, m: Market)
    requires DistinctNames(s.brokers)
    ensures CallsAsked(Manual(i, m), s, HandleOrderIntent(s, i, m))
  {
    hide SubmitOrder, Dealt, Carries, CallsAsked;
    ManualIntentIsSentExactlyWhen(s, i, m);
    if Tradable(i) {
      SubmitAsks(s, RequestOf(i), m);
      DealtIsAsked(s, i, m, HandleOrderIntent(s, i, m), Manual(i, m), s);
    } else {
      NothingAsked(Manual(i, m), s, s);
    }
  }

  lemma ApprovedAsks(s: Engine, i: Intent, m: Market)
    requires DistinctNames(s.brokers)
    ensures CallsAsked(RiskApproved(i, m), s, HandleRiskApproved(s, i, m))
  {
    hide SubmitOrder, Dealt, CallsAsked;
    ApprovedIntentIsSentExactlyWhen(s, i, m);
    var e' := HandleRiskApproved(s, i, m);
    if GoesThrough(s.processed, i) {
      var noted := s.(processed := if i.correlationId == "" then s.processed else s.processed + {i.correlationId},
                      approved := s.approved + [i.correlationId]);
      assert e' == SubmitOrder(noted, RequestOf(i), m).engine;
      assert e'.processed == noted.processed;
      SubmitAsks(noted, RequestOf(i), m);
      assert forall c :: Carries(c, noted, i) ==> Carries(c, s, i);
      hide Carries;
      DealtIsAsked(noted, i, m, e', RiskApproved(i, m), s);
    } else {
      NothingAsked(RiskApproved(i, m), s, s);
    }
  }

  lemma FlattenAsks(s: Engine, ids: seq<nat>, replies: nat -> Option<bool>, held: seq<HeldPosition>, now: int)
    requires Inv(s)
    ensures CallsAsked(Flatten(ids, replies, held, now), s, Execution.EmergencyFlatten(s, ids, replies, held, now))
  {
    var op, s' := Flatten(ids, replies, held, now), Execution.EmergencyFlatten(s, ids, replies, held, now);
    FlattenKeepsBrokers(s, ids, replies, held, now);
    FlattenOutcome(s, ids, replies, held, now);
    hide Execution.EmergencyFlatten, Inv, AnyEligible, SelectBroker;
    assert s.calls <= s'.calls;
    forall j | |s.calls| <= j < |s'.calls| ensures AskedFor(op, s, s'.calls[j]) {
      assert s'.calls[j] == s'.calls[|s.calls|..][j - |s.calls|];
      var h := OpenOnly(held)[j - |s.calls|];
      assert Answers(s'.calls[j], s.brokers, s.live, h.holding) && h in held;
    }
  }

  lemma {:induction false} CloseAllKeepsBrokers(s: Engine, held: seq<HeldPosition>)
    ensures CloseAll(s, held).brokers == s.brokers && CloseAll(s, held).live == s.live
    decreases |held|
  {
    hide SubmitOrder;
    if held == [] {
    } else if held[0].holding.quantity == 0.0 {
      CloseAllKeepsBrokers(s, held[1..]);
    } else {
      SubmitAsks(s, FlattenRequest(held[0].holding), held[0].market);
      CloseAllKeepsBrokers(SubmitOrder(s, FlattenRequest(held[0].holding), held[0].market).engine, held[1..]);
    }
  }

  lemma FlattenKeepsBrokers(s: Engine, ids: seq<nat>, replies: nat -> Option<bool>, held: seq<HeldPosition>, now: int)
    ensures var s' := Execution.EmergencyFlatten(s, ids, replies, held, now); s'.brokers == s.brokers && s'.live == s.live
  {
    hide CloseAll, CancelAll;
    CancelAllClears(Halt(s), ids, replies, now);
    CloseAllKeepsBrokers(CancelAll(Halt(s), ids, replies, now), held);
  }

  lemma PollAsksNothing(s: Engine, id: nat, flight: Flight, report: Report, now: int)
    ensures var s' := PollOrder(s, id, flight, report, now).engine;
            s'.calls == s.calls && s'.brokers == s.brokers && s'.live == s.live
  {
    hide FillRecorded, StatusUpdated, Recorded;
  }

  lemma OpAsks(s: Engine, op: Op)
    requires Inv(s)
    ensures CallsAsked(op, s, Apply(s, op))
  {
    NamesOf(s);
    hide Inv, PollOrder, SubmitOrder, HandleRiskApproved, HandleOrderIntent, Execution.EmergencyFlatten, CallsAsked;
    match op
    case RiskApproved(i, m) => ApprovedAsks(s, i, m);
    case Manual(i, m) => ManualAsks(s, i, m);
    case Resubmit(r, m) => ResubmitAsks(s, r, m);
    case Flatten(ids, replies, held, now) => FlattenAsks(s, ids, replies, held, now);
    case Poll(id, report, now) =>
      if id in s.inFlight {
        PollAsksNothing(s, id, s.inFlight[id], report, now);
      }
      NothingAsked(op, s, Apply(s, op));
    case _ => NothingAsked(op, s, Apply(s, op));
  }

  /** An order submitted again under its own id: announced, and a broker is called with the order's
      terms iff the halt lets it pass, a safe broker is wired, and it is no buy over the buying power;
      if not, it is rejected without a call. An unknown id, or a halt, changes nothing. */
  lemma ResubmissionIsSentExactlyWhen(s: Engine, r: Request, m: Market, id: nat)
    requires DistinctNames(s.brokers) && r.reuse == Some(id)
    ensures var s' := SubmitOrder(s, r, m).engine;
            if (s.halted && !r.bypass) || id !in s.book.orders then s' == s
            else
              && |s'.events| > |s.events| && s'.events[..|s.events| + 1] == s.events + [CreatedEvent(id)]
              && if !AnySafe(s.brokers, s.live) || Dear(s.book.orders[id], r.referencePrice, m.buyingPower)
                 then s'.calls == s.calls && |s'.events| == |s.events| + 2 && s'.events[|s.events| + 1].RejectedEvent?
                 else |s'.calls| == |s.calls| + 1 && s.calls <= s'.calls && Asks(s'.calls[|s.calls|], s, r)
  {
    if !(s.halted && !r.bypass) && id in s.book.orders {
      var announced := s.(events := s.events + [CreatedEvent(id)]);
      assert SubmitOrder(s, r, m).engine == Dispatch(announced, id, r, m);
      hide Dispatch, SubmitOrder, AnySafe, Dear;
      DispatchIsDecided(announced, id, r, m);
    }
  }

  lemma DispatchIsDecided(s: Engine, id: nat, r: Request, m: Market)
    requires DistinctNames(s.brokers) && id in s.book.orders
    ensures var s' := Dispatch(s, id, r, m);
            && s.events <= s'.events
            && if !AnySafe(s.brokers, s.live) || Dear(s.book.orders[id], r.referencePrice, m.buyingPower)
               then s'.calls == s.calls && |s'.events| == |s.events| + 1 && s'.events[|s.events|].RejectedEvent?
               else exists broker :: s'.calls == s.calls + [CallFor(s, id, broker, r)]
  {
    ChoiceIsFirst(s.brokers, s.live, s.book.orders[id].symbol);
    assert Unaffordable(s.book.orders[id], r.referencePrice, m.buyingPower)
      <==> Dear(s.book.orders[id], r.referencePrice, m.buyingPower);
    hide SelectBroker, Named, AnySafe, StatusUpdated, FirstChoice, Unaffordable, Dear, CallFor;
  }

  /** A buy order that costs more than the account has, at its limit or else at the reference price. */
  predicate Dear(o: Order, reference: Option<real>, buyingPower: Option<real>) {
    var price := match o.limitPrice case Some(limit) => Some(limit) case None => reference;
    o.side == "buy" && price.Some? && price.value > 0.0 && buyingPower.Some? && o.quantity * price.value > buyingPower.value
  }

  lemma ResubmitAsks(s: Engine, r: Request, m: Market)
    ensures CallsAsked(Resubmit(r, m), s, SubmitOrder(s, r, m).engine)
  {
    SubmitAsks(s, r, m);
    hide SubmitOrder, Asks;
  }

  lemma NothingAsked(op: Op, s: Engine, s': Engine)
    requires s'.calls == s.calls && s'.brokers == s.brokers && s'.live == s.live
    ensures CallsAsked(op, s, s')
  {
  }

  /** The engine after the first k operations of a run. */
  function After(brokers: seq<Broker>, live: bool, ops: seq<Op>, k: nat): Engine
    requires k <= |ops|
  {
    Run(Start(brokers, live), ops[..k])
  }

  lemma StartOfRun(brokers: seq<Broker>, live: bool, ops: seq<Op>)
    ensures After(brokers, live, ops, 0) == Start(brokers, live)
  {
  }

  lemma StepOfRun(brokers: seq<Broker>, live: bool, ops: seq<Op>, k: nat)
    requires DistinctNames(brokers) && k < |ops|
    ensures After(brokers, live, ops, k + 1) == Apply(After(brokers, live, ops, k), ops[k])
    ensures Inv(After(brokers, live, ops, k))
  {
    assert ops[..k + 1][..k] == ops[..k];
    RunKeepsInv(brokers, live, ops[..k]);
    hide Inv, Apply;
  }

  /** In every run, every call a broker ever got is one that some operation asked for, with the
      terms of its message: symbol, side, quantity, type, limit price and correlation id. */
  lemma {:induction false} EveryCallWasAskedFor(brokers: seq<Broker>, live: bool, ops: seq<Op>, n: nat, j: nat) returns (k: nat)
    requires DistinctNames(brokers) && n <= |ops| && j < |After(brokers, live, ops, n).calls|
    ensures k < n
    ensures var before, after := After(brokers, live, ops, k), After(brokers, live, ops, k + 1);
            && |before.calls| <= j < |after.calls| && AskedFor(ops[k], before, after.calls[j])
            && After(brokers, live, ops, n).calls[j] == after.calls[j]
    decreases n
  {
    StartOfRun(brokers, live, ops);
    hide After, AskedFor, Inv, Apply;
    if n > 0 {
      StepOfRun(brokers, live, ops, n - 1);
      OpAsks(After(brokers, live, ops, n - 1), ops[n - 1]);
      if j < |After(brokers, live, ops, n - 1).calls| {
        k := EveryCallWasAskedFor(brokers, live, ops, n - 1, j);
      } else {
        k := n - 1;
      }
    }
  }

  /** A risk-approved message that makes an order and carries this correlation id. */
  predicate Marks(op: Op, correlationId: string) {
    op.RiskApproved? && correlationId != "" && op.intent.correlationId == correlationId && Tradable(op.intent)
  }

  lemma HandlerMarks(e: Engine, op: Op, correlationId: string)
    ensures correlationId in Apply(e, op).processed <==> correlationId in e.processed || Marks(op, correlationId)
  {
    hide SubmitOrder, CancelAll, CloseAll, PollOrder;
    if op.RiskApproved? {
      var i := op.intent;
      if GoesThrough(e.processed, i) {
        var noted := e.(processed := if i.correlationId == "" then e.processed else e.processed + {i.correlationId},
                        approved := e.approved + [i.correlationId]);
        ExactlyOnce.SubmitKeepsDedupe(noted, RequestOf(i), op.market);
      }
    } else {
      hide Apply;
      ExactlyOnce.MeanwhileKeepsDedupe(e, op);
    }
  }

  /** What the dedupe set holds in a run: the correlation ids of the messages handled so far. */
  lemma {:induction false} MarkedExactlyWhen(brokers: seq<Broker>, live: bool, ops: seq<Op>, n: nat, correlationId: string)
    requires DistinctNames(brokers) && n <= |ops|
    ensures correlationId in After(brokers, live, ops, n).processed <==> exists k :: 0 <= k < n && Marks(ops[k], correlationId)
  {
    StartOfRun(brokers, live, ops);
    hide After, Apply, Inv, Marks;
    if n > 0 {
      MarkedExactlyWhen(brokers, live, ops, n - 1, correlationId);
      StepOfRun(brokers, live, ops, n - 1);
      HandlerMarks(After(brokers, live, ops, n - 1), ops[n - 1], correlationId);
      assert forall k :: 0 <= k < n && Marks(ops[k], correlationId) ==> k == n - 1 || 0 <= k < n - 1;
    }
  }

  /** In every run, every message is dealt with as its fields say: a risk-approved one if it makes
      an order and no earlier one that did carries its correlation id, a manual one if it makes an
      order. Any other message changes nothing. */
  lemma EveryIntentIsDealtWith(brokers: seq<Broker>, live: bool, ops: seq<Op>, k: nat, i: Intent, m: Market)
    requires DistinctNames(brokers) && k < |ops| && (ops[k] == RiskApproved(i, m) || ops[k] == Manual(i, m))
    ensures var e, e' := After(brokers, live, ops, k), After(brokers, live, ops, k + 1);
            if Tradable(i) && (ops[k].RiskApproved? ==> forall j :: 0 <= j < k ==> !Marks(ops[j], i.correlationId))
            then Dealt(e.(processed := e'.processed, approved := e'.approved), i, m, e')
            else e' == e
  {
    hide After, Inv, Dealt, HandleRiskApproved, HandleOrderIntent;
    StepOfRun(brokers, live, ops, k);
    var e := After(brokers, live, ops, k);
    NamesOf(e);
    if ops[k].RiskApproved? {
      MarkedExactlyWhen(brokers, live, ops, k, i.correlationId);
      ApprovedIntentIsSentExactlyWhen(e, i, m);
      if GoesThrough(e.processed, i) {
        ApprovedIsNoted(e, i, m);
      }
    } else {
      ManualIntentIsSentExactlyWhen(e, i, m);
      ManualNotesNothing(e, i, m);
    }
  }

  lemma ApprovedIsNoted(e: Engine, i: Intent, m: Market)
    requires GoesThrough(e.processed, i)
    ensures HandleRiskApproved(e, i, m).approved == e.approved + [i.correlationId]
  {
    hide SubmitOrder;
    ExactlyOnce.SubmitKeepsDedupe(e.(processed := if i.correlationId == "" then e.processed else e.processed + {i.correlationId},
                                     approved := e.approved + [i.correlationId]), RequestOf(i), m);
  }

  lemma ManualNotesNothing(e: Engine, i: Intent, m: Market)
    ensures var e' := HandleOrderIntent(e, i, m); e'.processed == e.processed && e'.approved == e.approved
  {
    hide SubmitOrder;
    if Tradable(i) {
      ExactlyOnce.SubmitKeepsDedupe(e, RequestOf(i), m);
    }
  }
}
