/**
  The consumer group feeding the execution engine: what at-least-once delivery and the
  engine's set of processed correlation ids give together.

  One stream of risk-approved messages, any number of consumers, one engine.  A restart ends
  the engine's lifetime: its memory is lost, Redis's is not.  `archive` keeps, for every ended
  lifetime, the correlation ids `submit_order` was called for.
 */
module ExactlyOnce {
  import opened Wrappers
  import opened ConsumerGroup
  import opened Execution
  import opened Router
  import opened Orders
  import Fills

  datatype Payload = Garbage | Approved(intent: Intent)

  datatype System = System(
    bus: Bus,
    log: seq<Payload>,
    engine: Engine,
    // history
    archive: seq<seq<string>>,
    acks: set<(nat, Id)>)

  datatype Act =
    | PublishMessage(payload: Payload)
    /** Bus steps that neither involve the handler nor ack. */
    | Redis(action: Action)
    /** The head of a batch is looked at: dead-lettered, found undecodable, or handed to
        `_handle_risk_approved`, which runs up to its first await. */
    | Handle(c: string, market: Market)
    | Return(c: string)
    | AckNow(c: string)
    /** Anything else the engine does in between. */
    | Meanwhile(op: Op)
    | Restart

  datatype Moved = To(system: System) | Blocked

  function Boot(brokers: seq<Broker>, live: bool): System {
    System(INITIAL, [], Start(brokers, live), [], {})
  }

  predicate Plain(a: Action) {
    a.Tick? || a.ReadNew? || a.AutoClaim? || a.AskPending? || a.AckFails? || a.Done? || a.Abort?
  }

  predicate Unrelated(op: Op) {
    !op.RiskApproved?
  }

  function HandleHead(s: System, c: string, m: Market): Moved {
    var w := WorkerOf(s.bus, c);
    if !w.Batch? || w.copies == [] || w.copies[0].id >= |s.log| then Blocked
    else if IsPoison(w.source, w.copies[0].id) then To(s.(bus := DeadLetter(s.bus, c)))
    else match s.log[w.copies[0].id]
      case Garbage => To(s.(bus := SetWorker(s.bus, c, Batch(w.copies[1..], w.source))))
      case Approved(intent) =>
        var handling := StartHandler(s.bus, c);
        if Judge(s.engine.processed, intent) == Crashes
        then To(s.(bus := SetWorker(handling, c, Batch(w.copies[1..], w.source))))
        else To(s.(bus := handling, engine := HandleRiskApproved(s.engine, intent, m)))
  }

  function Lifetime(s: System): nat { |s.archive| }

  function Move(s: System, a: Act): Moved {
    match a
    case PublishMessage(p) => To(s.(bus := s.bus.(published := s.bus.published + 1), log := s.log + [p]))
    case Redis(action) =>
      if Plain(action) && Next(s.bus, action).Enabled? then To(s.(bus := Next(s.bus, action).bus)) else Blocked
    case Handle(c, m) => HandleHead(s, c, m)
    case Return(c) =>
      if Next(s.bus, HandlerReturns(c)).Enabled? then To(s.(bus := Next(s.bus, HandlerReturns(c)).bus)) else Blocked
    case AckNow(c) =>
      if !WorkerOf(s.bus, c).Returned? then Blocked
      else To(s.(bus := Next(s.bus, Ack(c)).bus, acks := s.acks + {(Lifetime(s), WorkerOf(s.bus, c).copy.id)}))
    case Meanwhile(op) => if Unrelated(op) then To(s.(engine := Apply(s.engine, op))) else Blocked
    case Restart =>
      To(s.(bus := s.bus.(workers := map[]), engine := Start(s.engine.brokers, s.engine.live),
            archive := s.archive + [s.engine.approved]))
  }

  function Trace(s: System, acts: seq<Act>): Moved
    decreases |acts|
  {
    if acts == [] then To(s)
    else match Trace(s, acts[..|acts| - 1])
      case Blocked => Blocked
      case To(s') => Move(s', acts[|acts| - 1])
  }

  /** The correlation ids `submit_order` was called for in one lifetime, in order. */
  function SubmittedIn(s: System, lifetime: nat): seq<string> {
    if lifetime < |s.archive| then s.archive[lifetime] else if lifetime == |s.archive| then s.engine.approved else []
  }

  function Count(ids: seq<string>, id: string): nat {
    if ids == [] then 0 else Count(ids[..|ids| - 1], id) + if ids[|ids| - 1] == id then 1 else 0
  }

  /** A message the handler goes through with: it decodes, names a symbol and a side, has a
      positive quantity, and carries a correlation id. */
  predicate WellFormed(p: Payload) {
    && p.Approved? && p.intent.correlationId != "" && p.intent.symbol != "" && p.intent.side != ""
    && p.intent.quantity.Number? && p.intent.quantity.value > 0.0
  }

  // ---------------------------------------------------------------- the invariant

  ghost predicate DedupeOk(approved: seq<string>, processed: set<string>) {
    && (forall id :: id in processed <==> id != "" && id in approved)
    && (forall id :: id != "" ==> Count(approved, id) <= 1)
  }

  ghost predicate ArchiveOk(archive: seq<seq<string>>) {
    forall i :: 0 <= i < |archive| ==> forall id :: id != "" ==> Count(archive[i], id) <= 1
  }

  /** A well-formed message some consumer's handler has started on in this lifetime. */
  ghost predicate HandledOk(bus: Bus, log: seq<Payload>, processed: set<string>) {
    forall c :: c in bus.workers && (bus.workers[c].Running? || bus.workers[c].Returned?) ==>
      var id := bus.workers[c].copy.id;
      id < |log| && (WellFormed(log[id]) ==> log[id].intent.correlationId in processed)
  }

  ghost predicate AcksOk(s: System) {
    forall a :: a in s.acks ==>
      && a.0 <= |s.archive| && a.1 < |s.log|
      && (WellFormed(s.log[a.1]) ==> s.log[a.1].intent.correlationId in SubmittedIn(s, a.0))
  }

  ghost predicate SystemOk(s: System) {
    && Inv(s.bus) && s.bus.published == |s.log|
    && DedupeOk(s.engine.approved, s.engine.processed)
    && ArchiveOk(s.archive)
    && HandledOk(s.bus, s.log, s.engine.processed)
    && AcksOk(s)
  }

  lemma {:induction false} CountAppend(ids: seq<string>, x: string, id: string)
    ensures Count(ids + [x], id) == Count(ids, id) + if x == id then 1 else 0
  {
    assert (ids + [x])[..|ids|] == ids;
  }

  lemma {:induction false} CountZeroIffAbsent(ids: seq<string>, id: string)
    ensures Count(ids, id) == 0 <==> id !in ids
  {
    if ids == [] {
    } else {
      CountZeroIffAbsent(ids[..|ids| - 1], id);
      assert ids == ids[..|ids| - 1] + [ids[|ids| - 1]];
    }
  }

  // ---------------------------------------------------------------- what the engine does to it

  /** Two engines that differ at most in what a submission changes. */
  predicate SameMemory(e: Engine, e': Engine) {
    e'.approved == e.approved && e'.processed == e.processed && e'.brokers == e.brokers && e'.live == e.live
  }

  lemma DispatchOutcome(e: Engine, id: nat, r: Request, m: Market)
    requires id in e.book.orders
    ensures SameMemory(e, Dispatch(e, id, r, m))
    ensures var calls := Dispatch(e, id, r, m).calls;
            calls == e.calls || exists c :: calls == e.calls + [c] && c.clientId == e.book.orders[id].clientId
  {
    hide StatusUpdated, Unaffordable, SelectBroker, Named;
    var choice := SelectBroker(e.brokers, e.live, e.book.orders[id].symbol);
    if choice.Some? && Named(e.brokers, choice.value).Some? {
      assert CallFor(e, id, Named(e.brokers, choice.value).value, r).clientId == e.book.orders[id].clientId;
    }
  }

  lemma SubmitKeepsDedupe(e: Engine, r: Request, m: Market)
    ensures SameMemory(e, SubmitOrder(e, r, m).engine)
  {
    hide Dispatch, OrderCreated;
    if !(e.halted && !r.bypass) {
      match r.reuse
      case None =>
        var o := NewOrder(r.symbol, r.side, r.orderType, r.quantity, r.limitPrice, r.clientId, m.now);
        DispatchOutcome(e.(book := OrderCreated(e.book, o, m.now), events := e.events + [CreatedEvent(e.book.nextId)]),
                        e.book.nextId, r, m) by { CreatedIsKnown(e.book, o, m.now); }
      case Some(id) =>
        if id in e.book.orders {
          DispatchOutcome(e.(events := e.events + [CreatedEvent(id)]), id, r, m);
        }
    }
  }

  lemma CreatedIsKnown(b: Book, o: Order, now: int)
    ensures b.nextId in OrderCreated(b, o, now).orders && OrderCreated(b, o, now).orders[b.nextId] == o
  {
  }

  lemma {:induction false} CancelAllKeepsDedupe(e: Engine, ids: seq<nat>, replies: nat -> Option<bool>, now: int)
    ensures var e' := CancelAll(e, ids, replies, now); e'.approved == e.approved && e'.processed == e.processed
    decreases |ids|
  {
    if ids == [] {
    } else {
      CancelAllKeepsDedupe(CancelOrder(e, ids[0], replies(ids[0]), now), ids[1..], replies, now);
    }
  }

  lemma {:induction false} CloseAllKeepsDedupe(e: Engine, held: seq<HeldPosition>)
    ensures var e' := CloseAll(e, held); e'.approved == e.approved && e'.processed == e.processed
    decreases |held|
  {
    hide SubmitOrder;
    if held == [] {
    } else if held[0].holding.quantity == 0.0 {
      CloseAllKeepsDedupe(e, held[1..]);
    } else {
      SubmitKeepsDedupe(e, FlattenRequest(held[0].holding), held[0].market);
      CloseAllKeepsDedupe(SubmitOrder(e, FlattenRequest(held[0].holding), held[0].market).engine, held[1..]);
    }
  }

  lemma MeanwhileKeepsDedupe(e: Engine, op: Op)
    requires Unrelated(op)
    ensures Apply(e, op).approved == e.approved && Apply(e, op).processed == e.processed
  {
    hide SubmitOrder, CancelAll, CloseAll;
    match op
    case Manual(i, m) => if Judge({}, i) == Submits { SubmitKeepsDedupe(e, RequestOf(i), m); }
    case Resubmit(r, m) => SubmitKeepsDedupe(e, r, m);
    case Flatten(ids, replies, held, now) =>
      CancelAllKeepsDedupe(Halt(e), ids, replies, now);
      CloseAllKeepsDedupe(CancelAll(Halt(e), ids, replies, now), held);
    case Cancel(_, _, _) =>
    case Poll(_, _, _) =>
    case ControlHalt =>
    case ControlResume =>
  }

  /** The check and the addition of a correlation id are one atomic step. */
  lemma HandlerAdmitsOnce(e: Engine, i: Intent, m: Market)
    requires DedupeOk(e.approved, e.processed)
    ensures var e' := HandleRiskApproved(e, i, m);
            && DedupeOk(e'.approved, e'.processed)
            && e.processed <= e'.processed
            && (forall id :: id in e.approved ==> id in e'.approved)
            && (WellFormed(Approved(i)) ==> i.correlationId in e'.processed)
  {
    if Judge(e.processed, i) == Submits {
      var noted := e.(processed := if i.correlationId == "" then e.processed else e.processed + {i.correlationId},
                      approved := e.approved + [i.correlationId]);
      SubmitKeepsDedupe(noted, RequestOf(i), m);
      CountZeroIffAbsent(e.approved, i.correlationId);
      forall id | id != "" ensures Count(noted.approved, id) <= 1 {
        CountAppend(e.approved, i.correlationId, id);
      }
    }
  }

  // ---------------------------------------------------------------- every act keeps the invariant

  lemma PlainStartsNoHandler(b: Bus, a: Action)
    requires Plain(a) && Next(b, a).Enabled?
    ensures var b' := Next(b, a).bus;
            && b'.published == b.published
            && forall c :: c in b'.workers && (b'.workers[c].Running? || b'.workers[c].Returned?) ==>
                 c in b.workers && b'.workers[c] == b.workers[c]
  {
  }

  lemma HandleKeepsOk(s: System, c: string, m: Market)
    requires SystemOk(s) && HandleHead(s, c, m).To?
    ensures SystemOk(HandleHead(s, c, m).system)
  {
    hide Inv, DeadLetter, StartHandler, HandleRiskApproved, DedupeOk;
    var w := WorkerOf(s.bus, c);
    var s' := HandleHead(s, c, m).system;
    var x := w.copies[0];
    DeliverShape(s.bus, c);
    if IsPoison(w.source, x.id) {
      NextKeepsInv(s.bus, Deliver(c));
    } else if s.log[x.id].Garbage? {
      NextKeepsInv(s.bus, DecodeFails(c));
    } else {
      var i := s.log[x.id].intent;
      NextKeepsInv(s.bus, Deliver(c));
      if Judge(s.engine.processed, i) == Crashes {
        NextKeepsInv(StartHandler(s.bus, c), HandlerRaises(c));
      } else {
        HandlerAdmitsOnce(s.engine, i, m);
      }
    }
  }

  lemma DeliverShape(b: Bus, c: string)
    requires WorkerOf(b, c).Batch? && WorkerOf(b, c).copies != []
    ensures var w := WorkerOf(b, c);
            && (IsPoison(w.source, w.copies[0].id) ==>
                  && Next(b, Deliver(c)) == Enabled(DeadLetter(b, c))
                  && DeadLetter(b, c).published == b.published
                  && DeadLetter(b, c).workers == b.workers[c := Batch(w.copies[1..], w.source)])
            && (!IsPoison(w.source, w.copies[0].id) ==>
                  && Next(b, Deliver(c)) == Enabled(StartHandler(b, c))
                  && Next(b, DecodeFails(c)) == Enabled(SetWorker(b, c, Batch(w.copies[1..], w.source)))
                  && StartHandler(b, c).published == b.published
                  && StartHandler(b, c).workers == b.workers[c := Running(w.copies[0], w.copies[1..], w.source)])
            && (Next(StartHandler(b, c), HandlerRaises(c))
                == Enabled(SetWorker(StartHandler(b, c), c, Batch(w.copies[1..], w.source))))
  {
  }

  lemma IdleKeepsInv(b: Bus)
    requires Inv(b)
    ensures Inv(b.(workers := map[]))
  {
  }

  lemma AckKeepsOk(s: System, c: string)
    requires SystemOk(s) && Move(s, AckNow(c)).To?
    ensures SystemOk(Move(s, AckNow(c)).system)
  {
    hide Inv;
    NextKeepsInv(s.bus, Ack(c));
    var s' := Move(s, AckNow(c)).system;
    assert forall d :: d in s'.bus.workers && d != c ==> s'.bus.workers[d] == s.bus.workers[d];
    var id := s.bus.workers[c].copy.id;
    assert id < |s.log|;
  }

  lemma RestartKeepsOk(s: System)
    requires SystemOk(s)
    ensures SystemOk(Move(s, Restart).system)
  {
    IdleKeepsInv(s.bus);
    hide Inv;
    var s' := Move(s, Restart).system;
    forall a | a in s.acks && WellFormed(s.log[a.1]) ensures s.log[a.1].intent.correlationId in SubmittedIn(s', a.0) {
      assert SubmittedIn(s', a.0) == SubmittedIn(s, a.0);
    }
  }

  lemma MoveKeepsOk(s: System, a: Act)
    requires SystemOk(s) && Move(s, a).To?
    ensures SystemOk(Move(s, a).system)
  {
    hide Inv, DedupeOk;
    var s' := Move(s, a).system;
    match a
    case PublishMessage(p) => NextKeepsInv(s.bus, Publish);
    case Redis(action) =>
      NextKeepsInv(s.bus, action);
      PlainStartsNoHandler(s.bus, action);
    case Handle(c, m) => HandleKeepsOk(s, c, m);
    case Return(c) =>
      NextKeepsInv(s.bus, HandlerReturns(c));
      assert forall d :: d in s'.bus.workers && d != c ==> s'.bus.workers[d] == s.bus.workers[d];
    case AckNow(c) => AckKeepsOk(s, c);
    case Meanwhile(op) => MeanwhileKeepsDedupe(s.engine, op);
    case Restart => RestartKeepsOk(s);
  }

  lemma {:induction false} TraceKeepsOk(brokers: seq<Broker>, live: bool, acts: seq<Act>)
    requires Trace(Boot(brokers, live), acts).To?
    ensures SystemOk(Trace(Boot(brokers, live), acts).system)
    decreases |acts|
  {
    if acts == [] {
      InitialInv();
    } else {
      TraceKeepsOk(brokers, live, acts[..|acts| - 1]);
      MoveKeepsOk(Trace(Boot(brokers, live), acts[..|acts| - 1]).system, acts[|acts| - 1]);
    }
  }

  // ---------------------------------------------------------------- the guarantees

  /** Under every interleaving of deliveries, crashes, claims and restarts, `submit_order` is
      called at most once per correlation id in each lifetime of the engine. */
  lemma AtMostOncePerLifetime(brokers: seq<Broker>, live: bool, acts: seq<Act>, lifetime: nat, corr: string)
    requires Trace(Boot(brokers, live), acts).To? && corr != ""
    ensures Count(SubmittedIn(Trace(Boot(brokers, live), acts).system, lifetime), corr) <= 1
  {
    hide Inv;
    TraceKeepsOk(brokers, live, acts);
  }

  /** A well-formed message that was acked after its handler returned was submitted exactly
      once in the lifetime that acked it. */
  lemma ExactlyOnceWhenAcked(brokers: seq<Broker>, live: bool, acts: seq<Act>, lifetime: nat, id: Id)
    requires Trace(Boot(brokers, live), acts).To?
    requires (lifetime, id) in Trace(Boot(brokers, live), acts).system.acks
    ensures var s := Trace(Boot(brokers, live), acts).system;
            && id < |s.log|
            && (WellFormed(s.log[id]) ==> Count(SubmittedIn(s, lifetime), s.log[id].intent.correlationId) == 1)
  {
    hide Inv;
    TraceKeepsOk(brokers, live, acts);
    var s := Trace(Boot(brokers, live), acts).system;
    if WellFormed(s.log[id]) {
      CountZeroIffAbsent(SubmittedIn(s, lifetime), s.log[id].intent.correlationId);
    }
  }

  ghost predicate Acknowledged(s: System, id: Id) {
    exists lifetime :: (lifetime, id) in s.acks
  }

  /** Whatever Redis has acked was dead-lettered or acked by a consumer in some lifetime. */
  ghost predicate AcksRecorded(s: System) {
    forall id :: id in s.bus.acked ==> id in s.bus.deadLettered || Acknowledged(s, id)
  }

  lemma PlainAcksNothing(b: Bus, a: Action)
    requires (Plain(a) || a.HandlerReturns?) && Next(b, a).Enabled?
    ensures Next(b, a).bus.acked == b.acked && Next(b, a).bus.deadLettered == b.deadLettered
  {
  }

  lemma HeadAcksPoison(s: System, c: string, m: Market)
    requires HandleHead(s, c, m).To?
    ensures var s' := HandleHead(s, c, m).system;
            && s'.acks == s.acks
            && (forall id :: id in s'.bus.acked ==> id in s.bus.acked || id in s'.bus.deadLettered)
            && (forall id :: id in s.bus.deadLettered ==> id in s'.bus.deadLettered)
  {
    hide HandleRiskApproved, IsPoison;
  }

  lemma MoveRecordsAcks(s: System, a: Act)
    requires AcksRecorded(s) && Move(s, a).To?
    ensures AcksRecorded(Move(s, a).system)
  {
    hide Next, HandleHead, Apply;
    var s' := Move(s, a).system;
    match a
    case PublishMessage(_) =>
    case Redis(action) => PlainAcksNothing(s.bus, action);
    case Handle(c, m) => HeadAcksPoison(s, c, m);
    case Return(c) => PlainAcksNothing(s.bus, HandlerReturns(c));
    case AckNow(c) =>
      AckAcks(s.bus, c);
      assert (Lifetime(s), WorkerOf(s.bus, c).copy.id) in s'.acks;
    case Meanwhile(_) =>
    case Restart =>
    forall id | id in s'.bus.acked ensures id in s'.bus.deadLettered || Acknowledged(s', id) {
      if id in s.bus.acked && id !in s.bus.deadLettered {
        var lifetime :| (lifetime, id) in s.acks;
        assert (lifetime, id) in s'.acks;
      }
    }
  }

  lemma AckAcks(b: Bus, c: string)
    requires WorkerOf(b, c).Returned?
    ensures var b' := Next(b, Ack(c)).bus;
            Next(b, Ack(c)).Enabled? && b'.acked == b.acked + {WorkerOf(b, c).copy.id} && b'.deadLettered == b.deadLettered
  {
  }

  lemma {:induction false} TraceRecordsAcks(brokers: seq<Broker>, live: bool, acts: seq<Act>)
    requires Trace(Boot(brokers, live), acts).To?
    ensures AcksRecorded(Trace(Boot(brokers, live), acts).system)
    decreases |acts|
  {
    hide Move, AcksRecorded;
    if acts == [] {
      NothingIsAcked(brokers, live);
    } else {
      TraceRecordsAcks(brokers, live, acts[..|acts| - 1]);
      MoveRecordsAcks(Trace(Boot(brokers, live), acts[..|acts| - 1]).system, acts[|acts| - 1]);
    }
  }

  lemma NothingIsAcked(brokers: seq<Broker>, live: bool)
    ensures AcksRecorded(Boot(brokers, live))
  {
  }

  /** So in every trace a well-formed message that Redis has acked, and that was not dead-lettered,
      was submitted exactly once in some lifetime. */
  lemma AckedMeansSubmittedOnce(brokers: seq<Broker>, live: bool, acts: seq<Act>, id: Id) returns (lifetime: nat)
    requires Trace(Boot(brokers, live), acts).To?
    requires var s := Trace(Boot(brokers, live), acts).system;
             id in s.bus.acked && id !in s.bus.deadLettered && id < |s.log| && WellFormed(s.log[id])
    ensures var s := Trace(Boot(brokers, live), acts).system;
            Count(SubmittedIn(s, lifetime), s.log[id].intent.correlationId) == 1
  {
    TraceRecordsAcks(brokers, live, acts);
    var s := Trace(Boot(brokers, live), acts).system;
    assert Acknowledged(s, id);
    lifetime :| (lifetime, id) in s.acks;
    hide Trace, SubmittedIn, Count;
    ExactlyOnceWhenAcked(brokers, live, acts, lifetime, id);
  }

  // ---------------------------------------------------------------- down to the broker

  function CallsFor(calls: seq<BrokerCall>, corr: string): nat {
    if calls == [] then 0
    else CallsFor(calls[..|calls| - 1], corr) + if calls[|calls| - 1].clientId == Some(corr) then 1 else 0
  }

  lemma CallsAppend(calls: seq<BrokerCall>, c: BrokerCall, corr: string)
    ensures CallsFor(calls + [c], corr) == CallsFor(calls, corr) + if c.clientId == Some(corr) then 1 else 0
  {
    assert (calls + [c])[..|calls|] == calls;
  }

  /** Operations other than the risk-approved handler that do not reuse its correlation id. */
  predicate Avoids(op: Op, corr: string) {
    && Unrelated(op)
    && (op.Manual? ==> op.intent.correlationId != corr)
    && (op.Resubmit? ==> op.request.reuse.None? && op.request.clientId != Some(corr))
  }

  /** One submission calls a broker at most once, under the client id it was given. */
  lemma SubmitCallsOnce(e: Engine, r: Request, m: Market, corr: string)
    requires r.reuse.None?
    ensures CallsFor(SubmitOrder(e, r, m).engine.calls, corr)
            <= CallsFor(e.calls, corr) + if r.clientId == Some(corr) then 1 else 0
  {
    hide Dispatch, OrderCreated;
    if !(e.halted && !r.bypass) {
      var o := NewOrder(r.symbol, r.side, r.orderType, r.quantity, r.limitPrice, r.clientId, m.now);
      var created := e.(book := OrderCreated(e.book, o, m.now), events := e.events + [CreatedEvent(e.book.nextId)]);
      CreatedIsKnown(e.book, o, m.now);
      DispatchOutcome(created, e.book.nextId, r, m);
      var calls := Dispatch(created, e.book.nextId, r, m).calls;
      if calls != e.calls {
        var c :| calls == e.calls + [c] && c.clientId == o.clientId;
        CallsAppend(e.calls, c, corr);
      }
    }
  }

  lemma {:induction false} CloseAllCallsNobody(e: Engine, held: seq<HeldPosition>, corr: string)
    ensures CallsFor(CloseAll(e, held).calls, corr) <= CallsFor(e.calls, corr)
    decreases |held|
  {
    hide SubmitOrder, CallsFor;
    if held == [] {
    } else if held[0].holding.quantity == 0.0 {
      CloseAllCallsNobody(e, held[1..], corr);
    } else {
      SubmitCallsOnce(e, FlattenRequest(held[0].holding), held[0].market, corr);
      CloseAllCallsNobody(SubmitOrder(e, FlattenRequest(held[0].holding), held[0].market).engine, held[1..], corr);
    }
  }

  lemma {:induction false} CancelAllCallsNobody(e: Engine, ids: seq<nat>, replies: nat -> Option<bool>, now: int)
    ensures CancelAll(e, ids, replies, now).calls == e.calls
    decreases |ids|
  {
    if ids == [] {
    } else {
      CancelAllCallsNobody(CancelOrder(e, ids[0], replies(ids[0]), now), ids[1..], replies, now);
    }
  }

  lemma MeanwhileCallsNobody(e: Engine, op: Op, corr: string)
    requires Avoids(op, corr) && corr != ""
    ensures CallsFor(Apply(e, op).calls, corr) <= CallsFor(e.calls, corr)
  {
    hide SubmitOrder, CancelAll, CloseAll, CallsFor;
    match op
    case Manual(i, m) => if Judge({}, i) == Submits { SubmitCallsOnce(e, RequestOf(i), m, corr); }
    case Resubmit(r, m) => SubmitCallsOnce(e, r, m, corr);
    case Flatten(ids, replies, held, now) =>
      CancelAllCallsNobody(Halt(e), ids, replies, now);
      CloseAllCallsNobody(CancelAll(Halt(e), ids, replies, now), held, corr);
    case Cancel(_, _, _) =>
    case Poll(_, _, _) =>
    case ControlHalt =>
    case ControlResume =>
  }

  lemma HandlerCallsOnce(e: Engine, i: Intent, m: Market, corr: string)
    requires CallsFor(e.calls, corr) <= Count(e.approved, corr) && corr != ""
    ensures var e' := HandleRiskApproved(e, i, m); CallsFor(e'.calls, corr) <= Count(e'.approved, corr)
  {
    if Judge(e.processed, i) == Submits {
      var noted := e.(processed := if i.correlationId == "" then e.processed else e.processed + {i.correlationId},
                      approved := e.approved + [i.correlationId]);
      SubmitKeepsDedupe(noted, RequestOf(i), m);
      SubmitCallsOnce(noted, RequestOf(i), m, corr);
      CountAppend(e.approved, i.correlationId, corr);
    }
  }

  lemma {:induction false} CallsFollowSubmissions(brokers: seq<Broker>, live: bool, acts: seq<Act>, corr: string)
    requires Trace(Boot(brokers, live), acts).To? && corr != ""
    requires forall i :: 0 <= i < |acts| && acts[i].Meanwhile? ==> Avoids(acts[i].op, corr)
    ensures var e := Trace(Boot(brokers, live), acts).system.engine; CallsFor(e.calls, corr) <= Count(e.approved, corr)
    decreases |acts|
  {
    hide CallsFor, Count, HandleRiskApproved, Apply, Next;
    if acts == [] {
      EmptyCounts(corr);
    } else {
      CallsFollowSubmissions(brokers, live, acts[..|acts| - 1], corr);
      var s := Trace(Boot(brokers, live), acts[..|acts| - 1]).system;
      match acts[|acts| - 1]
      case Handle(c, m) =>
        if HandleHead(s, c, m).system.engine != s.engine {
          HandlerCallsOnce(s.engine, s.log[WorkerOf(s.bus, c).copies[0].id].intent, m, corr);
        }
      case Meanwhile(op) =>
        MeanwhileKeepsDedupe(s.engine, op);
        MeanwhileCallsNobody(s.engine, op, corr);
      case PublishMessage(_) =>
      case Redis(_) =>
      case Return(_) =>
      case AckNow(_) =>
      case Restart => EmptyCounts(corr);
    }
  }

  lemma EmptyCounts(corr: string)
    ensures CallsFor([], corr) == 0 && Count([], corr) == 0
  {
  }

  /** However often a risk-approved message is redelivered, at most one order carrying its
      correlation id reaches a broker in a lifetime, unless a manual order borrows that id. */
  lemma AtMostOneOrderAtTheBroker(brokers: seq<Broker>, live: bool, acts: seq<Act>, corr: string)
    requires Trace(Boot(brokers, live), acts).To? && corr != ""
    requires forall i :: 0 <= i < |acts| && acts[i].Meanwhile? ==> Avoids(acts[i].op, corr)
    ensures CallsFor(Trace(Boot(brokers, live), acts).system.engine.calls, corr) <= 1
  {
    hide Inv, Trace;
    CallsFollowSubmissions(brokers, live, acts, corr);
    AtMostOncePerLifetime(brokers, live, acts, Lifetime(Trace(Boot(brokers, live), acts).system), corr);
  }
}
