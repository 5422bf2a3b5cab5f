/**
  What a restart costs: the set of processed correlation ids dies with the engine, Redis's pending
  entries do not.  A well-formed message can be submitted again in a later lifetime exactly when
  it was not acked at the restart.
 */
module Resubmission {
  import opened Sequences

  import opened ConsumerGroup
  import opened Execution
  import opened ExactlyOnce
  import opened Recovery
  import ClaimOrder

  /** The system right after a restart of the engine. */
  function Restarted(s: System): System {
    Move(s, Restart).system
  }

  // ---------------------------------------------------------------- continuations

  /** The system after some more acts. */
  function After(s: System, acts: seq<Act>): Moved
    decreases |acts|
  {
    if acts == [] then To(s)
    else match Move(s, acts[0])
      case Blocked => Blocked
      case To(s') => After(s', acts[1..])
  }

  /** It is the trace of those acts. */
  lemma {:induction false} AfterIsTrace(s: System, acts: seq<Act>)
    ensures After(s, acts) == Trace(s, acts)
    decreases |acts|
  {
    hide Move;
    if acts == [] {
    } else {
      var n := |acts| - 1;
      AfterIsTrace(s, acts[..n]);
      AfterSplits(s, acts[..n], acts[n..]);
      assert acts == acts[..n] + acts[n..] && acts[n..][1..] == [];
    }
  }

  lemma {:induction false} AfterSplits(s: System, a: seq<Act>, b: seq<Act>)
    ensures After(s, a + b) == if After(s, a).To? then After(After(s, a).system, b) else Blocked
    decreases |a|
  {
    hide Move;
    if a == [] {
      assert a + b == b;
    } else {
      assert (a + b)[1..] == a[1..] + b;
      if Move(s, a[0]).To? {
        AfterSplits(Move(s, a[0]).system, a[1..], b);
      }
    }
  }

  /** No other message carries the correlation id. */
  ghost predicate Sole(log: seq<Payload>, id: Id, corr: string) {
    forall i :: 0 <= i < |log| && i != id && log[i].Approved? ==> log[i].intent.correlationId != corr
  }

  /** A well-formed message that alone carries its correlation id. */
  ghost predicate Carries(s: System, id: Id, corr: string) {
    && id < |s.log| && WellFormed(s.log[id]) && s.log[id].intent.correlationId == corr
    && Sole(s.log, id, corr)
  }

  predicate Republishes(a: Act, corr: string) {
    a.PublishMessage? && a.payload.Approved? && a.payload.intent.correlationId == corr
  }

  lemma CarriesOn(s: System, a: Act, id: Id, corr: string)
    requires Carries(s, id, corr) && Move(s, a).To? && !Republishes(a, corr)
    ensures Carries(Move(s, a).system, id, corr)
  {
    hide Next, HandleRiskApproved, DeadLetter, StartHandler, Judge, Apply;
  }

  // ---------------------------------------------------------------- acked: never again

  /** The message is acked, nobody holds it, and no lifetime from `since` on has submitted it. */
  ghost predicate Over(s: System, id: Id, corr: string, since: nat) {
    && SystemOk(s) && Carries(s, id, corr) && Settled(s.bus, id)
    && since <= |s.archive|
    && forall lifetime: nat :: since <= lifetime ==> corr !in SubmittedIn(s, lifetime)
  }

  lemma SettledKept(s: System, a: Act, id: Id)
    requires Inv(s.bus) && Settled(s.bus, id) && Move(s, a).To?
    ensures Settled(Move(s, a).system.bus, id)
  {
    hide Inv, DeadLetter, StartHandler, HandleRiskApproved, Next, Apply;
    match a
    case PublishMessage(_) => PublishShape(s.bus); SettledStays(s.bus, Publish, id);
    case Redis(action) => SettledStays(s.bus, action, id);
    case Return(c) => SettledStays(s.bus, HandlerReturns(c), id);
    case AckNow(c) => AckShape(s.bus, c); SettledStays(s.bus, Ack(c), id);
    case Meanwhile(_) =>
    case Restart =>
    case Handle(c, m) =>
      DeliverShape(s.bus, c);
      var w := WorkerOf(s.bus, c);
      SettledStays(s.bus, Deliver(c), id);
      if !IsPoison(w.source, w.copies[0].id) {
        SettledStays(s.bus, DecodeFails(c), id);
        NextKeepsInv(s.bus, Deliver(c));
        SettledStays(StartHandler(s.bus, c), HandlerRaises(c), id);
      }
  }

  lemma PublishShape(b: Bus)
    ensures Next(b, Publish) == Enabled(b.(published := b.published + 1))
  {
  }

  lemma AckShape(b: Bus, c: string)
    requires WorkerOf(b, c).Returned?
    ensures Next(b, Ack(c)).Enabled?
  {
  }

  /** The handler of another message does not submit this one. */
  lemma OthersSubmitOthers(s: System, c: string, m: Market, id: Id, corr: string)
    requires Carries(s, id, corr) && corr !in s.engine.approved
    requires WorkerOf(s.bus, c).Batch? && WorkerOf(s.bus, c).copies != [] && WorkerOf(s.bus, c).copies[0].id != id
    requires HandleHead(s, c, m).To?
    ensures corr !in HandleHead(s, c, m).system.engine.approved
  {
    hide DeadLetter, StartHandler, IsPoison, HandleRiskApproved;
    var p := s.log[WorkerOf(s.bus, c).copies[0].id];
    if p.Approved? {
      HandlerAdds(s.engine, p.intent, m);
    }
  }

  lemma HandlerAdds(e: Engine, i: Intent, m: Market)
    ensures var e' := HandleRiskApproved(e, i, m);
            e'.approved == e.approved || e'.approved == e.approved + [i.correlationId]
  {
    if Judge(e.processed, i) == Submits {
      var noted := e.(processed := if i.correlationId == "" then e.processed else e.processed + {i.correlationId},
                      approved := e.approved + [i.correlationId]);
      SubmitKeepsDedupe(noted, RequestOf(i), m);
    }
  }

  lemma HandleLeaves(s: System, c: string, m: Market)
    requires HandleHead(s, c, m).To?
    ensures HandleHead(s, c, m).system.log == s.log && HandleHead(s, c, m).system.archive == s.archive
    ensures WorkerOf(s.bus, c).Batch? && WorkerOf(s.bus, c).copies != []
  {
    hide HandleRiskApproved, DeadLetter, StartHandler, IsPoison;
  }

  lemma HeadIsNotSettled(b: Bus, c: string, id: Id)
    requires Settled(b, id) && WorkerOf(b, c).Batch? && WorkerOf(b, c).copies != []
    ensures WorkerOf(b, c).copies[0].id != id
  {
    assert WorkerOf(b, c).copies[0] in Held(b.workers[c]);
  }

  /** No act submits a message that is over, and a restart only opens an empty lifetime. */
  lemma StillUnsubmitted(s: System, a: Act, id: Id, corr: string, since: nat)
    requires Over(s, id, corr, since) && Move(s, a).To? && !Republishes(a, corr)
    ensures var s' := Move(s, a).system;
            && |s.archive| <= |s'.archive|
            && forall lifetime: nat :: since <= lifetime ==> corr !in SubmittedIn(s', lifetime)
  {
    hide SystemOk, HandleHead, Next, Settled, Apply, HandleRiskApproved;
    var s' := Move(s, a).system;
    assert SubmittedIn(s, |s.archive|) == s.engine.approved;
    if a.Meanwhile? {
      MeanwhileKeepsDedupe(s.engine, a.op);
      assert forall lifetime: nat :: SubmittedIn(s', lifetime) == SubmittedIn(s, lifetime);
    } else if a.Restart? {
      assert forall lifetime: nat :: lifetime <= |s.archive| ==> SubmittedIn(s', lifetime) == SubmittedIn(s, lifetime);
    } else if a.Handle? {
      HandleLeaves(s, a.c, a.market);
      HeadIsNotSettled(s.bus, a.c, id);
      OthersSubmitOthers(s, a.c, a.market, id, corr);
      assert forall lifetime: nat :: lifetime != |s.archive| ==> SubmittedIn(s', lifetime) == SubmittedIn(s, lifetime);
    } else {
      assert s'.archive == s.archive && s'.engine == s.engine;
      assert forall lifetime: nat :: SubmittedIn(s', lifetime) == SubmittedIn(s, lifetime);
    }
  }

  lemma OverStays(s: System, a: Act, id: Id, corr: string, since: nat)
    requires Over(s, id, corr, since) && Move(s, a).To? && !Republishes(a, corr)
    ensures Over(Move(s, a).system, id, corr, since)
  {
    StillUnsubmitted(s, a, id, corr, since);
    InvOf(s);
    hide SystemOk, Move, Settled, Carries, Inv;
    MoveKeepsOk(s, a);
    SettledKept(s, a, id);
    CarriesOn(s, a, id, corr);
  }

  lemma InvOf(s: System)
    requires SystemOk(s)
    ensures Inv(s.bus)
  {
  }

  lemma {:induction false} OverForGood(s: System, acts: seq<Act>, id: Id, corr: string, since: nat)
    requires Over(s, id, corr, since) && After(s, acts).To?
    requires forall i :: 0 <= i < |acts| ==> !Republishes(acts[i], corr)
    ensures Over(After(s, acts).system, id, corr, since)
    decreases |acts|
  {
    hide Move, Over;
    if acts == [] {
    } else {
      OverStays(s, acts[0], id, corr, since);
      OverForGood(Move(s, acts[0]).system, acts[1..], id, corr, since);
    }
  }

  lemma RestartMakesOver(s: System, id: Id, corr: string)
    requires SystemOk(s) && Carries(s, id, corr) && id in s.bus.acked
    ensures Over(Restarted(s), id, corr, |s.archive| + 1)
  {
    MoveKeepsOk(s, Restart);
    hide SystemOk;
    var s1 := Restarted(s);
    assert forall lifetime: nat :: |s.archive| + 1 <= lifetime ==> SubmittedIn(s1, lifetime) == [];
  }

  /** A message acked at a restart is never submitted again, in that lifetime or any later one,
      whatever the consumers, the engine and further restarts do, unless its correlation id is
      published anew. */
  lemma AckedIsNeverSubmittedAgain(s: System, acts: seq<Act>, id: Id, corr: string, lifetime: nat)
    requires SystemOk(s) && Carries(s, id, corr) && id in s.bus.acked
    requires After(Restarted(s), acts).To?
    requires forall i :: 0 <= i < |acts| ==> !Republishes(acts[i], corr)
    requires lifetime > |s.archive|
    ensures corr !in SubmittedIn(After(Restarted(s), acts).system, lifetime)
  {
    hide *;
    RestartMakesOver(s, id, corr);
    OverForGood(Restarted(s), acts, id, corr, |s.archive| + 1);
    OverIsUnsubmitted(After(Restarted(s), acts).system, id, corr, |s.archive| + 1, lifetime);
  }

  lemma OverIsUnsubmitted(s: System, id: Id, corr: string, since: nat, lifetime: nat)
    requires Over(s, id, corr, since) && since <= lifetime
    ensures corr !in SubmittedIn(s, lifetime)
  {
  }

  // ---------------------------------------------------------------- continuations Redis would allow

  /** How many new messages a read with a count hands over. */
  function NewCount(b: Bus, count: nat): nat
    requires b.cursor <= b.published
  {
    if count <= b.published - b.cursor then count else b.published - b.cursor
  }

  /** One step of consumers in `team` and nobody else: claims and reads are the ones Redis
      answers, every handler returns and its message is acked, nothing crashes. */
  ghost predicate Real(s: System, a: Act, count: nat, team: set<string>) {
    match a
    case Redis(AutoClaim(c, ids)) => c in team && ids == ClaimBatch(s.bus, count)
    case Redis(ReadNew(c, n)) => c in team && s.bus.cursor <= s.bus.published && n == NewCount(s.bus, count)
    case Redis(AskPending(c)) => c in team
    case Redis(Done(c)) => c in team
    case Redis(Tick(_)) => true
    case Handle(c, _) => c in team
    case Return(c) => c in team
    case AckNow(c) => c in team
    case _ => false
  }

  ghost predicate AllReal(s: System, acts: seq<Act>, count: nat, team: set<string>)
    requires After(s, acts).To?
    decreases |acts|
  {
    acts != [] ==> Real(s, acts[0], count, team) && AllReal(Move(s, acts[0]).system, acts[1..], count, team)
  }

  ghost predicate SubmitsBy(s: System, acts: seq<Act>, corr: string, count: nat, team: set<string>) {
    After(s, acts).To? && AllReal(s, acts, count, team) && corr in After(s, acts).system.engine.approved
  }

  /** Some such continuation submits the correlation id in this lifetime. */
  ghost predicate CanSubmit(s: System, corr: string, count: nat, team: set<string>) {
    exists acts :: SubmitsBy(s, acts, corr, count, team)
  }

  lemma SubmittedAlready(s: System, corr: string, count: nat, team: set<string>)
    requires corr in s.engine.approved
    ensures CanSubmit(s, corr, count, team)
  {
    assert SubmitsBy(s, [], corr, count, team);
  }

  lemma ActBack(s: System, a: Act, corr: string, count: nat, team: set<string>)
    requires Move(s, a).To? && Real(s, a, count, team) && CanSubmit(Move(s, a).system, corr, count, team)
    ensures CanSubmit(s, corr, count, team)
  {
    hide Move, Real;
    var acts :| SubmitsBy(Move(s, a).system, acts, corr, count, team);
    assert ([a] + acts)[1..] == acts;
    assert SubmitsBy(s, [a] + acts, corr, count, team);
  }

  // ---------------------------------------------------------------- working through a batch

  /** The message is out there, this lifetime has not submitted it. */
  ghost predicate Waiting(s: System, id: Id, corr: string) {
    SystemOk(s) && Carries(s, id, corr) && corr !in s.engine.approved
  }

  lemma WaitsOn(s: System, a: Act, id: Id, corr: string)
    requires Waiting(s, id, corr) && Move(s, a).To?
    requires a.Redis? || a.Return? || a.AckNow?
    ensures Waiting(Move(s, a).system, id, corr)
  {
    CarriesOn(s, a, id, corr);
    MoveKeepsOk(s, a);
    hide SystemOk, Carries, Next;
  }

  lemma HandleOtherWaits(s: System, c: string, m: Market, id: Id, corr: string)
    requires Waiting(s, id, corr) && HandleHead(s, c, m).To?
    requires WorkerOf(s.bus, c).Batch? && WorkerOf(s.bus, c).copies != [] && WorkerOf(s.bus, c).copies[0].id != id
    ensures Waiting(HandleHead(s, c, m).system, id, corr)
  {
    assert Move(s, Handle(c, m)) == HandleHead(s, c, m);
    CarriesOn(s, Handle(c, m), id, corr);
    MoveKeepsOk(s, Handle(c, m));
    OthersSubmitOthers(s, c, m, id, corr);
    hide SystemOk, Carries, HandleHead;
  }

  lemma HeadIsPublished(s: System, c: string)
    requires SystemOk(s) && WorkerOf(s.bus, c).Batch? && WorkerOf(s.bus, c).copies != []
    ensures WorkerOf(s.bus, c).copies[0].id < |s.log|
    ensures forall m :: HandleHead(s, c, m).To?
  {
    assert WorkerOk(s.bus, s.bus.workers[c]);
    assert WorkerOf(s.bus, c).copies[0] in Held(s.bus.workers[c]);
    hide HandleRiskApproved, DeadLetter, StartHandler, IsPoison;
  }

  /** How the head of the batch ends in this system. */
  function EndingOf(s: System, c: string): Ending
    requires WorkerOf(s.bus, c).Batch? && WorkerOf(s.bus, c).copies != [] && WorkerOf(s.bus, c).copies[0].id < |s.log|
  {
    match s.log[WorkerOf(s.bus, c).copies[0].id]
    case Garbage => Undecodable
    case Approved(intent) => if Judge(s.engine.processed, intent) == Crashes then Fails else Succeeds
  }

  /** The state after the handler returned and its message is acked. */
  function HandledWell(b: Bus, c: string): Bus
    requires WorkerOf(b, c).Running?
  {
    var w := WorkerOf(b, c);
    SetWorker(b, c, Batch(w.copies, w.source)).(
    returned := b.returned + {w.copy.id}, pending := b.pending - {w.copy.id}, acked := b.acked + {w.copy.id})
  }

  lemma RunningEnds(s: System, c: string, id: Id, corr: string, count: nat, team: set<string>) returns (s': System)
    requires Waiting(s, id, corr) && c in team && WorkerOf(s.bus, c).Running?
    ensures Waiting(s', id, corr) && s'.bus == HandledWell(s.bus, c)
    ensures CanSubmit(s', corr, count, team) ==> CanSubmit(s, corr, count, team)
  {
    ReturnShape(s.bus, c);
    hide Next, SystemOk, Waiting, CanSubmit, HandledWell;
    var s2 := Move(s, Return(c)).system;
    s' := Move(s2, AckNow(c)).system;
    assert Move(s, Return(c)).To? && Move(s2, AckNow(c)).To? && s'.bus == HandledWell(s.bus, c);
    hide Move;
    WaitsOn(s, Return(c), id, corr);
    WaitsOn(s2, AckNow(c), id, corr);
    if CanSubmit(s', corr, count, team) {
      ActBack(s2, AckNow(c), corr, count, team);
      ActBack(s, Return(c), corr, count, team);
    }
  }

  lemma StartedEnds(b: Bus, c: string)
    requires WorkerOf(b, c).Batch? && WorkerOf(b, c).copies != [] && !IsPoison(WorkerOf(b, c).source, WorkerOf(b, c).copies[0].id)
    ensures WorkerOf(StartHandler(b, c), c).Running? && HandledWell(StartHandler(b, c), c) == Ended(b, c, Succeeds)
  {
  }

  lemma HandleBack(s: System, c: string, m: Market, corr: string, count: nat, team: set<string>)
    requires HandleHead(s, c, m).To? && c in team && CanSubmit(HandleHead(s, c, m).system, corr, count, team)
    ensures CanSubmit(s, corr, count, team)
  {
    hide HandleHead, CanSubmit;
    assert Move(s, Handle(c, m)) == HandleHead(s, c, m);
    ActBack(s, Handle(c, m), corr, count, team);
  }

  /** The head of a batch, if it is another message, can be dealt with in a few acts. */
  lemma OtherHeadEnds(s: System, c: string, m: Market, id: Id, corr: string, count: nat, team: set<string>) returns (s': System)
    requires Waiting(s, id, corr) && c in team
    requires WorkerOf(s.bus, c).Batch? && WorkerOf(s.bus, c).copies != [] && WorkerOf(s.bus, c).copies[0].id != id
    ensures Waiting(s', id, corr)
    ensures exists e :: s'.bus == Ended(s.bus, c, e)
    ensures CanSubmit(s', corr, count, team) ==> CanSubmit(s, corr, count, team)
  {
    WaitingIsOk(s, id, corr);
    HeadIsPublished(s, c);
    HandleOtherWaits(s, c, m, id, corr);
    HandleShape(s, c, m);
    hide SystemOk, Waiting, CanSubmit, HandleHead, Ended, EndingOf, IsPoison, StartHandler, HandledWell;
    var s1 := HandleHead(s, c, m).system;
    if IsPoison(WorkerOf(s.bus, c).source, WorkerOf(s.bus, c).copies[0].id) || EndingOf(s, c) != Succeeds {
      s' := s1;
    } else {
      StartedEnds(s.bus, c);
      s' := RunningEnds(s1, c, id, corr, count, team);
      assert s'.bus == Ended(s.bus, c, Succeeds);
    }
    if CanSubmit(s', corr, count, team) {
      HandleBack(s, c, m, corr, count, team);
    }
  }

  lemma WaitingIsOk(s: System, id: Id, corr: string)
    requires Waiting(s, id, corr)
    ensures SystemOk(s) && id < |s.log|
  {
  }

  lemma HandleShape(s: System, c: string, m: Market)
    requires WorkerOf(s.bus, c).Batch? && WorkerOf(s.bus, c).copies != [] && WorkerOf(s.bus, c).copies[0].id < |s.log|
    ensures var w := WorkerOf(s.bus, c);
            && HandleHead(s, c, m).To?
            && HandleHead(s, c, m).system.bus ==
                 if IsPoison(w.source, w.copies[0].id) || EndingOf(s, c) != Succeeds then Ended(s.bus, c, EndingOf(s, c))
                 else StartHandler(s.bus, c)
  {
    hide HandleRiskApproved, DeadLetter, IsPoison;
  }

  lemma ReturnShape(b: Bus, c: string)
    requires WorkerOf(b, c).Running?
    ensures var b1 := Next(b, HandlerReturns(c));
            && b1.Enabled? && WorkerOf(b1.bus, c).Returned?
            && Next(b1.bus, Ack(c)) == Enabled(HandledWell(b, c))
  {
  }

  lemma OwnHeadSubmits(s: System, c: string, m: Market, id: Id, corr: string)
    requires Waiting(s, id, corr)
    requires WorkerOf(s.bus, c).Batch? && WorkerOf(s.bus, c).copies != [] && WorkerOf(s.bus, c).copies[0].id == id
    requires !IsPoison(WorkerOf(s.bus, c).source, id)
    ensures HandleHead(s, c, m).To? && corr in HandleHead(s, c, m).system.engine.approved
  {
    hide Inv, IsPoison, DeadLetter, StartHandler;
    var i := s.log[id].intent;
    HandlerAdmitsOnce(s.engine, i, m);
    hide HandleRiskApproved;
  }

  /** A delivery of the message in a batch is submitted once the ones before it are dealt with. */
  lemma {:induction false} BatchSubmits(s: System, c: string, k: nat, m: Market, id: Id, corr: string, count: nat, team: set<string>)
    requires Waiting(s, id, corr) && c in team
    requires WorkerOf(s.bus, c).Batch? && k < |WorkerOf(s.bus, c).copies| && WorkerOf(s.bus, c).copies[k].id == id
    requires forall j :: 0 <= j < k ==> WorkerOf(s.bus, c).copies[j].id != id
    requires !IsPoison(WorkerOf(s.bus, c).source, id)
    ensures CanSubmit(s, corr, count, team)
    decreases k
  {
    hide Waiting, CanSubmit, IsPoison, HandleHead, Ended;
    if k == 0 {
      OwnHeadSubmits(s, c, m, id, corr);
      SubmittedAlready(HandleHead(s, c, m).system, corr, count, team);
      HandleBack(s, c, m, corr, count, team);
    } else {
      var s' := OtherHeadEnds(s, c, m, id, corr, count, team);
      var e :| s'.bus == Ended(s.bus, c, e);
      EndedFacts(s.bus, c, e);
      BatchSubmits(s', c, k - 1, m, id, corr, count, team);
    }
  }

  /** A batch without the message can be worked through. */
  lemma {:induction false} BatchSweeps(s: System, c: string, m: Market, id: Id, corr: string, count: nat, team: set<string>)
      returns (s': System)
    requires Waiting(s, id, corr) && c in team
    requires WorkerOf(s.bus, c).Batch? && forall x :: x in WorkerOf(s.bus, c).copies ==> x.id != id
    ensures Waiting(s', id, corr) && SweptTo(s.bus, c, s'.bus)
    ensures CanSubmit(s', corr, count, team) ==> CanSubmit(s, corr, count, team)
    decreases |WorkerOf(s.bus, c).copies|
  {
    hide Waiting, CanSubmit, Ended, SweptTo, Next;
    if WorkerOf(s.bus, c).copies == [] {
      FinishedIsSwept(s.bus, c);
      s' := RedisActs(s, Action.Done(c), id, corr, count, team);
    } else {
      var s1 := OtherHeadEnds(s, c, m, id, corr, count, team);
      var e :| s1.bus == Ended(s.bus, c, e);
      EndedFacts(s.bus, c, e);
      s' := BatchSweeps(s1, c, m, id, corr, count, team);
      SweepsOneMore(s.bus, c, e, s'.bus);
    }
  }

  /** One of the steps Redis and the clock take for a consumer. */
  lemma RedisActs(s: System, a: Action, id: Id, corr: string, count: nat, team: set<string>) returns (s': System)
    requires Waiting(s, id, corr) && Plain(a) && Next(s.bus, a).Enabled? && Real(s, Redis(a), count, team)
    ensures Waiting(s', id, corr) && s'.bus == Next(s.bus, a).bus
    ensures CanSubmit(s', corr, count, team) ==> CanSubmit(s, corr, count, team)
  {
    hide Waiting, CanSubmit, Next;
    s' := Move(s, Redis(a)).system;
    WaitsOn(s, Redis(a), id, corr);
    if CanSubmit(s', corr, count, team) {
      ActBack(s, Redis(a), corr, count, team);
    }
  }

  lemma Waits(s: System, ms: nat, id: Id, corr: string, count: nat, team: set<string>) returns (s': System)
    requires Waiting(s, id, corr)
    ensures Waiting(s', id, corr) && s'.bus == Later(s.bus, ms)
    ensures CanSubmit(s', corr, count, team) ==> CanSubmit(s, corr, count, team)
  {
    s' := RedisActs(s, Tick(ms), id, corr, count, team);
  }

  /** Claim and XPENDING. */
  lemma Claims(s: System, c: string, id: Id, corr: string, count: nat, team: set<string>) returns (s': System)
    requires Waiting(s, id, corr) && c in team
    requires Claim(s.bus, c, ClaimBatch(s.bus, count)).Enabled? && ClaimBatch(s.bus, count) != []
    ensures Waiting(s', id, corr) && s'.bus == Asked(s.bus, c, ClaimBatch(s.bus, count))
    ensures CanSubmit(s', corr, count, team) ==> CanSubmit(s, corr, count, team)
  {
    hide Waiting, CanSubmit, ClaimBatch, Claim, Ask;
    ClaimedShape(s.bus, c, ClaimBatch(s.bus, count));
    var s1 := RedisActs(s, AutoClaim(c, ClaimBatch(s.bus, count)), id, corr, count, team);
    s' := RedisActs(s1, AskPending(c), id, corr, count, team);
  }

  // ---------------------------------------------------------------- a pending message

  lemma {:induction false} SameScan(a: Bus, b: Bus, lo: Id, budget: nat, count: nat)
    requires AllStale(a) && AllStale(b) && a.pending.Keys == b.pending.Keys && a.cursor == b.cursor
    ensures Scan(a, lo, budget, count) == Scan(b, lo, budget, count)
    decreases a.cursor - lo
  {
    ScanStep(a, lo, budget, count);
    ScanStep(b, lo, budget, count);
    if lo < a.cursor && budget > 0 && count > 0 {
      assert lo in a.pending <==> lo in b.pending;
      if lo in a.pending {
        SameScan(a, b, lo + 1, budget - 1, count - 1);
      } else {
        SameScan(a, b, lo + 1, budget, count);
      }
    }
  }

  /** The bus after c claimed a batch, was held up, and d claimed it too. */
  function Stolen(b: Bus, c: string, d: string, ids: seq<Id>): Step
    requires Claim(b, c, ids).Enabled?
  {
    Claim(Later(Claim(b, c, ids).bus, PENDING_MIN_IDLE_MS), d, ids)
  }

  lemma StolenShape(b: Bus, c: string, d: string, ids: seq<Id>, count: nat)
    requires Claim(b, c, ids).Enabled? && ids != [] && ids == ClaimBatch(b, count) && AllStale(b)
    requires c != d && WorkerOf(b, d).Idle?
    ensures ClaimBatch(Later(Claim(b, c, ids).bus, PENDING_MIN_IDLE_MS), count) == ids
    ensures Stolen(b, c, d, ids).Enabled?
    ensures WorkerOf(Stolen(b, c, d, ids).bus, c) == Claimed(Redelivered(b.pending, ids))
    ensures Stolen(b, c, d, ids).bus.pending == ClaimOrder.ClaimedPending(Later(Claim(b, c, ids).bus, PENDING_MIN_IDLE_MS), d, ids)
  {
    var b1 := Later(Claim(b, c, ids).bus, PENDING_MIN_IDLE_MS);
    ClaimedShape(b, c, ids);
    assert AllStale(b1);
    SameScan(b, b1, 0, SCAN_FACTOR * count, count);
    BatchIsOldest(b1, count);
    hide ClaimBatch, AllStale;
    ClaimedShape(b1, d, ids);
  }

  /** When c asks at last, none of its batch is its own any more: the reply lists nothing of it,
      and all of it goes to the handler, whatever the delivery counts. */
  lemma StolenGoesToHandler(b: Bus, c: string, d: string, ids: seq<Id>, id: Id)
    requires WorkerOf(b, c).Claimed? && WorkerOf(b, c).copies != []
    requires id in b.pending && b.pending[id].consumer != c
    ensures Ask(b, c).Enabled?
    ensures var w := WorkerOf(Ask(b, c).bus, c); w.Batch? && w.copies == WorkerOf(b, c).copies && !IsPoison(w.source, id)
  {
    var copies := WorkerOf(b, c).copies;
    var owned := OwnedInRange(b.pending, c, copies[0].id, copies[|copies| - 1].id);
    assert id !in owned;
    assert id !in PendingReply(b.pending, c, copies);
  }

  lemma CopyOf(pending: map<Id, Entry>, ids: seq<Id>, id: Id) returns (k: nat)
    requires Ascending(ids) && id in ids && forall i :: i in ids ==> i in pending
    ensures var copies := Redelivered(pending, ids);
            k < |copies| && copies[k].id == id && forall j :: 0 <= j < k ==> copies[j].id != id
  {
    k :| 0 <= k < |ids| && ids[k] == id;
  }

  /** The last pass with a second consumer: it takes the batch while the first is held up. */
  lemma StealingSubmits(s: System, c: string, d: string, m: Market, id: Id, corr: string, count: nat, team: set<string>)
    requires Waiting(s, id, corr) && c in team && d in team && c != d
    requires WorkerOf(s.bus, c).Idle? && WorkerOf(s.bus, d).Idle? && AllStale(s.bus) && id in ClaimBatch(s.bus, count)
    ensures CanSubmit(s, corr, count, team)
  {
    var ids := ClaimBatch(s.bus, count);
    BatchIsOldest(s.bus, count);
    hide Waiting, CanSubmit, ClaimBatch, IsPoison, Ask, AllStale, ClaimOrder.OldestFirst;
    var k := CopyOf(s.bus.pending, ids, id);
    StolenShape(s.bus, c, d, ids, count);
    hide Redelivered;
    var s1 := RedisActs(s, AutoClaim(c, ids), id, corr, count, team);
    var s2 := Waits(s1, PENDING_MIN_IDLE_MS, id, corr, count, team);
    var s3 := RedisActs(s2, AutoClaim(d, ids), id, corr, count, team);
    StolenGoesToHandler(s3.bus, c, d, ids, id);
    var s4 := RedisActs(s3, AskPending(c), id, corr, count, team);
    BatchSubmits(s4, c, k, m, id, corr, count, team);
  }

  /** The last pass of one consumer: a delivery within the limit goes to the handler. */
  lemma ClaimingSubmits(s: System, c: string, m: Market, id: Id, corr: string, count: nat, team: set<string>)
    requires Waiting(s, id, corr) && c in team && WorkerOf(s.bus, c).Idle?
    requires AllStale(s.bus) && id in ClaimBatch(s.bus, count)
    requires id in s.bus.pending && s.bus.pending[id].deliveries < MAX_DELIVERIES
    ensures CanSubmit(s, corr, count, team)
  {
    var ids := ClaimBatch(s.bus, count);
    BatchIsOldest(s.bus, count);
    BatchCountsAreExact(s.bus, c, ids, id);
    ClaimedShape(s.bus, c, ids);
    hide Waiting, CanSubmit, ClaimBatch, IsPoison, AllStale, ClaimOrder.OldestFirst;
    var k := CopyOf(s.bus.pending, ids, id);
    hide Redelivered;
    var s1 := Claims(s, c, id, corr, count, team);
    BatchSubmits(s1, c, k, m, id, corr, count, team);
  }

  /** A pass that does not reach the message yet, and a wait until everything is stale again. */
  lemma PassAndWait(s: System, c: string, m: Market, id: Id, corr: string, count: nat, team: set<string>) returns (s': System)
    requires Waiting(s, id, corr) && c in team && WorkerOf(s.bus, c).Idle? && count > 0
    requires AllStale(s.bus) && id in s.bus.pending && id !in ClaimBatch(s.bus, count)
    ensures Waiting(s', id, corr) && AllStale(s'.bus) && id in s'.bus.pending && s'.bus.pending[id] == s.bus.pending[id]
    ensures Work(s'.bus.pending, id) < Work(s.bus.pending, id)
    ensures WorkerOf(s'.bus, c).Idle? && forall d :: d != c ==> WorkerOf(s'.bus, d) == WorkerOf(s.bus, d)
    ensures CanSubmit(s', corr, count, team) ==> CanSubmit(s, corr, count, team)
  {
    var ids := ClaimBatch(s.bus, count);
    PendingIsInside(s, id, corr);
    ClaimIsEnabled(s.bus, c, id, count);
    hide Waiting, CanSubmit, ClaimBatch, Claim, Asked, SweptTo, Work, AllStale, PendingInside;
    var s2 := Passes(s, c, m, id, corr, count, team);
    PassLowersWork(s.bus, c, ids, s2.bus, id);
    WaitMakesStale(s2.bus);
    s' := Waits(s2, PENDING_MIN_IDLE_MS, id, corr, count, team);
  }

  /** Claim, ask and work through a batch of other messages. */
  lemma Passes(s: System, c: string, m: Market, id: Id, corr: string, count: nat, team: set<string>) returns (s': System)
    requires Waiting(s, id, corr) && c in team && id !in ClaimBatch(s.bus, count)
    requires Claim(s.bus, c, ClaimBatch(s.bus, count)).Enabled? && ClaimBatch(s.bus, count) != []
    ensures Waiting(s', id, corr) && SweptTo(Asked(s.bus, c, ClaimBatch(s.bus, count)), c, s'.bus)
    ensures CanSubmit(s', corr, count, team) ==> CanSubmit(s, corr, count, team)
  {
    OthersInBatch(s.bus, c, ClaimBatch(s.bus, count), id);
    hide Waiting, CanSubmit, ClaimBatch, Claim, Asked, SweptTo;
    var s1 := Claims(s, c, id, corr, count, team);
    s' := BatchSweeps(s1, c, m, id, corr, count, team);
  }

  lemma PendingIsInside(s: System, id: Id, corr: string)
    requires Waiting(s, id, corr)
    ensures PendingInside(s.bus) && s.bus.published == |s.log| && id < |s.log| && s.bus.cursor <= s.bus.published
  {
  }

  lemma OthersInBatch(b: Bus, c: string, ids: seq<Id>, id: Id)
    requires Claim(b, c, ids).Enabled? && ids != [] && id !in ids
    ensures forall x :: x in WorkerOf(Asked(b, c, ids), c).copies ==> x.id != id
  {
    ClaimedShape(b, c, ids);
    hide Claim, Ask;
    forall x | x in Redelivered(b.pending, ids) ensures x.id in ids {
    }
  }

  lemma {:induction false} PendingSubmits(s: System, c: string, d: string, m: Market, id: Id, corr: string, count: nat, team: set<string>)
    requires Waiting(s, id, corr) && c in team && WorkerOf(s.bus, c).Idle? && count > 0
    requires AllStale(s.bus) && id in s.bus.pending
    requires s.bus.pending[id].deliveries < MAX_DELIVERIES || (d in team && d != c && WorkerOf(s.bus, d).Idle?)
    ensures CanSubmit(s, corr, count, team)
    decreases Work(s.bus.pending, id)
  {
    hide Waiting, CanSubmit, ClaimBatch, AllStale, Work;
    if id !in ClaimBatch(s.bus, count) {
      var s' := PassAndWait(s, c, m, id, corr, count, team);
      PendingSubmits(s', c, d, m, id, corr, count, team);
    } else if s.bus.pending[id].deliveries < MAX_DELIVERIES {
      ClaimingSubmits(s, c, m, id, corr, count, team);
    } else {
      StealingSubmits(s, c, d, m, id, corr, count, team);
    }
  }

  // ---------------------------------------------------------------- an undelivered message

  lemma {:induction false} NewSubmits(s: System, c: string, m: Market, id: Id, corr: string, count: nat, team: set<string>)
    requires Waiting(s, id, corr) && c in team && WorkerOf(s.bus, c).Idle? && count > 0 && s.bus.cursor <= id
    ensures CanSubmit(s, corr, count, team)
    decreases id + 1 - s.bus.cursor
  {
    PendingIsInside(s, id, corr);
    hide Waiting, CanSubmit;
    var n, lo := NewCount(s.bus, count), s.bus.cursor;
    ReadShape(s.bus, c, n);
    hide Read;
    var s1 := RedisActs(s, ReadNew(c, n), id, corr, count, team);
    if id < lo + n {
      BatchSubmits(s1, c, id - lo, m, id, corr, count, team);
    } else {
      hide SweptTo;
      var s2 := BatchSweeps(s1, c, m, id, corr, count, team);
      SweptMoves(s1.bus, c, s2.bus);
      NewSubmits(s2, c, m, id, corr, count, team);
    }
  }

  lemma ReadShape(b: Bus, c: string, n: nat)
    requires WorkerOf(b, c).Idle? && b.cursor + n <= b.published
    ensures Next(b, ReadNew(c, n)).Enabled?
    ensures var b' := Next(b, ReadNew(c, n)).bus;
            WorkerOf(b', c) == Batch(FirstCopies(b.cursor, n), New) && b'.cursor == b.cursor + n
    ensures forall i :: 0 <= i < n ==> FirstCopies(b.cursor, n)[i].id == b.cursor + i
  {
  }

  lemma SweptMoves(b: Bus, c: string, b': Bus)
    requires WorkerOf(b, c).Batch? && SweptTo(b, c, b')
    ensures WorkerOf(b', c).Idle? && b'.cursor == b.cursor
  {
  }

  // ---------------------------------------------------------------- the theorem

  /** A well-formed message not acked at a restart can be submitted again in the next lifetime,
      wherever it stands in the stream and however many others are before it: by two consumers,
      of which the second claims the batch while the first is held up, or by one consumer alone
      if it was not delivered MAX_DELIVERIES times yet. */
  lemma UnackedIsSubmittedAgain(s: System, c: string, d: string, m: Market, id: Id, corr: string, count: nat)
    requires SystemOk(s) && Carries(s, id, corr) && id !in s.bus.acked && count > 0 && c != d
    ensures CanSubmit(Restarted(s), corr, count, {c, d})
    ensures (id in s.bus.pending ==> s.bus.deliveries[id] < MAX_DELIVERIES) ==> CanSubmit(Restarted(s), corr, count, {c})
  {
    RestartWaits(s, id, corr);
    SubmitsAfterRestart(s, c, d, m, id, corr, count, {c, d});
    if id in s.bus.pending ==> s.bus.deliveries[id] < MAX_DELIVERIES {
      SubmitsAfterRestart(s, c, d, m, id, corr, count, {c});
    }
  }

  lemma RestartWaits(s: System, id: Id, corr: string)
    requires SystemOk(s) && Carries(s, id, corr)
    ensures Waiting(Restarted(s), id, corr)
    ensures Restarted(s).bus == s.bus.(workers := map[])
    ensures id < s.bus.cursor ==> id in s.bus.pending || id in s.bus.acked
    ensures id in s.bus.pending ==> id in s.bus.deliveries && s.bus.pending[id].deliveries == s.bus.deliveries[id]
  {
    MoveKeepsOk(s, Restart);
  }

  lemma SubmitsAfterRestart(s: System, c: string, d: string, m: Market, id: Id, corr: string, count: nat, team: set<string>)
    requires SystemOk(s) && Carries(s, id, corr) && id !in s.bus.acked && count > 0 && c in team && c != d
    requires d in team || (id in s.bus.pending ==> id in s.bus.deliveries && s.bus.deliveries[id] < MAX_DELIVERIES)
    ensures CanSubmit(Restarted(s), corr, count, team)
  {
    RestartWaits(s, id, corr);
    var s1 := Restarted(s);
    PendingIsInside(s1, id, corr);
    hide SystemOk, Waiting, Carries, CanSubmit, Restarted;
    if id < s.bus.cursor {
      var ms := EverythingAges(s1.bus, s1.bus.cursor);
      var s2 := Waits(s1, ms, id, corr, count, team);
      PendingSubmits(s2, c, d, m, id, corr, count, team);
    } else {
      NewSubmits(s1, c, m, id, corr, count, team);
    }
  }

  lemma {:induction false} RealNeverRepublishes(s: System, acts: seq<Act>, corr: string, count: nat, team: set<string>)
    requires After(s, acts).To? && AllReal(s, acts, count, team)
    ensures forall i :: 0 <= i < |acts| ==> !Republishes(acts[i], corr)
    decreases |acts|
  {
    hide Move;
    if acts == [] {
    } else {
      RealNeverRepublishes(Move(s, acts[0]).system, acts[1..], corr, count, team);
      assert forall i :: 0 < i < |acts| ==> acts[i] == acts[1..][i - 1];
    }
  }

  lemma OverIsNotSubmitted(s: System, id: Id, corr: string, since: nat)
    requires Over(s, id, corr, since)
    ensures corr !in s.engine.approved
  {
    assert corr !in SubmittedIn(s, |s.archive|);
  }

  /** Exactly-once submission and a restart: with the batches Redis answers, of any size, some
      continuation of two consumers submits a well-formed message again in the lifetime that the
      restart begins exactly when the message was not acked at the restart. */
  lemma SubmittedAgainExactlyWhenUnacked(s: System, c: string, d: string, m: Market, id: Id, corr: string, count: nat)
    requires SystemOk(s) && Carries(s, id, corr) && count > 0 && c != d
    ensures CanSubmit(Restarted(s), corr, count, {c, d}) <==> id !in s.bus.acked
  {
    if id !in s.bus.acked {
      UnackedIsSubmittedAgain(s, c, d, m, id, corr, count);
    } else if CanSubmit(Restarted(s), corr, count, {c, d}) {
      RestartMakesOver(s, id, corr);
      hide SystemOk, Carries, Over, Restarted;
      var acts :| SubmitsBy(Restarted(s), acts, corr, count, {c, d});
      RealNeverRepublishes(Restarted(s), acts, corr, count, {c, d});
      OverForGood(Restarted(s), acts, id, corr, |s.archive| + 1);
      OverIsNotSubmitted(After(Restarted(s), acts).system, id, corr, |s.archive| + 1);
    }
  }
}
