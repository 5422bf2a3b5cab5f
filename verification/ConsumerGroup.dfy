/**
  The Redis consumer-group protocol behind `EventBus`, as a state machine over its atomic
  steps (everything between two awaits).

  Any number of consumers share one group on one stream.  A message is its position in the
  stream.  Every delivery of a message hands one `Copy` of it, numbered by the delivery
  counter Redis keeps, to one consumer; what that consumer is doing with the copies it holds
  is its `Worker` state.  The last group of fields of `Bus` is history: no step branches on it.
 */
module ConsumerGroup {
  import opened Sequences

  const MAX_DELIVERIES := 5
  const PENDING_MIN_IDLE_MS := 5 * 60 * 1000

  type Id = nat

  datatype Entry = Entry(consumer: string, deliveries: nat, deliveredAt: int)

  datatype Copy = Copy(id: Id, delivery: nat)

  /** Which dispatch loop a batch is in; the claim loop carries the XPENDING counts. */
  datatype Source = New | Reclaimed(counts: map<Id, nat>)

  datatype Worker =
    | Idle
    /** XAUTOCLAIM has answered, XPENDING has not been asked yet. */
    | Claimed(copies: seq<Copy>)
    | Batch(copies: seq<Copy>, source: Source)
    /** The handler is running on `copy`. */
    | Running(copy: Copy, copies: seq<Copy>, source: Source)
    /** The handler returned; the ack is still to be sent. */
    | Returned(copy: Copy, copies: seq<Copy>, source: Source)

  datatype Bus = Bus(
    published: nat,
    cursor: nat,
    pending: map<Id, Entry>,
    acked: set<Id>,
    now: int,
    workers: map<string, Worker>,
    // history
    deliveries: map<Id, nat>,
    calls: seq<Copy>,
    returned: set<Id>,
    deadLettered: map<Id, nat>,
    missed: set<Copy>)

  datatype Action =
    | Publish
    | Tick(ms: nat)
    | ReadNew(c: string, n: nat)
    | AutoClaim(c: string, ids: seq<Id>)
    | AskPending(c: string)
    | Deliver(c: string)
    | DecodeFails(c: string)
    | HandlerReturns(c: string)
    | HandlerRaises(c: string)
    | Ack(c: string)
    | AckFails(c: string)
    | Done(c: string)
    /** A Redis error reaches the consume loop, the task is cancelled, or the process dies. */
    | Abort(c: string)

  datatype Step = Enabled(bus: Bus) | Disabled

  const INITIAL := Bus(0, 0, map[], {}, 0, map[], map[], [], {}, map[], {})

  function WorkerOf(b: Bus, c: string): Worker {
    if c in b.workers then b.workers[c] else Idle
  }

  /** The copies a consumer still has to look at. */
  function Held(w: Worker): seq<Copy> {
    if w.Idle? then [] else w.copies
  }

  predicate InOrder(copies: seq<Copy>) {
    forall i, j :: 0 <= i < j < |copies| ==> copies[i].id < copies[j].id
  }

  /** The pending ids of consumer `c` in [lo, hi], in stream order. */
  function OwnedInRange(pending: map<Id, Entry>, c: string, lo: nat, hi: nat): (ids: seq<Id>)
    ensures forall id :: id in ids <==> lo <= id <= hi && id in pending && pending[id].consumer == c
    ensures Ascending(ids)
    decreases hi + 1 - lo
  {
    if lo > hi then []
    else
      var rest := OwnedInRange(pending, c, lo + 1, hi);
      assert forall i :: 0 <= i < |rest| ==> rest[i] in rest;
      if lo in pending && pending[lo].consumer == c then [lo] + rest else rest
  }

  function PrefixUpTo(ids: seq<Id>, n: nat): seq<Id> {
    if |ids| <= n then ids else ids[..n]
  }

  /** XPENDING over the span of the claimed ids, capped at as many entries as were claimed. */
  function PendingReply(pending: map<Id, Entry>, c: string, copies: seq<Copy>): seq<Id>
    requires copies != []
  {
    PrefixUpTo(OwnedInRange(pending, c, copies[0].id, copies[|copies| - 1].id), |copies|)
  }

  predicate Covers(reply: seq<Id>, copies: seq<Copy>) {
    forall x :: x in copies ==> x.id in reply
  }

  /** The claimed copies due for dead-lettering that the reply leaves out. */
  function MissedBy(reply: seq<Id>, copies: seq<Copy>): set<Copy> {
    set x | x in copies && x.delivery > MAX_DELIVERIES && x.id !in reply
  }

  function CountsOf(pending: map<Id, Entry>, reply: seq<Id>): map<Id, nat> {
    map id | id in pending && id in reply :: pending[id].deliveries
  }

  /** The count the claim loop acts on: an id missing from the reply reads as delivered once. */
  function CountSeen(counts: map<Id, nat>, id: Id): nat {
    if id in counts then counts[id] else 1
  }

  predicate IsPoison(source: Source, id: Id) {
    source.Reclaimed? && CountSeen(source.counts, id) > MAX_DELIVERIES
  }

  function SetWorker(b: Bus, c: string, w: Worker): Bus {
    b.(workers := b.workers[c := w])
  }

  // ---------------------------------------------------------------- the steps

  function FirstCopies(lo: Id, n: nat): seq<Copy> {
    seq(n, i requires 0 <= i < n => Copy(lo + i, 1))
  }

  function IdRange(lo: Id, n: nat): (ids: set<Id>)
    ensures forall id :: id in ids <==> lo <= id < lo + n
  {
    if n == 0 then {} else IdRange(lo, n - 1) + {lo + n - 1}
  }

  function Read(b: Bus, c: string, n: nat): Step {
    if WorkerOf(b, c) != Idle || b.cursor + n > b.published then Disabled else
      var ids := IdRange(b.cursor, n);
      Enabled(SetWorker(b, c, Batch(FirstCopies(b.cursor, n), New)).(
              cursor := b.cursor + n,
              pending := b.pending + map id | id in ids :: Entry(c, 1, b.now),
              deliveries := b.deliveries + map id | id in ids :: 1))
  }

  predicate Claimable(b: Bus, ids: seq<Id>) {
    && Ascending(ids)
    && forall id :: id in ids ==> id in b.pending && b.now - b.pending[id].deliveredAt >= PENDING_MIN_IDLE_MS
  }

  function Redelivered(pending: map<Id, Entry>, ids: seq<Id>): seq<Copy>
    requires forall id :: id in ids ==> id in pending
  {
    seq(|ids|, i requires 0 <= i < |ids| => assert ids[i] in ids; Copy(ids[i], pending[ids[i]].deliveries + 1))
  }

  function Claim(b: Bus, c: string, ids: seq<Id>): Step {
    if WorkerOf(b, c) != Idle || !Claimable(b, ids) then Disabled
    else if ids == [] then Enabled(SetWorker(b, c, Idle))
    else
      Enabled(SetWorker(b, c, Claimed(Redelivered(b.pending, ids))).(
              pending := map id | id in b.pending ::
                if id in ids then Entry(c, b.pending[id].deliveries + 1, b.now) else b.pending[id],
              deliveries := map id | id in b.deliveries ::
                if id in ids then b.deliveries[id] + 1 else b.deliveries[id]))
  }

  function Ask(b: Bus, c: string): Step {
    var w := WorkerOf(b, c);
    if !w.Claimed? || w.copies == [] then Disabled else
      var reply := PendingReply(b.pending, c, w.copies);
      Enabled(SetWorker(b, c, Batch(w.copies, Reclaimed(CountsOf(b.pending, reply)))).(
              missed := b.missed + MissedBy(reply, w.copies)))
  }

  function DeadLetter(b: Bus, c: string): Bus
    requires WorkerOf(b, c).Batch? && WorkerOf(b, c).copies != [] && WorkerOf(b, c).source.Reclaimed?
  {
    var w := WorkerOf(b, c);
    var id := w.copies[0].id;
    SetWorker(b, c, Batch(w.copies[1..], w.source)).(
    pending := b.pending - {id},
    acked := b.acked + {id},
    deadLettered := b.deadLettered[id := CountSeen(w.source.counts, id)])
  }

  function StartHandler(b: Bus, c: string): Bus
    requires WorkerOf(b, c).Batch? && WorkerOf(b, c).copies != []
  {
    var w := WorkerOf(b, c);
    SetWorker(b, c, Running(w.copies[0], w.copies[1..], w.source)).(calls := b.calls + [w.copies[0]])
  }

  function Next(b: Bus, a: Action): Step {
    match a
    case Publish => Enabled(b.(published := b.published + 1))
    case Tick(ms) => Enabled(b.(now := b.now + ms))
    case ReadNew(c, n) => Read(b, c, n)
    case AutoClaim(c, ids) => Claim(b, c, ids)
    case AskPending(c) => Ask(b, c)
    case Deliver(c) =>
      var w := WorkerOf(b, c);
      if !w.Batch? || w.copies == [] then Disabled
      else if IsPoison(w.source, w.copies[0].id) then Enabled(DeadLetter(b, c))
      else Enabled(StartHandler(b, c))
    case DecodeFails(c) =>
      var w := WorkerOf(b, c);
      if !w.Batch? || w.copies == [] || IsPoison(w.source, w.copies[0].id) then Disabled
      else Enabled(SetWorker(b, c, Batch(w.copies[1..], w.source)))
    case HandlerReturns(c) =>
      var w := WorkerOf(b, c);
      if !w.Running? then Disabled
      else Enabled(SetWorker(b, c, Returned(w.copy, w.copies, w.source)).(returned := b.returned + {w.copy.id}))
    case HandlerRaises(c) =>
      var w := WorkerOf(b, c);
      if !w.Running? then Disabled else Enabled(SetWorker(b, c, Batch(w.copies, w.source)))
    case Ack(c) =>
      var w := WorkerOf(b, c);
      if !w.Returned? then Disabled
      else Enabled(SetWorker(b, c, Batch(w.copies, w.source)).(
                   pending := b.pending - {w.copy.id},
                   acked := b.acked + {w.copy.id}))
    case AckFails(c) =>
      var w := WorkerOf(b, c);
      if !w.Returned? then Disabled else Enabled(SetWorker(b, c, Batch(w.copies, w.source)))
    case Done(c) =>
      var w := WorkerOf(b, c);
      if w.Batch? && w.copies == [] then Enabled(SetWorker(b, c, Idle)) else Disabled
    case Abort(c) => Enabled(SetWorker(b, c, Idle))
  }

  function Run(b: Bus, trace: seq<Action>): Step
    decreases |trace|
  {
    if trace == [] then Enabled(b)
    else match Next(b, trace[0])
      case Disabled => Disabled
      case Enabled(b') => Run(b', trace[1..])
  }

  // ---------------------------------------------------------------- invariants

  /** Each published id is exactly one of undelivered, pending or acked. */
  ghost predicate Partitioned(b: Bus) {
    && b.cursor <= b.published
    && b.pending.Keys !! b.acked
    && (forall id: nat :: id < b.cursor <==> id in b.pending || id in b.acked)
  }

  ghost predicate CountersAgree(b: Bus) {
    && (forall id: nat :: id < b.cursor <==> id in b.deliveries)
    && (forall id :: id in b.pending ==> id in b.deliveries && b.pending[id].deliveries == b.deliveries[id])
  }

  predicate WasDelivered(deliveries: map<Id, nat>, x: Copy) {
    x.id in deliveries && 1 <= x.delivery <= deliveries[x.id]
  }

  /** Every due copy still to be dispatched will be recognised, but for the missed ones. */
  ghost predicate PoisonSeen(copies: seq<Copy>, source: Source, missed: set<Copy>) {
    match source
    case New => forall x :: x in copies ==> x.delivery == 1
    case Reclaimed(counts) =>
      forall x :: x in copies && x.delivery > MAX_DELIVERIES && x !in missed ==> CountSeen(counts, x.id) > MAX_DELIVERIES
  }

  ghost predicate WorkerOk(b: Bus, w: Worker) {
    && InOrder(Held(w))
    && (forall x :: x in Held(w) ==> WasDelivered(b.deliveries, x))
    && (w.Batch? || w.Running? || w.Returned? ==> PoisonSeen(w.copies, w.source, b.missed))
    && (w.Running? || w.Returned? ==> WasDelivered(b.deliveries, w.copy) && w.copy in b.calls)
    && (w.Returned? ==> w.copy.id in b.returned)
  }

  ghost predicate WorkersOk(b: Bus) {
    forall c :: c in b.workers ==> WorkerOk(b, b.workers[c])
  }

  ghost predicate NobodyShares(workers: map<string, Worker>) {
    forall c, d, x :: c in workers && d in workers && x in Held(workers[c]) && x in Held(workers[d]) ==> c == d
  }

  ghost predicate HeldUntried(b: Bus) {
    forall c, x :: c in b.workers && x in Held(b.workers[c]) ==> x !in b.calls
  }

  ghost predicate CallsOk(b: Bus) {
    && Distinct(b.calls)
    && (forall x :: x in b.calls ==> WasDelivered(b.deliveries, x))
    && (forall x :: x in b.calls && x.delivery > MAX_DELIVERIES ==> x in b.missed)
    && (forall x :: x in b.missed ==> x.delivery > MAX_DELIVERIES)
  }

  ghost predicate AcksJustified(b: Bus) {
    && (forall id :: id in b.acked ==> id in b.returned || id in b.deadLettered)
    && (forall id :: id in b.deadLettered ==> b.deadLettered[id] > MAX_DELIVERIES)
    && (forall id :: id in b.returned ==> WasCalled(b.calls, id))
  }

  ghost predicate WasCalled(calls: seq<Copy>, id: Id) {
    exists x :: x in calls && x.id == id
  }

  ghost predicate Inv(b: Bus) {
    && Partitioned(b)
    && CountersAgree(b)
    && WorkersOk(b)
    && NobodyShares(b.workers)
    && HeldUntried(b)
    && CallsOk(b)
    && AcksJustified(b)
  }

  // ---------------------------------------------------------------- every step keeps them

  /** Consumer `c` only drops copies, never takes new ones. */
  lemma DropKeepsSharing(b: Bus, c: string, w: Worker)
    requires NobodyShares(b.workers) && HeldUntried(b)
    requires forall x :: x in Held(w) ==> x in Held(WorkerOf(b, c))
    ensures NobodyShares(b.workers[c := w])
    ensures HeldUntried(SetWorker(b, c, w))
  {
  }

  /** A consumer that moves on without touching the shared state. */
  lemma MoveKeepsInv(b: Bus, c: string, w: Worker)
    requires Inv(b) && WorkerOk(b, w)
    requires forall x :: x in Held(w) ==> x in Held(WorkerOf(b, c))
    ensures Inv(SetWorker(b, c, w))
  {
    DropKeepsSharing(b, c, w);
    var b' := SetWorker(b, c, w);
    forall d | d in b'.workers ensures WorkerOk(b', b'.workers[d]) {
      assert d != c ==> WorkerOk(b, b.workers[d]);
    }
  }

  lemma TailOk(b: Bus, w: Worker)
    requires w.Batch? && w.copies != [] && WorkerOk(b, w)
    ensures WorkerOk(b, Batch(w.copies[1..], w.source))
    ensures WorkerOk(b.(calls := b.calls + [w.copies[0]]), Running(w.copies[0], w.copies[1..], w.source))
    ensures WasDelivered(b.deliveries, w.copies[0])
    ensures w.copies[0] !in w.copies[1..]
  {
    assert w.copies[0] in w.copies;
    assert forall x :: x in w.copies[1..] ==> x in w.copies;
  }

  /** Removing an id from the pending list while acking it, for a good reason. */
  lemma AckKeepsInv(b: Bus, id: Id)
    requires Inv(b) && id < b.cursor && (id in b.returned || id in b.deadLettered)
    ensures Inv(b.(pending := b.pending - {id}, acked := b.acked + {id}))
  {
    var b' := b.(pending := b.pending - {id}, acked := b.acked + {id});
    assert forall d :: d in b.workers ==> WorkerOk(b, b.workers[d]) ==> WorkerOk(b', b'.workers[d]);
  }

  lemma ReadExtendsLedgers(b: Bus, c: string, n: nat)
    requires Inv(b) && Read(b, c, n).Enabled?
    ensures Partitioned(Read(b, c, n).bus) && CountersAgree(Read(b, c, n).bus)
  {
  }

  lemma ReadKeepsWorkers(b: Bus, c: string, n: nat)
    requires Inv(b) && Read(b, c, n).Enabled?
    ensures WorkersOk(Read(b, c, n).bus) && NobodyShares(Read(b, c, n).bus.workers)
    ensures HeldUntried(Read(b, c, n).bus) && CallsOk(Read(b, c, n).bus)
  {
    var b' := Read(b, c, n).bus;
    var handed := FirstCopies(b.cursor, n);
    forall x | x in handed ensures x.id !in b.deliveries && WasDelivered(b'.deliveries, x) && x.delivery == 1 {
    }
    forall x | WasDelivered(b.deliveries, x) ensures WasDelivered(b'.deliveries, x) {
    }
    forall d | d in b'.workers ensures WorkerOk(b', b'.workers[d]) {
      assert d != c ==> WorkerOk(b, b.workers[d]);
    }
    forall d, x | d in b.workers && x in Held(b.workers[d]) ensures x !in handed {
      assert WorkerOk(b, b.workers[d]);
    }
  }

  lemma ReadKeepsInv(b: Bus, c: string, n: nat)
    requires Inv(b) && Read(b, c, n).Enabled?
    ensures Inv(Read(b, c, n).bus)
  {
    ReadExtendsLedgers(b, c, n);
    ReadKeepsWorkers(b, c, n);
  }

  lemma ClaimKeepsInv(b: Bus, c: string, ids: seq<Id>)
    requires Inv(b) && Claim(b, c, ids).Enabled? && ids != []
    ensures Inv(Claim(b, c, ids).bus)
  {
    var b' := Claim(b, c, ids).bus;
    var handed := Redelivered(b.pending, ids);
    forall i | 0 <= i < |handed| ensures handed[i].id in ids && handed[i].delivery == b.deliveries[handed[i].id] + 1 {
      assert ids[i] in ids;
    }
    forall x | WasDelivered(b.deliveries, x) ensures WasDelivered(b'.deliveries, x) && x !in handed {
    }
    forall x | x in handed ensures WasDelivered(b'.deliveries, x) {
    }
    forall d | d in b'.workers ensures WorkerOk(b', b'.workers[d]) {
      assert d != c ==> WorkerOk(b, b.workers[d]);
    }
    forall d, x | d in b.workers && x in Held(b.workers[d]) ensures x !in handed {
      assert WorkerOk(b, b.workers[d]);
    }
  }

  lemma AskKeepsInv(b: Bus, c: string)
    requires Inv(b) && Ask(b, c).Enabled?
    ensures Inv(Ask(b, c).bus)
  {
    var b' := Ask(b, c).bus;
    var w := b.workers[c];
    assert WorkerOk(b, w);
    DropKeepsSharing(b, c, b'.workers[c]);
    var reply := PendingReply(b.pending, c, w.copies);
    forall x | x in w.copies && x.id in reply ensures CountSeen(CountsOf(b.pending, reply), x.id) >= x.delivery {
      assert x.id in OwnedInRange(b.pending, c, w.copies[0].id, w.copies[|w.copies| - 1].id);
      assert WasDelivered(b.deliveries, x);
    }
    forall d | d in b'.workers ensures WorkerOk(b', b'.workers[d]) {
      assert d != c ==> WorkerOk(b, b.workers[d]);
    }
  }

  lemma MoreCallsKeepWorkerOk(b: Bus, x: Copy, w: Worker)
    requires WorkerOk(b, w)
    ensures forall workers :: WorkerOk(b.(workers := workers, calls := b.calls + [x]), w)
  {
    hide WasDelivered, PoisonSeen, InOrder;
  }

  lemma StartKeepsInv(b: Bus, c: string)
    requires Inv(b) && WorkerOf(b, c).Batch? && WorkerOf(b, c).copies != []
    requires !IsPoison(WorkerOf(b, c).source, WorkerOf(b, c).copies[0].id)
    ensures Inv(StartHandler(b, c))
  {
    HeadIsFit(b, c);
    hide WorkersOk, WorkerOk, NobodyShares, HeldUntried, CallsOk, AcksJustified, WasDelivered, IsPoison;
    StartKeepsWorkers(b, c);
    StartKeepsUntried(b, c);
    OneMoreCall(b, WorkerOf(b, c).copies[0]);
    SameLedgers(b, StartHandler(b, c));
    hide Partitioned, CountersAgree;
  }

  /** Neither Redis state nor what is settled changed. */
  lemma SameLedgers(b: Bus, b': Bus)
    requires Partitioned(b) && CountersAgree(b)
    requires b'.published == b.published && b'.cursor == b.cursor && b'.pending == b.pending && b'.acked == b.acked
    requires b'.deliveries == b.deliveries
    ensures Partitioned(b') && CountersAgree(b')
  {
  }

  lemma HeadIsFit(b: Bus, c: string)
    requires Inv(b) && WorkerOf(b, c).Batch? && WorkerOf(b, c).copies != []
    ensures var w := WorkerOf(b, c);
            && w.copies[0] !in b.calls && w.copies[0] !in w.copies[1..] && WasDelivered(b.deliveries, w.copies[0])
            && (!IsPoison(w.source, w.copies[0].id) && w.copies[0].delivery > MAX_DELIVERIES ==> w.copies[0] in b.missed)
  {
    var w := b.workers[c];
    assert WorkerOk(b, w) && w.copies[0] in Held(w);
    TailOk(b, w);
  }

  lemma StartKeepsUntried(b: Bus, c: string)
    requires NobodyShares(b.workers) && HeldUntried(b) && WorkerOf(b, c).Batch? && WorkerOf(b, c).copies != []
    requires WorkerOf(b, c).copies[0] !in WorkerOf(b, c).copies[1..]
    ensures HeldUntried(StartHandler(b, c)) && NobodyShares(StartHandler(b, c).workers)
  {
    var w, b' := b.workers[c], StartHandler(b, c);
    var x := w.copies[0];
    assert x in Held(w);
    assert forall y :: y in w.copies[1..] ==> y in Held(w);
    assert forall y :: y in b'.calls ==> y in b.calls || y == x;
  }

  lemma OneMoreCall(b: Bus, x: Copy)
    requires CallsOk(b) && AcksJustified(b) && x !in b.calls && WasDelivered(b.deliveries, x)
    requires x.delivery > MAX_DELIVERIES ==> x in b.missed
    ensures CallsOk(b.(calls := b.calls + [x])) && AcksJustified(b.(calls := b.calls + [x]))
    ensures forall y :: y in b.calls + [x] <==> y in b.calls || y == x
  {
    forall id | id in b.returned ensures WasCalled(b.calls + [x], id) {
      var y :| y in b.calls && y.id == id;
      assert y in b.calls + [x];
    }
  }

  lemma StartKeepsWorkers(b: Bus, c: string)
    requires WorkersOk(b) && WorkerOf(b, c).Batch? && WorkerOf(b, c).copies != []
    ensures WorkersOk(StartHandler(b, c))
  {
    var w := b.workers[c];
    assert WorkerOk(b, w);
    TailOk(b, w);
    var b' := StartHandler(b, c);
    hide WorkerOk;
    forall d | d in b'.workers ensures WorkerOk(b', b'.workers[d]) {
      if d != c {
        assert WorkerOk(b, b.workers[d]);
        MoreCallsKeepWorkerOk(b, w.copies[0], b.workers[d]);
      } else {
        WorkerOkIgnoresOthers(b.(calls := b'.calls), b'.workers, b'.workers[c]);
      }
    }
  }

  lemma WorkerOkIgnoresOthers(b: Bus, workers: map<string, Worker>, w: Worker)
    requires WorkerOk(b, w)
    ensures WorkerOk(b.(workers := workers), w)
  {
  }

  lemma DeadLetterKeepsInv(b: Bus, c: string)
    requires Inv(b) && WorkerOf(b, c).Batch? && WorkerOf(b, c).copies != []
    requires IsPoison(WorkerOf(b, c).source, WorkerOf(b, c).copies[0].id)
    ensures Inv(DeadLetter(b, c))
  {
    var w := b.workers[c];
    assert WorkerOk(b, w);
    TailOk(b, w);
    var id := w.copies[0].id;
    var w' := Batch(w.copies[1..], w.source);
    MoveKeepsInv(b, c, w');
    var m := SetWorker(b, c, w').(deadLettered := b.deadLettered[id := CountSeen(w.source.counts, id)]);
    forall d | d in m.workers ensures WorkerOk(m, m.workers[d]) {
      assert WorkerOk(SetWorker(b, c, w'), m.workers[d]);
    }
    AckKeepsInv(m, id);
    assert DeadLetter(b, c) == m.(pending := m.pending - {id}, acked := m.acked + {id});
  }

  lemma ReturnKeepsInv(b: Bus, c: string)
    requires Inv(b) && Next(b, HandlerReturns(c)).Enabled?
    ensures Inv(Next(b, HandlerReturns(c)).bus)
  {
    var b' := Next(b, HandlerReturns(c)).bus;
    var w := b.workers[c];
    assert WorkerOk(b, w);
    DropKeepsSharing(b, c, b'.workers[c]);
    forall d | d in b'.workers ensures WorkerOk(b', b'.workers[d]) {
      assert d != c ==> WorkerOk(b, b.workers[d]);
    }
  }

  /** The invariant holds after every enabled step. */
  lemma NextKeepsInv(b: Bus, a: Action)
    requires Inv(b) && Next(b, a).Enabled?
    ensures Inv(Next(b, a).bus)
  {
    hide Inv, WorkerOk;
    match a
    case Publish => TimeKeepsInv(b, b.published + 1, b.now);
    case Tick(ms) => TimeKeepsInv(b, b.published, b.now + ms);
    case ReadNew(c, n) => ReadKeepsInv(b, c, n);
    case AutoClaim(c, ids) =>
      if ids == [] { LetGoKeepsInv(b, c); } else { ClaimKeepsInv(b, c, ids); }
    case AskPending(c) => AskKeepsInv(b, c);
    case Deliver(c) =>
      var w := b.workers[c];
      if IsPoison(w.source, w.copies[0].id) { DeadLetterKeepsInv(b, c); } else { StartKeepsInv(b, c); }
    case DecodeFails(c) => SkipKeepsInv(b, c);
    case HandlerReturns(c) => ReturnKeepsInv(b, c);
    case HandlerRaises(c) => ResumeKeepsInv(b, c);
    case Ack(c) => AckStepKeepsInv(b, c);
    case AckFails(c) => ResumeKeepsInv(b, c);
    case Done(c) => LetGoKeepsInv(b, c);
    case Abort(c) => LetGoKeepsInv(b, c);
  }

  lemma TimeKeepsInv(b: Bus, published: nat, now: int)
    requires Inv(b) && b.published <= published
    ensures Inv(b.(published := published, now := now))
  {
    var b' := b.(published := published, now := now);
    assert forall d :: d in b.workers ==> WorkerOk(b, b.workers[d]) ==> WorkerOk(b', b'.workers[d]);
  }

  lemma LetGoKeepsInv(b: Bus, c: string)
    requires Inv(b)
    ensures Inv(SetWorker(b, c, Idle))
  {
    MoveKeepsInv(b, c, Idle);
  }

  lemma SkipKeepsInv(b: Bus, c: string)
    requires Inv(b) && WorkerOf(b, c).Batch? && WorkerOf(b, c).copies != []
    ensures Inv(SetWorker(b, c, Batch(WorkerOf(b, c).copies[1..], WorkerOf(b, c).source)))
  {
    assert WorkerOk(b, b.workers[c]);
    TailOk(b, b.workers[c]);
    MoveKeepsInv(b, c, Batch(b.workers[c].copies[1..], b.workers[c].source));
  }

  /** The consumer goes on with the rest of its batch. */
  lemma ResumeKeepsInv(b: Bus, c: string)
    requires Inv(b) && (WorkerOf(b, c).Running? || WorkerOf(b, c).Returned?)
    ensures Inv(SetWorker(b, c, Batch(WorkerOf(b, c).copies, WorkerOf(b, c).source)))
  {
    assert WorkerOk(b, b.workers[c]);
    MoveKeepsInv(b, c, Batch(b.workers[c].copies, b.workers[c].source));
  }

  lemma AckStepKeepsInv(b: Bus, c: string)
    requires Inv(b) && Next(b, Ack(c)).Enabled?
    ensures Inv(Next(b, Ack(c)).bus)
  {
    var w := b.workers[c];
    assert WorkerOk(b, w);
    ResumeKeepsInv(b, c);
    AckKeepsInv(SetWorker(b, c, Batch(w.copies, w.source)), w.copy.id);
  }

  lemma {:induction false} RunKeepsInv(b: Bus, trace: seq<Action>)
    requires Inv(b) && Run(b, trace).Enabled?
    ensures Inv(Run(b, trace).bus)
    decreases |trace|
  {
    if trace == [] {
    } else {
      NextKeepsInv(b, trace[0]);
      RunKeepsInv(Next(b, trace[0]).bus, trace[1..]);
    }
  }

  lemma InitialInv()
    ensures Inv(INITIAL)
  {
  }

  // ---------------------------------------------------------------- what every run guarantees

  /** At every moment of every run each published message is in exactly one place. */
  lemma EveryMessageInOnePlace(trace: seq<Action>, id: Id)
    requires Run(INITIAL, trace).Enabled?
    ensures var b := Run(INITIAL, trace).bus;
            var undelivered := b.cursor <= id;
            && (id < b.published ==>
                  || (undelivered && id !in b.pending && id !in b.acked)
                  || (!undelivered && id in b.pending && id !in b.acked)
                  || (!undelivered && id !in b.pending && id in b.acked))
            && (b.published <= id ==> id !in b.pending && id !in b.acked)
  {
    InitialInv();
    RunKeepsInv(INITIAL, trace);
  }

  /** No count a consumer works with, and none a message was dead-lettered for, exceeds the
      deliveries the message really had. */
  ghost predicate CountsAreReal(b: Bus) {
    && (forall c, id :: c in b.workers && id in CountsHeld(b.workers[c]) ==>
          id in b.deliveries && CountsHeld(b.workers[c])[id] <= b.deliveries[id])
    && (forall id :: id in b.deadLettered ==> id in b.deliveries && b.deadLettered[id] <= b.deliveries[id])
  }

  function CountsHeld(w: Worker): map<Id, nat> {
    if (w.Batch? || w.Running? || w.Returned?) && w.source.Reclaimed? then w.source.counts else map[]
  }

  /** What a step may do to the counters. */
  lemma DeliveriesGrow(b: Bus, a: Action)
    requires Inv(b) && Next(b, a).Enabled?
    ensures forall id :: id in b.deliveries ==>
              id in Next(b, a).bus.deliveries && b.deliveries[id] <= Next(b, a).bus.deliveries[id]
  {
    hide IsPoison, PendingReply, WorkersOk, NobodyShares, HeldUntried, CallsOk, AcksJustified;
  }

  lemma NextKeepsCounts(b: Bus, a: Action)
    requires Inv(b) && CountsAreReal(b) && Next(b, a).Enabled?
    ensures CountsAreReal(Next(b, a).bus)
  {
    hide CountsAreReal, Inv;
    if a.AskPending? {
      AskKeepsCounts(b, a.c);
    } else if a.Deliver? && IsPoison(WorkerOf(b, a.c).source, WorkerOf(b, a.c).copies[0].id) {
      DeadLetterKeepsCounts(b, a.c);
    } else {
      OthersKeepCounts(b, a);
      DeliveriesGrow(b, a);
      hide Next, IsPoison;
      CountsFollow(b, Next(b, a).bus);
    }
  }

  lemma CountsFollow(b: Bus, b': Bus)
    requires CountsAreReal(b) && b'.deadLettered == b.deadLettered
    requires forall id :: id in b.deliveries ==> id in b'.deliveries && b.deliveries[id] <= b'.deliveries[id]
    requires forall c :: c in b'.workers ==>
               CountsHeld(b'.workers[c]) == map[] || (c in b.workers && CountsHeld(b'.workers[c]) == CountsHeld(b.workers[c]))
    ensures CountsAreReal(b')
  {
    hide CountsHeld;
  }

  lemma AskKeepsCounts(b: Bus, c: string)
    requires Inv(b) && CountsAreReal(b) && Ask(b, c).Enabled?
    ensures CountsAreReal(Ask(b, c).bus)
  {
    AskedCounts(b, c);
    PendingCounts(b);
    hide *;
    FreshCounts(b, Ask(b, c).bus, c);
  }

  lemma PendingCounts(b: Bus)
    requires Inv(b)
    ensures forall id :: id in b.pending ==> id in b.deliveries && b.pending[id].deliveries == b.deliveries[id]
  {
  }

  lemma FreshCounts(b: Bus, b': Bus, c: string)
    requires CountsAreReal(b) && b'.deliveries == b.deliveries && b'.deadLettered == b.deadLettered
    requires forall id :: id in b.pending ==> id in b.deliveries && b.pending[id].deliveries == b.deliveries[id]
    requires forall d :: d in b'.workers && d != c ==> d in b.workers && b'.workers[d] == b.workers[d]
    requires c in b'.workers && forall id :: id in CountsHeld(b'.workers[c]) ==>
               id in b.pending && CountsHeld(b'.workers[c])[id] == b.pending[id].deliveries
    ensures CountsAreReal(b')
  {
    hide CountsHeld;
  }

  lemma AskedCounts(b: Bus, c: string)
    requires Ask(b, c).Enabled?
    ensures var b' := Ask(b, c).bus;
            && b'.deliveries == b.deliveries && b'.deadLettered == b.deadLettered
            && (forall d :: d in b'.workers && d != c ==> d in b.workers && b'.workers[d] == b.workers[d])
            && c in b'.workers
            && (forall id :: id in CountsHeld(b'.workers[c]) ==> id in b.pending && CountsHeld(b'.workers[c])[id] == b.pending[id].deliveries)
  {
    hide PendingReply;
  }

  lemma DeadLetterKeepsCounts(b: Bus, c: string)
    requires CountsAreReal(b) && WorkerOf(b, c).Batch? && WorkerOf(b, c).copies != []
    requires IsPoison(WorkerOf(b, c).source, WorkerOf(b, c).copies[0].id)
    ensures CountsAreReal(DeadLetter(b, c))
  {
    assert WorkerOf(b, c).copies[0].id in CountsHeld(b.workers[c]);
    assert CountsHeld(DeadLetter(b, c).workers[c]) == CountsHeld(b.workers[c]);
  }

  /** No other step makes up counts. */
  lemma OthersKeepCounts(b: Bus, a: Action)
    requires Next(b, a).Enabled? && !a.AskPending?
    requires a.Deliver? ==> !IsPoison(WorkerOf(b, a.c).source, WorkerOf(b, a.c).copies[0].id)
    ensures var b' := Next(b, a).bus;
            && b'.deadLettered == b.deadLettered
            && forall c :: c in b'.workers ==>
                 CountsHeld(b'.workers[c]) == map[] || (c in b.workers && CountsHeld(b'.workers[c]) == CountsHeld(b.workers[c]))
  {
    hide IsPoison;
  }

  lemma {:induction false} RunKeepsCounts(b: Bus, trace: seq<Action>)
    requires Inv(b) && CountsAreReal(b) && Run(b, trace).Enabled?
    ensures CountsAreReal(Run(b, trace).bus)
    decreases |trace|
  {
    hide Inv, Next, CountsAreReal;
    if trace == [] {
    } else {
      NextKeepsCounts(b, trace[0]);
      NextKeepsInv(b, trace[0]);
      RunKeepsCounts(Next(b, trace[0]).bus, trace[1..]);
    }
  }

  /** Nothing is acked unless its handler was called and returned, or it has been delivered more
      than MAX_DELIVERIES times. */
  lemma AckedOnlyWithReason(trace: seq<Action>, id: Id)
    requires Run(INITIAL, trace).Enabled? && id in Run(INITIAL, trace).bus.acked
    ensures var b := Run(INITIAL, trace).bus;
            || (id in b.returned && WasCalled(b.calls, id))
            || (id in b.deadLettered && id in b.deliveries && b.deliveries[id] > MAX_DELIVERIES)
  {
    InitialInv();
    RunKeepsInv(INITIAL, trace);
    assert CountsAreReal(INITIAL);
    RunKeepsCounts(INITIAL, trace);
  }

  /** How often the handler was tried on message `id`. */
  function Attempts(calls: seq<Copy>, id: Id): nat {
    if calls == [] then 0
    else Attempts(calls[..|calls| - 1], id) + if calls[|calls| - 1].id == id then 1 else 0
  }

  function Numbered(id: Id, m: nat): set<Copy>
  {
    if m == 0 then {} else Numbered(id, m - 1) + {Copy(id, m)}
  }

  lemma {:induction false} NumberedSize(id: Id, m: nat)
    ensures |Numbered(id, m)| == m
    ensures forall x :: x in Numbered(id, m) <==> x.id == id && 1 <= x.delivery <= m
  {
    if m == 0 {
    } else {
      NumberedSize(id, m - 1);
    }
  }

  function CopiesOf(calls: seq<Copy>, id: Id): (s: set<Copy>)
    ensures forall x :: x in s <==> x in calls && x.id == id
  {
    set x | x in calls && x.id == id
  }

  lemma {:induction false} AttemptsAreDistinctCopies(calls: seq<Copy>, id: Id)
    requires Distinct(calls)
    ensures Attempts(calls, id) == |CopiesOf(calls, id)|
  {
    if calls == [] {
    } else {
      var before, last := calls[..|calls| - 1], calls[|calls| - 1];
      AttemptsAreDistinctCopies(before, id);
      LastIsNew(calls);
      hide CopiesOf, Distinct;
      assert CopiesOf(calls, id) == CopiesOf(before, id) + if last.id == id then {last} else {};
    }
  }

  lemma LastIsNew(calls: seq<Copy>)
    requires Distinct(calls) && calls != []
    ensures var before, last := calls[..|calls| - 1], calls[|calls| - 1];
            Distinct(before) && last !in before && forall x :: x in calls <==> x in before || x == last
  {
    assert calls == calls[..|calls| - 1] + [calls[|calls| - 1]];
  }

  lemma LowDeliveriesLimitAttempts(b: Bus, id: Id)
    requires Inv(b) && forall x :: x in b.calls && x.id == id ==> x.delivery <= MAX_DELIVERIES
    ensures Attempts(b.calls, id) <= MAX_DELIVERIES
  {
    AttemptsAreDistinctCopies(b.calls, id);
    NumberedSize(id, MAX_DELIVERIES);
    SubsetSize(CopiesOf(b.calls, id), Numbered(id, MAX_DELIVERIES));
  }

  /** A handler is called on a delivery past the limit exactly when that delivery was claimed,
      due for dead-lettering, and left out of the XPENDING reply, however the consumers
      interleave. */
  lemma PastLimitExactlyWhenMissed(trace: seq<Action>, x: Copy)
    requires Run(INITIAL, trace).Enabled? && x in Run(INITIAL, trace).bus.calls
    ensures x.delivery > MAX_DELIVERIES <==> x in Run(INITIAL, trace).bus.missed
  {
    InitialInv();
    RunKeepsInv(INITIAL, trace);
  }

  /** So a message none of whose due deliveries was missed is tried at most MAX_DELIVERIES times. */
  lemma UnmissedIsBounded(trace: seq<Action>, id: Id)
    requires Run(INITIAL, trace).Enabled? && forall x :: x in Run(INITIAL, trace).bus.missed ==> x.id != id
    ensures Attempts(Run(INITIAL, trace).bus.calls, id) <= MAX_DELIVERIES
  {
    InitialInv();
    RunKeepsInv(INITIAL, trace);
    LowDeliveriesLimitAttempts(Run(INITIAL, trace).bus, id);
  }

  /** Every XPENDING reply of the run covers the ids it was asked about. */
  ghost predicate Covering(b: Bus, trace: seq<Action>)
    requires Run(b, trace).Enabled?
    decreases |trace|
  {
    trace != [] ==>
      && (trace[0].AskPending? ==>
            var copies := WorkerOf(b, trace[0].c).copies; Covers(PendingReply(b.pending, trace[0].c, copies), copies))
      && Covering(Next(b, trace[0]).bus, trace[1..])
  }

  lemma CoveredStepMissesNothing(b: Bus, a: Action)
    requires Next(b, a).Enabled?
    requires a.AskPending? ==> var copies := WorkerOf(b, a.c).copies; Covers(PendingReply(b.pending, a.c, copies), copies)
    ensures Next(b, a).bus.missed == b.missed
  {
    hide PendingReply, IsPoison;
  }

  lemma {:induction false} CoveringMissesNothing(b: Bus, trace: seq<Action>)
    requires Run(b, trace).Enabled? && Covering(b, trace)
    ensures Run(b, trace).bus.missed == b.missed
    decreases |trace|
  {
    hide Next;
    if trace == [] {
    } else {
      CoveredStepMissesNothing(b, trace[0]);
      CoveringMissesNothing(Next(b, trace[0]).bus, trace[1..]);
    }
  }

  /** As long as every XPENDING reply covers the ids it was asked about, no handler is tried on
      one message more than MAX_DELIVERIES times, however the consumers interleave. */
  lemma AttemptsAreBounded(trace: seq<Action>, id: Id)
    requires Run(INITIAL, trace).Enabled? && Covering(INITIAL, trace)
    ensures Attempts(Run(INITIAL, trace).bus.calls, id) <= MAX_DELIVERIES
  {
    CoveringMissesNothing(INITIAL, trace);
    UnmissedIsBounded(trace, id);
  }

  // ---------------------------------------------------------------- when a reply covers

  function IdsOf(copies: seq<Copy>): (ids: seq<Id>)
    ensures |ids| == |copies| && forall i :: 0 <= i < |ids| ==> ids[i] == copies[i].id
  {
    seq(|copies|, i requires 0 <= i < |copies| => copies[i].id)
  }

  lemma FullAscendingSubset(part: seq<Id>, whole: seq<Id>)
    requires Ascending(part) && Ascending(whole) && |whole| <= |part|
    requires forall id :: id in part ==> id in whole
    ensures part == whole
  {
    var p, w := Members(part), Members(whole);
    DistinctSize(part);
    DistinctSize(whole);
    assert w == p + (w - p);
    assert w - p == {};
    forall id | id in whole ensures id in part {
      assert id in w && id in p;
    }
    SameMembersSameSequence(part, whole);
  }

  lemma OwnedIsCovered(owned: seq<Id>, copies: seq<Copy>)
    requires owned == IdsOf(copies)
    ensures Covers(owned, copies)
  {
    forall x | x in copies ensures x.id in owned {
      var i :| 0 <= i < |copies| && copies[i] == x;
      assert owned[i] == x.id;
    }
  }

  lemma CoveredIsOwned(owned: seq<Id>, reply: seq<Id>, copies: seq<Copy>)
    requires copies != [] && InOrder(copies) && Ascending(owned)
    requires forall i :: 0 <= i < |owned| ==> owned[i] <= copies[|copies| - 1].id
    requires reply == PrefixUpTo(owned, |copies|)
    requires Covers(reply, copies)
    ensures owned == IdsOf(copies)
  {
    var ids := IdsOf(copies);
    forall id | id in ids ensures id in reply {
      var i :| 0 <= i < |ids| && ids[i] == id;
      assert copies[i] in copies;
    }
    FullAscendingSubset(ids, reply);
    var n, m := |copies|, |owned| - 1;
    assert owned[m] <= copies[n - 1].id == ids[n - 1] == owned[n - 1];
  }

  /** The reply covers the claimed messages exactly when the consumer's pending entries in
      their span are the claimed ones: none stolen by another consumer, and no fresher entry
      of its own lying between them. */
  lemma ReplyCoversExactlyWhen(pending: map<Id, Entry>, c: string, copies: seq<Copy>)
    requires copies != [] && InOrder(copies)
    ensures Covers(PendingReply(pending, c, copies), copies)
            <==> OwnedInRange(pending, c, copies[0].id, copies[|copies| - 1].id) == IdsOf(copies)
  {
    var owned := OwnedInRange(pending, c, copies[0].id, copies[|copies| - 1].id);
    assert forall i :: 0 <= i < |owned| ==> owned[i] in owned;
    if Covers(PendingReply(pending, c, copies), copies) {
      CoveredIsOwned(owned, PendingReply(pending, c, copies), copies);
    } else if owned == IdsOf(copies) {
      OwnedIsCovered(owned, copies);
    }
  }

  /** The consumer's own pending ids from `lo` up to, not including, `id`. */
  function OwnedBelow(pending: map<Id, Entry>, c: string, lo: nat, id: Id): set<Id> {
    set i | i in pending && lo <= i < id && pending[i].consumer == c
  }

  lemma PositionInOwned(pending: map<Id, Entry>, c: string, lo: nat, hi: nat, k: nat)
    requires k < |OwnedInRange(pending, c, lo, hi)|
    ensures |OwnedBelow(pending, c, lo, OwnedInRange(pending, c, lo, hi)[k])| == k
  {
    var owned := OwnedInRange(pending, c, lo, hi);
    var below := owned[..k];
    assert owned[k] in owned;
    forall i | i in OwnedBelow(pending, c, lo, owned[k]) ensures i in Members(below) {
      assert i in owned;
      var j :| 0 <= j < |owned| && owned[j] == i;
      assert below[j] == i;
    }
    forall i | i in Members(below) ensures i in OwnedBelow(pending, c, lo, owned[k]) {
      var j :| 0 <= j < k && below[j] == i;
      assert owned[j] in owned;
    }
    assert Members(below) == OwnedBelow(pending, c, lo, owned[k]);
    DistinctSize(below);
  }

  /** The reply lists a claimed message exactly when the consumer still holds its entry and fewer
      of its own entries lie before it in the span than were claimed; a due one is missed
      exactly otherwise. */
  lemma ListedExactlyWhen(pending: map<Id, Entry>, c: string, copies: seq<Copy>, x: Copy)
    requires InOrder(copies) && x in copies
    ensures var reply := PendingReply(pending, c, copies);
            var listed := x.id in pending && pending[x.id].consumer == c && |OwnedBelow(pending, c, copies[0].id, x.id)| < |copies|;
            && (x.id in reply <==> listed)
            && (x in MissedBy(reply, copies) <==> x.delivery > MAX_DELIVERIES && !listed)
  {
    var lo, hi := copies[0].id, copies[|copies| - 1].id;
    var owned := OwnedInRange(pending, c, lo, hi);
    hide OwnedInRange, OwnedBelow;
    if x.id in owned {
      var k :| 0 <= k < |owned| && owned[k] == x.id;
      PositionInOwned(pending, c, lo, hi, k);
      if k < |copies| {
        assert PendingReply(pending, c, copies)[k] == x.id;
      } else {
        assert forall j :: 0 <= j < |copies| ==> owned[j] < owned[k];
      }
    }
  }

  /** After the reply, every message of the claimed batch, wherever it stands in it, is bound
      for dead-lettering exactly when the reply lists it with a count above MAX_DELIVERIES; all
      others will go to the handler, whatever their count. */
  lemma DeadLetteredExactlyWhenSeen(b: Bus, c: string, i: nat)
    requires Inv(b) && WorkerOf(b, c).Claimed? && i < |WorkerOf(b, c).copies|
    ensures var copies := WorkerOf(b, c).copies;
            var reply := PendingReply(b.pending, c, copies);
            var after := Next(b, AskPending(c));
            && after.Enabled?
            && WorkerOf(after.bus, c).Batch? && WorkerOf(after.bus, c).copies == copies
            && (IsPoison(WorkerOf(after.bus, c).source, copies[i].id)
                <==> copies[i].id in reply && b.deliveries[copies[i].id] > MAX_DELIVERIES)
  {
    CountersOfPending(b);
    hide Inv, PendingReply;
    var copies := b.workers[c].copies;
    var reply := PendingReply(b.pending, c, copies);
    ReplyIsOwned(b.pending, c, copies);
    assert WorkerOf(Ask(b, c).bus, c) == Batch(copies, Reclaimed(CountsOf(b.pending, reply)));
  }

  lemma CountersOfPending(b: Bus)
    requires Inv(b)
    ensures forall id :: id in b.pending ==> id in b.deliveries && b.deliveries[id] == b.pending[id].deliveries
    ensures forall c, x :: c in b.workers && x in Held(b.workers[c]) ==> x.id in b.deliveries
  {
    forall c, x | c in b.workers && x in Held(b.workers[c]) ensures x.id in b.deliveries {
      assert WorkerOk(b, b.workers[c]);
    }
  }

  lemma ReplyIsOwned(pending: map<Id, Entry>, c: string, copies: seq<Copy>)
    requires copies != []
    ensures forall id :: id in PendingReply(pending, c, copies) ==> id in pending
  {
    var owned := OwnedInRange(pending, c, copies[0].id, copies[|copies| - 1].id);
    assert forall id :: id in PendingReply(pending, c, copies) ==> id in owned;
  }

  lemma OwnEntryIsCovered(pending: map<Id, Entry>, c: string, x: Copy)
    requires x.id in pending && pending[x.id].consumer == c
    ensures x.id in PendingReply(pending, c, [x])
  {
    var owned := OwnedInRange(pending, c, x.id, x.id);
    assert x.id in owned;
    FullAscendingSubset([x.id], [x.id]);
    SameMembersSameSequence(owned, [x.id]);
  }

  // ---------------------------------------------------------------- acked is final

  /** Acked, and no consumer still holds a copy of it. */
  ghost predicate Settled(b: Bus, id: Id) {
    id in b.acked && forall c, x :: c in b.workers && x in Held(b.workers[c]) ==> x.id != id
  }

  lemma SettledStays(b: Bus, a: Action, id: Id)
    requires Inv(b) && Settled(b, id) && Next(b, a).Enabled?
    ensures Settled(Next(b, a).bus, id)
    ensures Attempts(Next(b, a).bus.calls, id) == Attempts(b.calls, id)
  {
    hide Inv, Settled, Attempts;
    match a
    case ReadNew(c, n) => SettledSurvivesRead(b, c, n, id);
    case AutoClaim(c, ids) => SettledSurvivesClaim(b, c, ids, id);
    case Deliver(c) => SettledSurvivesDelivery(b, c, id);
    case Publish => SettledSurvivesTime(b, b.published + 1, b.now, id);
    case Tick(ms) => SettledSurvivesTime(b, b.published, b.now + ms, id);
    case AskPending(c) => SettledSurvivesAsk(b, c, id);
    case DecodeFails(c) => SettledSurvivesHandling(b, a, c, id);
    case HandlerReturns(c) => SettledSurvivesHandling(b, a, c, id);
    case HandlerRaises(c) => SettledSurvivesHandling(b, a, c, id);
    case Ack(c) => SettledSurvivesRest(b, a, c, id);
    case AckFails(c) => SettledSurvivesRest(b, a, c, id);
    case Done(c) => SettledSurvivesRest(b, a, c, id);
    case Abort(c) => SettledSurvivesRest(b, a, c, id);
  }

  lemma SettledSurvivesTime(b: Bus, published: nat, now: int, id: Id)
    requires Settled(b, id)
    ensures Settled(b.(published := published, now := now), id)
  {
  }

  lemma SettledSurvivesAsk(b: Bus, c: string, id: Id)
    requires Settled(b, id) && Ask(b, c).Enabled?
    ensures Settled(Ask(b, c).bus, id) && Ask(b, c).bus.calls == b.calls
  {
    hide PendingReply, Settled;
    SettledSurvivesMove(b, c, Ask(b, c).bus, id);
  }

  lemma SettledSurvivesHandling(b: Bus, a: Action, c: string, id: Id)
    requires Settled(b, id) && Next(b, a).Enabled? && a in {DecodeFails(c), HandlerReturns(c), HandlerRaises(c)}
    ensures Settled(Next(b, a).bus, id) && Next(b, a).bus.calls == b.calls
  {
    hide Settled, IsPoison;
    SettledSurvivesMove(b, c, Next(b, a).bus, id);
  }

  lemma SettledSurvivesRest(b: Bus, a: Action, c: string, id: Id)
    requires Settled(b, id) && Next(b, a).Enabled? && a in {Ack(c), AckFails(c), Done(c), Abort(c)}
    ensures Settled(Next(b, a).bus, id) && Next(b, a).bus.calls == b.calls
  {
    hide Settled;
    SettledSurvivesMove(b, c, Next(b, a).bus, id);
  }

  /** A consumer that takes no new copy, and calls nobody. */
  lemma SettledSurvivesMove(b: Bus, c: string, b': Bus, id: Id)
    requires Settled(b, id) && c in b'.workers && b'.workers == b.workers[c := b'.workers[c]]
    requires b.acked <= b'.acked && b'.calls == b.calls
    requires forall x :: x in Held(b'.workers[c]) ==> x in Held(WorkerOf(b, c))
    ensures Settled(b', id)
  {
  }

  lemma SettledSurvivesRead(b: Bus, c: string, n: nat, id: Id)
    requires Inv(b) && Settled(b, id) && Read(b, c, n).Enabled?
    ensures Settled(Read(b, c, n).bus, id) && Read(b, c, n).bus.calls == b.calls
  {
    assert id < b.cursor;
    assert forall x :: x in FirstCopies(b.cursor, n) ==> x.id >= b.cursor;
  }

  lemma SettledSurvivesClaim(b: Bus, c: string, ids: seq<Id>, id: Id)
    requires Inv(b) && Settled(b, id) && Claim(b, c, ids).Enabled?
    ensures Settled(Claim(b, c, ids).bus, id) && Claim(b, c, ids).bus.calls == b.calls
  {
    assert id !in b.pending;
    hide Inv;
    if ids != [] {
      forall x | x in Redelivered(b.pending, ids) ensures x.id != id {
        assert x.id in ids;
      }
    }
  }

  lemma SettledSurvivesDelivery(b: Bus, c: string, id: Id)
    requires Settled(b, id) && Next(b, Deliver(c)).Enabled?
    ensures Settled(Next(b, Deliver(c)).bus, id)
    ensures Attempts(Next(b, Deliver(c)).bus.calls, id) == Attempts(b.calls, id)
  {
    var x := b.workers[c].copies[0];
    assert x in Held(b.workers[c]);
    assert (b.calls + [x])[..|b.calls|] == b.calls;
  }

  /** Once acked and let go of, a message is never handed to a handler again. */
  lemma {:induction false} AckedIsNeverHandledAgain(b: Bus, trace: seq<Action>, id: Id)
    requires Inv(b) && Settled(b, id) && Run(b, trace).Enabled?
    ensures Attempts(Run(b, trace).bus.calls, id) == Attempts(b.calls, id)
    decreases |trace|
  {
    hide Inv, Settled;
    if trace == [] {
    } else {
      SettledStays(b, trace[0], id);
      NextKeepsInv(b, trace[0]);
      AckedIsNeverHandledAgain(Next(b, trace[0]).bus, trace[1..], id);
    }
  }
}
