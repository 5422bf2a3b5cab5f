/**
  When the attempt bound of `core/events/base.py` needs no luck with the XPENDING reply: claims
  take the oldest stale entries first, so an entry that could push another out of the reply has
  been delivered at least as often, and is itself about to be dead-lettered.
 */
module ClaimOrder {
  import opened Sequences

  import opened ConsumerGroup

  // ---------------------------------------------------------------- well-behaved steps

  predicate Stale(b: Bus, id: Id) {
    id in b.pending && b.now - b.pending[id].deliveredAt >= PENDING_MIN_IDLE_MS
  }

  /** What XAUTOCLAIM from the start of the stream does, whatever its count. */
  ghost predicate OldestFirst(b: Bus, ids: seq<Id>) {
    forall i: Id, j: Id :: j in ids && i < j && Stale(b, i) ==> i in ids
  }

  /** Everything a consumer has not let go of. */
  function Touched(w: Worker): seq<Copy> {
    if w.Running? || w.Returned? then [w.copy] + w.copies else Held(w)
  }

  /** No claimed entry is still in the hands of a consumer: batches finish before they go stale. */
  ghost predicate Prompt(b: Bus, ids: seq<Id>) {
    forall d, x :: d in b.workers && x in Touched(b.workers[d]) ==> x.id !in ids
  }

  ghost predicate FairClaim(b: Bus, a: Action) {
    a.AutoClaim? ==> OldestFirst(b, a.ids) && Prompt(b, a.ids)
  }

  /** A consumer does not go down holding a copy that is due for dead-lettering. */
  ghost predicate SafeAbort(b: Bus, a: Action) {
    a.Abort? ==> forall x :: x in Held(WorkerOf(b, a.c)) ==> x.delivery <= MAX_DELIVERIES
  }

  ghost predicate FairRun(b: Bus, trace: seq<Action>)
    requires Run(b, trace).Enabled?
    decreases |trace|
  {
    trace != [] ==> FairClaim(b, trace[0]) && FairRun(Next(b, trace[0]).bus, trace[1..])
  }

  ghost predicate SafeRun(b: Bus, trace: seq<Action>)
    requires Run(b, trace).Enabled?
    decreases |trace|
  {
    trace != [] ==> SafeAbort(b, trace[0]) && SafeRun(Next(b, trace[0]).bus, trace[1..])
  }

  // ---------------------------------------------------------------- what they keep

  /** Of two pending entries the lower one has been delivered more often, or equally often and
      no later. */
  ghost predicate Ranked(pending: map<Id, Entry>) {
    forall i, j :: i in pending && j in pending && i < j ==>
      || pending[i].deliveries > pending[j].deliveries
      || (pending[i].deliveries == pending[j].deliveries && pending[i].deliveredAt <= pending[j].deliveredAt)
  }

  ghost predicate Dated(pending: map<Id, Entry>, now: int) {
    forall id :: id in pending ==> pending[id].deliveries >= 1 && pending[id].deliveredAt <= now
  }

  /** What a consumer touches is pending, its own, and its latest delivery. */
  ghost predicate Owns(pending: map<Id, Entry>, c: string, w: Worker) {
    && (forall x :: x in Touched(w) ==>
          x.id in pending && pending[x.id].consumer == c && pending[x.id].deliveries == x.delivery)
    && (w.Running? || w.Returned? ==> forall x :: x in w.copies ==> x.id != w.copy.id)
  }

  ghost predicate Hands(pending: map<Id, Entry>, workers: map<string, Worker>) {
    forall c :: c in workers ==> Owns(pending, c, workers[c]) && Recognised(workers[c])
  }

  /** An entry due for dead-lettering is in the hands of its consumer. */
  ghost predicate DueIsHeld(pending: map<Id, Entry>, workers: map<string, Worker>) {
    forall id :: id in pending && pending[id].deliveries > MAX_DELIVERIES ==>
      && pending[id].consumer in workers
      && Copy(id, pending[id].deliveries) in Held(workers[pending[id].consumer])
  }

  /** A dispatch loop recognises every copy that is due. */
  ghost predicate Recognised(w: Worker) {
    w.Batch? || w.Running? || w.Returned? ==> PoisonSeen(w.copies, w.source, {})
  }

  ghost predicate Bounded(calls: seq<Copy>) {
    forall x :: x in calls ==> x.delivery <= MAX_DELIVERIES
  }

  ghost predicate Safe(b: Bus) {
    && Ranked(b.pending) && Dated(b.pending, b.now)
    && Hands(b.pending, b.workers)
    && DueIsHeld(b.pending, b.workers)
    && Bounded(b.calls)
  }

  // ---------------------------------------------------------------- one consumer at a time

  /** The head of a batch and its tail. */
  lemma TailOwned(pending: map<Id, Entry>, c: string, copies: seq<Copy>, source: Source)
    requires copies != [] && InOrder(copies)
    requires Owns(pending, c, Batch(copies, source)) && Recognised(Batch(copies, source))
    ensures var rest := copies[1..];
            && Owns(pending, c, Batch(rest, source)) && Recognised(Batch(rest, source))
            && Owns(pending, c, Running(copies[0], rest, source)) && Recognised(Running(copies[0], rest, source))
    ensures forall y :: y in copies ==> y == copies[0] || y in copies[1..]
    ensures forall y :: y in copies[1..] ==> y.id != copies[0].id
    ensures copies[0].id in pending && pending[copies[0].id].consumer == c
    ensures !IsPoison(source, copies[0].id) ==> copies[0].delivery <= MAX_DELIVERIES
  {
    TailMembers(copies);
    hide InOrder;
    assert copies[0] in copies;
  }

  lemma TailMembers(copies: seq<Copy>)
    requires copies != [] && InOrder(copies)
    ensures forall y :: y in copies ==> y == copies[0] || y in copies[1..]
    ensures forall y :: y in copies[1..] ==> y in copies && y.id != copies[0].id
    ensures InOrder(copies[1..])
  {
    forall y | y in copies[1..] ensures y in copies && y.id != copies[0].id {
      var i :| 0 <= i < |copies[1..]| && copies[1..][i] == y;
      assert copies[i + 1] == y;
    }
    forall y | y in copies ensures y == copies[0] || y in copies[1..] {
      var i :| 0 <= i < |copies| && copies[i] == y;
      assert i > 0 ==> copies[1..][i - 1] == y;
    }
  }

  lemma SettledIsNotTouched(pending: map<Id, Entry>, d: string, w: Worker, id: Id)
    requires Owns(pending, d, w) && id in pending
    requires pending[id].consumer != d || forall x :: x in Touched(w) ==> x.id != id
    ensures Owns(pending - {id}, d, w)
  {
  }

  lemma SettlingKeepsRanks(pending: map<Id, Entry>, id: Id, now: int)
    requires Ranked(pending) && Dated(pending, now)
    ensures Ranked(pending - {id}) && Dated(pending - {id}, now)
  {
  }

  lemma SettlingKeepsDue(pending: map<Id, Entry>, workers: map<string, Worker>, c: string, id: Id, w: Worker)
    requires DueIsHeld(pending, workers) && c in workers
    requires forall x :: x in Held(workers[c]) && x.id != id ==> x in Held(w)
    ensures DueIsHeld(pending - {id}, workers[c := w])
  {
  }

  /** Consumer c settles an entry of its own and goes on as w. */
  lemma SettlingKeepsHands(pending: map<Id, Entry>, workers: map<string, Worker>, c: string, id: Id, w: Worker)
    requires Hands(pending, workers) && id in pending && pending[id].consumer == c
    requires Owns(pending, c, w) && Recognised(w) && forall x :: x in Touched(w) ==> x.id != id
    ensures Hands(pending - {id}, workers[c := w])
  {
    hide Recognised;
    var after := workers[c := w];
    forall d | d in after ensures Owns(pending - {id}, d, after[d]) && Recognised(after[d]) {
      SettledIsNotTouched(pending, d, after[d], id);
    }
  }

  lemma MovingKeepsHands(pending: map<Id, Entry>, workers: map<string, Worker>, c: string, w: Worker)
    requires Hands(pending, workers) && Owns(pending, c, w) && Recognised(w)
    ensures Hands(pending, workers[c := w])
  {
    hide Owns, Recognised;
  }

  lemma MovingKeepsDue(pending: map<Id, Entry>, workers: map<string, Worker>, c: string, w: Worker)
    requires DueIsHeld(pending, workers)
    requires forall x :: c in workers && x in Held(workers[c]) && x.delivery > MAX_DELIVERIES ==> x in Held(w)
    ensures DueIsHeld(pending, workers[c := w])
  {
  }

  // ---------------------------------------------------------------- claims

  lemma ClaimKeepsRanks(b: Bus, c: string, ids: seq<Id>)
    requires Safe(b) && Claim(b, c, ids).Enabled? && ids != [] && OldestFirst(b, ids)
    ensures var b' := Claim(b, c, ids).bus; Ranked(b'.pending) && Dated(b'.pending, b'.now)
  {
    var after := Claim(b, c, ids).bus.pending;
    forall i, j | i in after && j in after && i < j
      ensures after[i].deliveries > after[j].deliveries
              || (after[i].deliveries == after[j].deliveries && after[i].deliveredAt <= after[j].deliveredAt)
    {
      assert j in ids && i !in ids ==> Stale(b, j) && !Stale(b, i);
    }
  }

  function ClaimedPending(b: Bus, c: string, ids: seq<Id>): map<Id, Entry> {
    map id | id in b.pending :: if id in ids then Entry(c, b.pending[id].deliveries + 1, b.now) else b.pending[id]
  }

  lemma ClaimedCopies(b: Bus, c: string, ids: seq<Id>)
    requires Claimable(b, ids)
    ensures Owns(ClaimedPending(b, c, ids), c, Claimed(Redelivered(b.pending, ids)))
    ensures forall id :: id in ids ==> Copy(id, b.pending[id].deliveries + 1) in Redelivered(b.pending, ids)
  {
    var copies := Redelivered(b.pending, ids);
    forall x | x in copies ensures x.id in ids && x == Copy(x.id, b.pending[x.id].deliveries + 1) {
      var i :| 0 <= i < |copies| && copies[i] == x;
      assert ids[i] in ids;
    }
    forall id | id in ids ensures Copy(id, b.pending[id].deliveries + 1) in copies {
      var i :| 0 <= i < |ids| && ids[i] == id;
      assert copies[i] == Copy(id, b.pending[id].deliveries + 1);
    }
  }

  lemma ClaimKeepsHands(b: Bus, c: string, ids: seq<Id>)
    requires Safe(b) && Claim(b, c, ids).Enabled? && ids != [] && Prompt(b, ids)
    ensures var b' := Claim(b, c, ids).bus; Hands(b'.pending, b'.workers) && DueIsHeld(b'.pending, b'.workers)
  {
    hide Ranked, Dated, Bounded, Redelivered;
    var b' := Claim(b, c, ids).bus;
    ClaimedCopies(b, c, ids);
    assert b'.pending == ClaimedPending(b, c, ids);
    forall d | d in b'.workers ensures Owns(b'.pending, d, b'.workers[d]) && Recognised(b'.workers[d]) {
      if d != c {
        assert Owns(b.pending, d, b.workers[d]) && Recognised(b.workers[d]);
        assert forall x :: x in Touched(b.workers[d]) ==> x.id !in ids;
      }
    }
    hide Owns, Recognised, Hands;
    forall id | id in b'.pending && b'.pending[id].deliveries > MAX_DELIVERIES
      ensures b'.pending[id].consumer in b'.workers
      ensures Copy(id, b'.pending[id].deliveries) in Held(b'.workers[b'.pending[id].consumer])
    {
      assert id !in ids ==> b'.pending[id] == b.pending[id];
    }
  }

  // ---------------------------------------------------------------- the reply

  /** Whatever of its own a consumer has pending below a due copy is in its batch. */
  lemma LowerOwnIsClaimed(pending: map<Id, Entry>, workers: map<string, Worker>, c: string, copies: seq<Copy>, x: Copy, id: Id)
    requires Ranked(pending) && DueIsHeld(pending, workers) && c in workers && workers[c] == Claimed(copies)
    requires Owns(pending, c, Claimed(copies)) && x in copies && x.delivery > MAX_DELIVERIES
    requires id in pending && pending[id].consumer == c && id <= x.id
    ensures id in IdsOf(copies)
  {
    assert x in Touched(Claimed(copies));
    assert pending[id].deliveries >= pending[x.id].deliveries > MAX_DELIVERIES;
    var i :| 0 <= i < |copies| && copies[i] == Copy(id, pending[id].deliveries);
    assert IdsOf(copies)[i] == id;
  }

  lemma BatchOrder(b: Bus, c: string)
    requires Inv(b) && c in b.workers
    ensures InOrder(Held(b.workers[c]))
  {
    assert WorkerOk(b, b.workers[c]);
  }

  /** An ascending list cut to the length of another still has every id up to which the other
      contains it. */
  lemma PrefixLists(owned: seq<Id>, ids: seq<Id>, id: Id)
    requires Ascending(owned) && Ascending(ids) && id in owned
    requires forall o :: o in owned && o <= id ==> o in ids
    ensures id in PrefixUpTo(owned, |ids|)
  {
    var k :| 0 <= k < |owned| && owned[k] == id;
    var part := owned[..k + 1];
    forall o | o in part ensures o in ids {
      var m :| 0 <= m < |part| && part[m] == o;
      assert owned[m] == o && owned[m] in owned;
    }
    DistinctSize(part);
    DistinctSize(ids);
    SubsetSize(Members(part), Members(ids));
    assert PrefixUpTo(owned, |ids|)[k] == id;
  }

  /** So the reply always lists every due copy, coverage or not. */
  lemma ReplyListsTheDue(pending: map<Id, Entry>, workers: map<string, Worker>, c: string, copies: seq<Copy>, x: Copy)
    requires Ranked(pending) && DueIsHeld(pending, workers) && c in workers && workers[c] == Claimed(copies)
    requires Owns(pending, c, Claimed(copies)) && InOrder(copies) && x in copies && x.delivery > MAX_DELIVERIES
    ensures x.id in PendingReply(pending, c, copies) && x.id in pending && pending[x.id].deliveries == x.delivery
  {
    hide OwnedInRange;
    assert x in Touched(Claimed(copies));
    WithinSpan(copies, x);
    var owned := OwnedInRange(pending, c, copies[0].id, copies[|copies| - 1].id);
    forall id | id in owned && id <= x.id ensures id in IdsOf(copies) {
      LowerOwnIsClaimed(pending, workers, c, copies, x, id);
    }
    hide Owns, Ranked, DueIsHeld, InOrder;
    PrefixLists(owned, IdsOf(copies), x.id);
  }

  lemma WithinSpan(copies: seq<Copy>, x: Copy)
    requires InOrder(copies) && x in copies
    ensures copies[0].id <= x.id <= copies[|copies| - 1].id && Ascending(IdsOf(copies))
  {
  }

  lemma DueAreRecognised(pending: map<Id, Entry>, workers: map<string, Worker>, c: string, copies: seq<Copy>)
    requires Ranked(pending) && DueIsHeld(pending, workers) && c in workers && workers[c] == Claimed(copies)
    requires Owns(pending, c, Claimed(copies)) && InOrder(copies) && copies != []
    ensures var w := Batch(copies, Reclaimed(CountsOf(pending, PendingReply(pending, c, copies))));
            Recognised(w) && Owns(pending, c, w)
  {
    hide PendingReply, Ranked, DueIsHeld, InOrder;
    forall x | x in copies && x.delivery > MAX_DELIVERIES
      ensures CountSeen(CountsOf(pending, PendingReply(pending, c, copies)), x.id) > MAX_DELIVERIES
    {
      ReplyListsTheDue(pending, workers, c, copies, x);
    }
  }

  lemma AskKeepsSafe(b: Bus, c: string)
    requires Inv(b) && Safe(b) && Ask(b, c).Enabled?
    ensures Safe(Ask(b, c).bus)
  {
    BatchOrder(b, c);
    var copies := WorkerOf(b, c).copies;
    assert Owns(b.pending, c, Claimed(copies));
    hide Inv, Ranked, Dated, Bounded, DueIsHeld, Hands, Owns, Recognised, PendingReply, CountsOf, InOrder;
    DueAreRecognised(b.pending, b.workers, c, copies);
    HandsElsewhere(b, c, Batch(copies, Reclaimed(CountsOf(b.pending, PendingReply(b.pending, c, copies)))));
  }

  /** Consumer c changes what it holds to w, dropping nothing that is due. */
  lemma HandsElsewhere(b: Bus, c: string, w: Worker)
    requires Safe(b) && Owns(b.pending, c, w) && Recognised(w)
    requires forall x :: x in Held(WorkerOf(b, c)) && x.delivery > MAX_DELIVERIES ==> x in Held(w)
    ensures Safe(SetWorker(b, c, w))
  {
    hide Ranked, Dated, Bounded, Hands, DueIsHeld, Owns, Recognised;
    MovingKeepsHands(b.pending, b.workers, c, w);
    MovingKeepsDue(b.pending, b.workers, c, w);
  }

  // ---------------------------------------------------------------- reads, handlers, acks

  lemma ReadKeepsSafe(b: Bus, c: string, n: nat)
    requires Inv(b) && Safe(b) && Read(b, c, n).Enabled?
    ensures Safe(Read(b, c, n).bus)
  {
    NewAreBeyond(b);
    hide Inv;
    ReadKeepsHands(b, c, n);
    ReadKeepsRanks(b, c, n);
    ReadKeepsDue(b, c, n);
    hide Hands, Ranked, Dated, DueIsHeld, IdRange, FirstCopies;
  }

  lemma ReadKeepsDue(b: Bus, c: string, n: nat)
    requires Safe(b) && Read(b, c, n).Enabled? && forall id :: id in b.pending ==> id < b.cursor
    ensures DueIsHeld(Read(b, c, n).bus.pending, Read(b, c, n).bus.workers)
  {
    hide Hands, Ranked, Dated, Bounded, IdRange, FirstCopies;
    var b' := Read(b, c, n).bus;
    assert forall id :: id in b'.pending ==> b'.pending[id] == if id in b.pending then b.pending[id] else Entry(c, 1, b.now);
    assert forall d :: d in b.workers && d != c ==> d in b'.workers && b'.workers[d] == b.workers[d];
    hide Read;
  }

  lemma ReadKeepsRanks(b: Bus, c: string, n: nat)
    requires Safe(b) && Read(b, c, n).Enabled? && forall id :: id in b.pending ==> id < b.cursor
    ensures Ranked(Read(b, c, n).bus.pending) && Dated(Read(b, c, n).bus.pending, b.now)
  {
    hide Hands, DueIsHeld, Bounded, IdRange, FirstCopies;
    var after := Read(b, c, n).bus.pending;
    assert forall id :: id in after ==> after[id] == if id in b.pending then b.pending[id] else Entry(c, 1, b.now);
    assert forall id :: id in after && id !in b.pending ==> id >= b.cursor;
    hide Read;
  }

  lemma NewAreBeyond(b: Bus)
    requires Inv(b)
    ensures forall id :: id in b.pending ==> id < b.cursor
  {
  }

  lemma ReadKeepsHands(b: Bus, c: string, n: nat)
    requires Safe(b) && Read(b, c, n).Enabled? && forall id :: id in b.pending ==> id < b.cursor
    ensures Hands(Read(b, c, n).bus.pending, Read(b, c, n).bus.workers)
  {
    hide Ranked, Dated, DueIsHeld, Bounded;
    var b' := Read(b, c, n).bus;
    assert forall id :: id in b.pending ==> b'.pending[id] == b.pending[id];
    forall d | d in b'.workers ensures Owns(b'.pending, d, b'.workers[d]) && Recognised(b'.workers[d]) {
      assert d != c ==> Owns(b.pending, d, b.workers[d]) && Recognised(b.workers[d]);
    }
  }

  lemma DeliverKeepsSafe(b: Bus, c: string)
    requires Inv(b) && Safe(b) && Next(b, Deliver(c)).Enabled?
    ensures Safe(Next(b, Deliver(c)).bus)
  {
    BatchOrder(b, c);
    hide Inv;
    var w := b.workers[c];
    if IsPoison(w.source, w.copies[0].id) {
      DeadLetterKeepsSafe(b, c);
    } else {
      StartKeepsSafe(b, c);
    }
  }

  /** The head of a batch that is not recognised as poison is not due. */
  lemma StartKeepsSafe(b: Bus, c: string)
    requires Safe(b) && WorkerOf(b, c).Batch? && WorkerOf(b, c).copies != [] && InOrder(WorkerOf(b, c).copies)
    requires !IsPoison(WorkerOf(b, c).source, WorkerOf(b, c).copies[0].id)
    ensures Safe(StartHandler(b, c))
  {
    var w := b.workers[c];
    assert Owns(b.pending, c, w) && Recognised(w);
    hide Ranked, Dated, DueIsHeld, Hands, Owns, Recognised, InOrder;
    TailOwned(b.pending, c, w.copies, w.source);
    HandsElsewhere(b, c, Running(w.copies[0], w.copies[1..], w.source));
  }

  lemma DeadLetterKeepsSafe(b: Bus, c: string)
    requires Safe(b) && WorkerOf(b, c).Batch? && WorkerOf(b, c).copies != [] && InOrder(WorkerOf(b, c).copies)
    requires IsPoison(WorkerOf(b, c).source, WorkerOf(b, c).copies[0].id)
    ensures Safe(DeadLetter(b, c))
  {
    var w := b.workers[c];
    assert Owns(b.pending, c, w) && Recognised(w);
    hide Ranked, Dated, DueIsHeld, Hands, Owns, Recognised, InOrder, Bounded;
    var rest := Batch(w.copies[1..], w.source);
    TailOwned(b.pending, c, w.copies, w.source);
    SettlingKeepsRanks(b.pending, w.copies[0].id, b.now);
    SettlingKeepsDue(b.pending, b.workers, c, w.copies[0].id, rest);
    SettlingKeepsHands(b.pending, b.workers, c, w.copies[0].id, rest);
  }

  lemma NextKeepsSafe(b: Bus, a: Action)
    requires Inv(b) && Safe(b) && Next(b, a).Enabled? && FairClaim(b, a) && SafeAbort(b, a)
    ensures Safe(Next(b, a).bus)
  {
    hide Inv, Hands, DueIsHeld, Ranked, Bounded;
    match a
    case Publish =>
    case Tick(ms) =>
    case ReadNew(c, n) => ReadKeepsSafe(b, c, n);
    case AutoClaim(c, ids) =>
      if ids == [] {
        GoIdle(b, c);
      } else {
        ClaimKeepsRanks(b, c, ids);
        ClaimKeepsHands(b, c, ids);
      }
    case AskPending(c) => AskKeepsSafe(b, c);
    case Deliver(c) => DeliverKeepsSafe(b, c);
    case Abort(c) => GoIdle(b, c);
    case Ack(c) => AckKeepsSafe(b, c);
    case DecodeFails(c) => DropKeepsSafe(b, a, c);
    case HandlerReturns(c) => DropKeepsSafe(b, a, c);
    case HandlerRaises(c) => DropKeepsSafe(b, a, c);
    case AckFails(c) => DropKeepsSafe(b, a, c);
    case Done(c) => DropKeepsSafe(b, a, c);
  }

  lemma GoIdle(b: Bus, c: string)
    requires Safe(b) && forall x :: x in Held(WorkerOf(b, c)) ==> x.delivery <= MAX_DELIVERIES
    ensures Safe(SetWorker(b, c, Idle))
  {
    HandsElsewhere(b, c, Idle);
  }

  lemma DropKeepsSafe(b: Bus, a: Action, c: string)
    requires Inv(b) && Safe(b) && Next(b, a).Enabled?
    requires a in {DecodeFails(c), HandlerReturns(c), HandlerRaises(c), AckFails(c), Done(c)}
    ensures Safe(Next(b, a).bus)
  {
    BatchOrder(b, c);
    hide Inv, Ranked, Dated, DueIsHeld, Bounded;
    var w := b.workers[c];
    assert Owns(b.pending, c, w) && Recognised(w);
    hide Hands;
    RestOwned(b.pending, c, w);
    hide Owns, Recognised;
    if a.DecodeFails? {
      TailOwned(b.pending, c, w.copies, w.source);
    }
    HandsElsewhere(b, c, Next(b, a).bus.workers[c]);
  }

  /** What a consumer goes on with after its handler returned, raised, or the batch ended. */
  lemma RestOwned(pending: map<Id, Entry>, c: string, w: Worker)
    requires Owns(pending, c, w) && Recognised(w)
    ensures w.Running? || w.Returned? ==> Owns(pending, c, Batch(w.copies, w.source)) && Recognised(Batch(w.copies, w.source))
    ensures w.Running? ==> Owns(pending, c, Returned(w.copy, w.copies, w.source)) && Recognised(Returned(w.copy, w.copies, w.source))
    ensures Owns(pending, c, Idle) && Recognised(Idle)
  {
    hide PoisonSeen;
  }

  lemma AckKeepsSafe(b: Bus, c: string)
    requires Safe(b) && Next(b, Ack(c)).Enabled?
    ensures Safe(Next(b, Ack(c)).bus)
  {
    var w := b.workers[c];
    var rest := Batch(w.copies, w.source);
    assert Owns(b.pending, c, w) && Recognised(w) && w.copy in Touched(w);
    assert Owns(b.pending, c, rest) && Recognised(rest);
    hide Ranked, Dated, DueIsHeld, Hands, Recognised, Bounded;
    SettlingKeepsRanks(b.pending, w.copy.id, b.now);
    SettlingKeepsDue(b.pending, b.workers, c, w.copy.id, rest);
    SettlingKeepsHands(b.pending, b.workers, c, w.copy.id, rest);
  }

  lemma {:induction false} RunKeepsSafe(b: Bus, trace: seq<Action>)
    requires Inv(b) && Safe(b) && Run(b, trace).Enabled? && FairRun(b, trace) && SafeRun(b, trace)
    ensures Safe(Run(b, trace).bus)
    decreases |trace|
  {
    if trace == [] {
    } else {
      NextKeepsSafe(b, trace[0]);
      NextKeepsInv(b, trace[0]);
      RunKeepsSafe(Next(b, trace[0]).bus, trace[1..]);
    }
  }

  /** With oldest-first claims, prompt consumers and no crash of one that holds a message due for
      dead-lettering, no handler is tried on one message more than MAX_DELIVERIES times, whatever
      the replies leave out. */
  lemma AttemptsAreBoundedAnyway(trace: seq<Action>, id: Id)
    requires Run(INITIAL, trace).Enabled? && FairRun(INITIAL, trace) && SafeRun(INITIAL, trace)
    ensures Attempts(Run(INITIAL, trace).bus.calls, id) <= MAX_DELIVERIES
  {
    InitialInv();
    RunKeepsInv(INITIAL, trace);
    RunKeepsSafe(INITIAL, trace);
    LowDeliveriesLimitAttempts(Run(INITIAL, trace).bus, id);
  }
}
