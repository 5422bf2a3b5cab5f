/**
  No delivered and unacked message is ever out of reach: the claims Redis answers, the oldest
  stale entries first, at most a batch of them and within a bounded scan, get to every entry,
  whatever the handlers of the other messages do.
 */
module Recovery {
  import opened Sequences

  import opened ConsumerGroup
  import opened ClaimOrder

  // ---------------------------------------------------------------- what XAUTOCLAIM returns

  /** Redis looks at no more than this many pending entries per entry asked for. */
  const SCAN_FACTOR := 10

  /** XAUTOCLAIM's walk over the pending entries from `lo` on: it ends with the list, when
      `budget` entries have been looked at, or when `count` stale ones have been found. */
  function Scan(b: Bus, lo: Id, budget: nat, count: nat): seq<Id>
    decreases b.cursor - lo
  {
    if lo >= b.cursor || budget == 0 || count == 0 then []
    else if lo !in b.pending then Scan(b, lo + 1, budget, count)
    else if Stale(b, lo) then [lo] + Scan(b, lo + 1, budget - 1, count - 1)
    else Scan(b, lo + 1, budget - 1, count)
  }

  /** One step of the walk. */
  lemma ScanStep(b: Bus, lo: Id, budget: nat, count: nat)
    ensures lo >= b.cursor || budget == 0 || count == 0 ==> Scan(b, lo, budget, count) == []
    ensures lo < b.cursor && budget > 0 && count > 0 ==>
              Scan(b, lo, budget, count) ==
                (if lo !in b.pending then Scan(b, lo + 1, budget, count)
                 else if Stale(b, lo) then [lo] + Scan(b, lo + 1, budget - 1, count - 1)
                 else Scan(b, lo + 1, budget - 1, count))
  {
  }

  /** XAUTOCLAIM from the start of the stream with a count. */
  function ClaimBatch(b: Bus, count: nat): seq<Id> {
    Scan(b, 0, SCAN_FACTOR * count, count)
  }

  ghost predicate PendingInside(b: Bus) {
    forall id :: id in b.pending ==> id < b.cursor
  }

  lemma {:induction false} ScanIsOldest(b: Bus, lo: Id, budget: nat, count: nat)
    ensures var ids := Scan(b, lo, budget, count);
            && Ascending(ids) && |ids| <= count
            && (forall id :: id in ids ==> lo <= id && Stale(b, id))
            && (forall i: Id, j: Id :: j in ids && lo <= i < j && Stale(b, i) ==> i in ids)
    decreases b.cursor - lo
  {
    if lo >= b.cursor || budget == 0 || count == 0 {
    } else if lo !in b.pending {
      ScanIsOldest(b, lo + 1, budget, count);
    } else if Stale(b, lo) {
      ScanIsOldest(b, lo + 1, budget - 1, count - 1);
      var rest := Scan(b, lo + 1, budget - 1, count - 1);
      assert forall i :: 0 <= i < |rest| ==> rest[i] in rest;
      hide Scan;
      assert forall id :: id in [lo] + rest <==> id == lo || id in rest;
    } else {
      ScanIsOldest(b, lo + 1, budget - 1, count);
    }
  }

  lemma BatchIsOldest(b: Bus, count: nat)
    ensures Claimable(b, ClaimBatch(b, count)) && OldestFirst(b, ClaimBatch(b, count))
    ensures |ClaimBatch(b, count)| <= count && forall id :: id in ClaimBatch(b, count) ==> Stale(b, id)
  {
    ScanIsOldest(b, 0, SCAN_FACTOR * count, count);
  }

  /** Every pending entry is stale. */
  ghost predicate AllStale(b: Bus) {
    forall id :: id in b.pending ==> Stale(b, id)
  }

  lemma {:induction false} ScanFindsOne(b: Bus, lo: Id, budget: nat, count: nat, id: Id)
    requires AllStale(b) && id in b.pending && lo <= id < b.cursor && budget > 0 && count > 0
    ensures Scan(b, lo, budget, count) != []
    decreases b.cursor - lo
  {
    if lo !in b.pending {
      ScanFindsOne(b, lo + 1, budget, count, id);
    }
  }

  /** Once everything pending is stale the batch is not empty, and it is the lowest entries. */
  lemma BatchIsLowest(b: Bus, count: nat, id: Id)
    requires AllStale(b) && PendingInside(b) && id in b.pending && count > 0
    ensures var ids := ClaimBatch(b, count);
            && ids != []
            && (forall j :: j in ids && id < j ==> id in ids)
  {
    ScanFindsOne(b, 0, SCAN_FACTOR * count, count, id);
    BatchIsOldest(b, count);
  }

  // ---------------------------------------------------------------- runs whose claims Redis would answer

  /** How the dispatch of one delivery ends. */
  datatype Ending = Undecodable | Fails | Succeeds

  type Endings = Copy -> Ending

  /** Claims are the ones Redis answers, and each dispatch ends as given. */
  ghost predicate Follows(b: Bus, a: Action, count: nat, endings: Endings) {
    match a
    case AutoClaim(_, ids) => ids == ClaimBatch(b, count)
    case DecodeFails(c) => Held(WorkerOf(b, c)) != [] && endings(Held(WorkerOf(b, c))[0]) == Undecodable
    case HandlerRaises(c) => WorkerOf(b, c).Running? && endings(WorkerOf(b, c).copy) == Fails
    case HandlerReturns(c) => WorkerOf(b, c).Running? && endings(WorkerOf(b, c).copy) == Succeeds
    case _ => !a.Abort? && !a.AckFails?
  }

  ghost predicate FollowsAll(b: Bus, trace: seq<Action>, count: nat, endings: Endings)
    requires Run(b, trace).Enabled?
    decreases |trace|
  {
    trace != [] ==> Follows(b, trace[0], count, endings) && FollowsAll(Next(b, trace[0]).bus, trace[1..], count, endings)
  }

  /** The delivery has been handed to the handler, or its message dead-lettered. */
  predicate Handled(b: Bus, x: Copy) {
    x in b.calls || (x.id in b.acked && x.id in b.deadLettered)
  }

  ghost predicate Handles(b: Bus, trace: seq<Action>, x: Copy, count: nat, endings: Endings) {
    Run(b, trace).Enabled? && FollowsAll(b, trace, count, endings) && Handled(Run(b, trace).bus, x)
  }

  /** Some such run from here gets the delivery handled. */
  ghost predicate Recoverable(b: Bus, x: Copy, count: nat, endings: Endings) {
    exists trace :: Handles(b, trace, x, count, endings)
  }

  lemma HandledIsRecoverable(b: Bus, x: Copy, count: nat, endings: Endings)
    requires Handled(b, x)
    ensures Recoverable(b, x, count, endings)
  {
    assert Handles(b, [], x, count, endings);
  }

  lemma StepBack(b: Bus, a: Action, x: Copy, count: nat, endings: Endings)
    requires Next(b, a).Enabled? && Recoverable(Next(b, a).bus, x, count, endings)
    requires Follows(b, a, count, endings)
    ensures Recoverable(b, x, count, endings)
  {
    hide Next, Follows, Handled;
    var trace :| Handles(Next(b, a).bus, trace, x, count, endings);
    assert ([a] + trace)[1..] == trace;
    assert Handles(b, [a] + trace, x, count, endings);
  }

  // ---------------------------------------------------------------- working through a batch

  /** The state after the head of the batch has been dealt with. */
  function Ended(b: Bus, c: string, e: Ending): Bus
    requires WorkerOf(b, c).Batch? && WorkerOf(b, c).copies != []
  {
    var w := WorkerOf(b, c);
    var rest := Batch(w.copies[1..], w.source);
    if IsPoison(w.source, w.copies[0].id) then DeadLetter(b, c)
    else match e
      case Undecodable => SetWorker(b, c, rest)
      case Fails => SetWorker(StartHandler(b, c), c, rest)
      case Succeeds =>
        var id := w.copies[0].id;
        SetWorker(StartHandler(b, c), c, rest).(
        returned := b.returned + {id}, pending := b.pending - {id}, acked := b.acked + {id})
  }

  lemma EndedIsReached(b: Bus, c: string, x: Copy, count: nat, endings: Endings)
    requires WorkerOf(b, c).Batch? && WorkerOf(b, c).copies != []
    requires Recoverable(Ended(b, c, endings(WorkerOf(b, c).copies[0])), x, count, endings)
    ensures Recoverable(b, x, count, endings)
  {
    hide Recoverable, IsPoison;
    var w := WorkerOf(b, c);
    var y := w.copies[0];
    if IsPoison(w.source, y.id) {
      StepBack(b, Deliver(c), x, count, endings);
    } else if endings(y).Undecodable? {
      StepBack(b, DecodeFails(c), x, count, endings);
    } else {
      StartedIsReached(b, c, x, count, endings);
      StepBack(b, Deliver(c), x, count, endings);
    }
  }

  lemma StartedIsReached(b: Bus, c: string, x: Copy, count: nat, endings: Endings)
    requires WorkerOf(b, c).Batch? && WorkerOf(b, c).copies != []
    requires !IsPoison(WorkerOf(b, c).source, WorkerOf(b, c).copies[0].id) && !endings(WorkerOf(b, c).copies[0]).Undecodable?
    requires Recoverable(Ended(b, c, endings(WorkerOf(b, c).copies[0])), x, count, endings)
    ensures Recoverable(StartHandler(b, c), x, count, endings)
  {
    hide Recoverable, IsPoison;
    var y := WorkerOf(b, c).copies[0];
    var tried, after := StartHandler(b, c), Ended(b, c, endings(y));
    if endings(y).Fails? {
      assert Next(tried, HandlerRaises(c)) == Enabled(after);
      StepBack(tried, HandlerRaises(c), x, count, endings);
    } else {
      var back := Next(tried, HandlerReturns(c)).bus;
      assert Next(back, Ack(c)) == Enabled(after);
      StepBack(back, Ack(c), x, count, endings);
      StepBack(tried, HandlerReturns(c), x, count, endings);
    }
  }

  /** What working through the batch may do to the rest of the bus. */
  ghost predicate SweptTo(b: Bus, c: string, b': Bus)
    requires WorkerOf(b, c).Batch?
  {
    var w := WorkerOf(b, c);
    && WorkerOf(b', c).Idle? && (forall d :: d != c ==> WorkerOf(b', d) == WorkerOf(b, d))
    && b'.now == b.now && b'.cursor == b.cursor && b'.published == b.published
    && Settling(b.pending, w.copies, w.source, b'.pending)
  }

  /** Entries of the batch may go, due ones do, and nothing else changes. */
  ghost predicate Settling(pending: map<Id, Entry>, copies: seq<Copy>, source: Source, pending': map<Id, Entry>) {
    && (forall id :: id in pending' ==> id in pending && pending'[id] == pending[id])
    && (forall id :: id in pending && id !in IdsOf(copies) ==> id in pending')
    && (forall x :: x in copies && IsPoison(source, x.id) ==> x.id !in pending')
  }

  lemma SettlingOneMore(pending: map<Id, Entry>, copies: seq<Copy>, source: Source, middle: map<Id, Entry>, pending': map<Id, Entry>)
    requires copies != [] && Settling(middle, copies[1..], source, pending')
    requires middle == pending || middle == pending - {copies[0].id}
    requires IsPoison(source, copies[0].id) ==> middle == pending - {copies[0].id}
    ensures Settling(pending, copies, source, pending')
  {
    hide IsPoison;
    assert IdsOf(copies) == [copies[0].id] + IdsOf(copies[1..]);
    assert copies == [copies[0]] + copies[1..];
  }

  lemma EndedFacts(b: Bus, c: string, e: Ending)
    requires WorkerOf(b, c).Batch? && WorkerOf(b, c).copies != []
    ensures var w, b' := WorkerOf(b, c), Ended(b, c, e);
            && WorkerOf(b', c) == Batch(w.copies[1..], w.source) && (forall d :: d != c ==> WorkerOf(b', d) == WorkerOf(b, d))
            && b'.now == b.now && b'.cursor == b.cursor && b'.published == b.published
            && (b'.pending == b.pending || b'.pending == b.pending - {w.copies[0].id})
            && (IsPoison(w.source, w.copies[0].id) ==> b'.pending == b.pending - {w.copies[0].id})
  {
  }

  lemma SweepsOneMore(b: Bus, c: string, e: Ending, b': Bus)
    requires WorkerOf(b, c).Batch? && WorkerOf(b, c).copies != []
    requires WorkerOf(Ended(b, c, e), c).Batch? && SweptTo(Ended(b, c, e), c, b')
    ensures SweptTo(b, c, b')
  {
    EndedFacts(b, c, e);
    hide Ended, IsPoison, Settling;
    SettlingOneMore(b.pending, WorkerOf(b, c).copies, WorkerOf(b, c).source, Ended(b, c, e).pending, b'.pending);
  }

  lemma FinishedIsSwept(b: Bus, c: string)
    requires WorkerOf(b, c).Batch? && WorkerOf(b, c).copies == []
    ensures Next(b, Done(c)) == Enabled(SetWorker(b, c, Idle)) && SweptTo(b, c, SetWorker(b, c, Idle))
  {
  }

  /** The state after the whole batch. */
  function Swept(b: Bus, c: string, endings: Endings): (b': Bus)
    requires WorkerOf(b, c).Batch?
    ensures SweptTo(b, c, b')
    decreases |WorkerOf(b, c).copies|
  {
    var copies := WorkerOf(b, c).copies;
    if copies == [] then
      FinishedIsSwept(b, c);
      SetWorker(b, c, Idle)
    else
      EndedFacts(b, c, endings(copies[0]));
      var after := Swept(Ended(b, c, endings(copies[0])), c, endings);
      SweepsOneMore(b, c, endings(copies[0]), after);
      after
  }

  lemma {:induction false} SweptIsReached(b: Bus, c: string, x: Copy, count: nat, endings: Endings)
    requires WorkerOf(b, c).Batch? && Recoverable(Swept(b, c, endings), x, count, endings)
    ensures Recoverable(b, x, count, endings)
    decreases |WorkerOf(b, c).copies|
  {
    hide Recoverable, SweptTo;
    var copies := WorkerOf(b, c).copies;
    if copies == [] {
      FinishedIsSwept(b, c);
      StepBack(b, Done(c), x, count, endings);
    } else {
      EndedFacts(b, c, endings(copies[0]));
      hide Ended;
      SweptIsReached(Ended(b, c, endings(copies[0])), c, x, count, endings);
      EndedIsReached(b, c, x, count, endings);
    }
  }

  lemma HeadIsHandled(b: Bus, c: string, e: Ending)
    requires WorkerOf(b, c).Batch? && WorkerOf(b, c).copies != [] && !e.Undecodable?
    ensures Handled(Ended(b, c, e), WorkerOf(b, c).copies[0])
  {
  }

  /** Any decodable delivery of a batch is handled once the ones before it have been dealt with. */
  lemma {:induction false} BatchGetsThere(b: Bus, c: string, k: nat, count: nat, endings: Endings)
    requires WorkerOf(b, c).Batch? && k < |WorkerOf(b, c).copies|
    requires !endings(WorkerOf(b, c).copies[k]).Undecodable?
    ensures Recoverable(b, WorkerOf(b, c).copies[k], count, endings)
    decreases k
  {
    hide Recoverable, Next;
    var w := WorkerOf(b, c);
    var after := Ended(b, c, endings(w.copies[0]));
    EndedFacts(b, c, endings(w.copies[0]));
    if k == 0 {
      HeadIsHandled(b, c, endings(w.copies[0]));
      HandledIsRecoverable(after, w.copies[0], count, endings);
    } else {
      BatchGetsThere(after, c, k - 1, count, endings);
    }
    EndedIsReached(b, c, w.copies[k], count, endings);
  }

  // ---------------------------------------------------------------- a claim pass

  lemma ClaimedShape(b: Bus, c: string, ids: seq<Id>)
    requires Claim(b, c, ids).Enabled? && ids != []
    ensures var b1, copies := Claim(b, c, ids).bus, Redelivered(b.pending, ids);
            var b2 := Ask(b1, c).bus;
            && WorkerOf(b1, c) == Claimed(copies) && Ask(b1, c).Enabled? && IdsOf(copies) == ids
            && WorkerOf(b2, c) == Batch(copies, Reclaimed(CountsOf(b1.pending, PendingReply(b1.pending, c, copies))))
            && b2.pending == b1.pending == ClaimedPending(b, c, ids)
            && b2.now == b1.now == b.now && b2.cursor == b1.cursor == b.cursor && b2.published == b1.published == b.published
            && (forall d :: d != c ==> WorkerOf(b2, d) == WorkerOf(b1, d) == WorkerOf(b, d))
  {
    hide PendingReply, CountsOf;
  }

  /** The state in which the batch is claimed and its counts are known. */
  function Asked(b: Bus, c: string, ids: seq<Id>): (b2: Bus)
    requires Claim(b, c, ids).Enabled? && ids != []
    ensures WorkerOf(b2, c).Batch?
  {
    ClaimedShape(b, c, ids);
    Ask(Claim(b, c, ids).bus, c).bus
  }

  /** When everything is stale a batch is all that is pending in its span, so the reply covers it
      and every count is exact. */
  lemma BatchCountsAreExact(b: Bus, c: string, ids: seq<Id>, id: Id)
    requires Claim(b, c, ids).Enabled? && ids != [] && AllStale(b) && OldestFirst(b, ids) && id in ids
    ensures var w := WorkerOf(Asked(b, c, ids), c);
            w.Batch? && (IsPoison(w.source, id) <==> b.pending[id].deliveries + 1 > MAX_DELIVERIES)
  {
    ClaimedShape(b, c, ids);
    ReplyIsBatch(b, c, ids);
    hide Claim, Ask, PendingReply, OldestFirst, AllStale, Redelivered;
    assert ClaimedPending(b, c, ids)[id].deliveries == b.pending[id].deliveries + 1;
  }

  lemma ReplyIsBatch(b: Bus, c: string, ids: seq<Id>)
    requires Claimable(b, ids) && ids != [] && AllStale(b) && OldestFirst(b, ids)
    ensures Redelivered(b.pending, ids) != []
    ensures PendingReply(ClaimedPending(b, c, ids), c, Redelivered(b.pending, ids)) == ids
  {
    SpanIsBatch(b, c, ids);
    var copies := Redelivered(b.pending, ids);
    assert copies[0].id == ids[0] && copies[|copies| - 1].id == ids[|ids| - 1];
    hide OwnedInRange, ClaimedPending, AllStale, OldestFirst;
  }

  lemma SpanIsBatch(b: Bus, c: string, ids: seq<Id>)
    requires Claimable(b, ids) && ids != [] && AllStale(b) && OldestFirst(b, ids)
    ensures OwnedInRange(ClaimedPending(b, c, ids), c, ids[0], ids[|ids| - 1]) == ids
  {
    var last := ids[|ids| - 1];
    var owned := OwnedInRange(ClaimedPending(b, c, ids), c, ids[0], last);
    assert last in ids;
    forall id | id in owned ensures id in ids {
      assert Stale(b, id);
    }
    forall id | id in ids ensures id in owned {
      var i :| 0 <= i < |ids| && ids[i] == id;
    }
    SameMembersSameSequence(owned, ids);
  }

  // ---------------------------------------------------------------- what is left to do shrinks

  /** How many more claims an entry can take before it is dead-lettered. */
  function Claims(e: Entry): nat {
    if e.deliveries > MAX_DELIVERIES then 1 else MAX_DELIVERIES + 1 - e.deliveries
  }

  function Work(pending: map<Id, Entry>, n: nat): nat {
    if n == 0 then 0 else Work(pending, n - 1) + if n - 1 in pending then Claims(pending[n - 1]) else 0
  }

  ghost predicate NoMore(pending': map<Id, Entry>, pending: map<Id, Entry>, id: Id) {
    id in pending' ==> id in pending && Claims(pending'[id]) <= Claims(pending[id])
  }

  ghost predicate Less(pending': map<Id, Entry>, pending: map<Id, Entry>, id: Id) {
    id in pending && (id in pending' ==> Claims(pending'[id]) < Claims(pending[id]))
  }

  lemma {:induction false} WorkShrinks(pending': map<Id, Entry>, pending: map<Id, Entry>, n: nat, id: Id)
    requires forall i: Id :: i < n ==> NoMore(pending', pending, i)
    ensures Work(pending', n) <= Work(pending, n)
    ensures id < n && Less(pending', pending, id) ==> Work(pending', n) < Work(pending, n)
  {
    if n == 0 {
    } else {
      assert NoMore(pending', pending, n - 1);
      WorkShrinks(pending', pending, n - 1, id);
    }
  }

  /** A pass over a batch that does not reach `id` yet leaves `id` as it is, everything else no
      more stale than before, and strictly less work below `id`. */
  lemma PassLowersWork(b: Bus, c: string, ids: seq<Id>, b': Bus, id: Id)
    requires Claim(b, c, ids).Enabled? && ids != [] && AllStale(b) && OldestFirst(b, ids) && PendingInside(b)
    requires id in b.pending && id !in ids && ids[0] < id
    requires SweptTo(Asked(b, c, ids), c, b')
    ensures id in b'.pending && b'.pending[id] == b.pending[id]
    ensures PendingInside(b') && Work(b'.pending, id) < Work(b.pending, id)
    ensures forall i :: i in b'.pending ==> b'.pending[i].deliveredAt <= b'.now
    ensures WorkerOf(b', c).Idle? && (forall d :: d != c ==> WorkerOf(b', d) == WorkerOf(b, d))
    ensures b'.now == b.now && b'.cursor == b.cursor && b'.published == b.published
  {
    assert Claimable(b, ids) && ids[0] in ids;
    hide Claim, IsPoison, AllStale, OldestFirst, Stale, Work, Less, Asked, SweptTo, Claimable;
    OthersUntouched(b, c, ids, b');
    forall i | i in ids ensures Less(b'.pending, b.pending, i) {
      BatchHasLessToGo(b, c, ids, b', i);
    }
    forall i: Id | i < id ensures NoMore(b'.pending, b.pending, i) {
      if i in ids {
        LessIsNoMore(b'.pending, b.pending, i);
      }
    }
    WorkShrinks(b'.pending, b.pending, id, ids[0]);
  }

  lemma BatchHasLessToGo(b: Bus, c: string, ids: seq<Id>, b': Bus, id: Id)
    requires Claim(b, c, ids).Enabled? && ids != [] && AllStale(b) && OldestFirst(b, ids) && PendingInside(b) && id in ids
    requires SweptTo(Asked(b, c, ids), c, b')
    ensures Less(b'.pending, b.pending, id)
  {
    assert Claimable(b, ids);
    hide Claim, AllStale, OldestFirst, Stale, Asked, SweptTo, IsPoison;
    OthersUntouched(b, c, ids, b');
    BatchCountsAreExact(b, c, ids, id);
    PoisonIsGone(b, c, ids, b', id);
  }

  lemma LessIsNoMore(pending': map<Id, Entry>, pending: map<Id, Entry>, id: Id)
    requires Less(pending', pending, id)
    ensures NoMore(pending', pending, id)
  {
  }

  /** Entries outside the batch keep their place and count; no stamp lies in the future. */
  lemma OthersUntouched(b: Bus, c: string, ids: seq<Id>, b': Bus)
    requires Claim(b, c, ids).Enabled? && ids != [] && AllStale(b) && PendingInside(b)
    requires SweptTo(Asked(b, c, ids), c, b')
    ensures forall i :: i in b'.pending ==> i in b.pending && (i !in ids ==> b'.pending[i] == b.pending[i])
    ensures forall i :: i in b.pending && i !in ids ==> i in b'.pending
    ensures forall i :: i in b'.pending ==> b'.pending[i].deliveredAt <= b'.now
    ensures PendingInside(b') && b'.now == b.now && b'.cursor == b.cursor && b'.published == b.published
    ensures WorkerOf(b', c).Idle? && (forall d :: d != c ==> WorkerOf(b', d) == WorkerOf(b, d))
  {
    ClaimedShape(b, c, ids);
    hide Claim, IsPoison;
  }

  lemma PoisonIsGone(b: Bus, c: string, ids: seq<Id>, b': Bus, id: Id)
    requires Claim(b, c, ids).Enabled? && ids != [] && id in ids
    requires SweptTo(Asked(b, c, ids), c, b')
    ensures IsPoison(WorkerOf(Asked(b, c, ids), c).source, id) ==> id !in b'.pending
    ensures id in b'.pending ==> b'.pending[id].deliveries == b.pending[id].deliveries + 1
  {
    ClaimedShape(b, c, ids);
    var k :| 0 <= k < |ids| && ids[k] == id;
    var copies := Redelivered(b.pending, ids);
    assert copies[k] in copies && copies[k].id == id;
    hide Claim, Asked, IsPoison;
  }

  lemma WaitMakesStale(b: Bus)
    requires forall id :: id in b.pending ==> b.pending[id].deliveredAt <= b.now
    ensures AllStale(Later(b, PENDING_MIN_IDLE_MS))
  {
  }

  /** Everything pending is stale some time from now. */
  lemma {:induction false} EverythingAges(b: Bus, n: nat) returns (ms: nat)
    ensures forall id: Id :: id < n && id in b.pending ==> b.now + ms - b.pending[id].deliveredAt >= PENDING_MIN_IDLE_MS
  {
    if n == 0 {
      ms := 0;
    } else {
      ms := EverythingAges(b, n - 1);
      if n - 1 in b.pending && b.now + ms - b.pending[n - 1].deliveredAt < PENDING_MIN_IDLE_MS {
        ms := PENDING_MIN_IDLE_MS + b.pending[n - 1].deliveredAt - b.now;
      }
    }
  }

  // ---------------------------------------------------------------- pass after pass

  lemma PassIsReached(b: Bus, c: string, x: Copy, count: nat, endings: Endings)
    requires Claim(b, c, ClaimBatch(b, count)).Enabled? && ClaimBatch(b, count) != []
    requires Recoverable(Asked(b, c, ClaimBatch(b, count)), x, count, endings)
    ensures Recoverable(b, x, count, endings)
  {
    var ids := ClaimBatch(b, count);
    ClaimedShape(b, c, ids);
    hide Claim, Asked, ClaimBatch, Recoverable;
    var b1 := Claim(b, c, ids).bus;
    StepBack(b1, AskPending(c), x, count, endings);
    StepBack(b, AutoClaim(c, ids), x, count, endings);
  }

  lemma LastPass(b: Bus, c: string, ids: seq<Id>, id: Id, count: nat, endings: Endings)
    requires Claim(b, c, ids).Enabled? && id in ids
    requires !endings(Copy(id, b.pending[id].deliveries + 1)).Undecodable?
    ensures Recoverable(Asked(b, c, ids), Copy(id, b.pending[id].deliveries + 1), count, endings)
  {
    ClaimedShape(b, c, ids);
    var k :| 0 <= k < |ids| && ids[k] == id;
    assert Redelivered(b.pending, ids)[k] == Copy(id, b.pending[id].deliveries + 1);
    hide Claim, Asked, Recoverable;
    BatchGetsThere(Asked(b, c, ids), c, k, count, endings);
  }

  lemma ClaimIsEnabled(b: Bus, c: string, id: Id, count: nat)
    requires WorkerOf(b, c).Idle? && PendingInside(b) && AllStale(b) && id in b.pending && count > 0
    ensures var ids := ClaimBatch(b, count);
            && ids != [] && Claim(b, c, ids).Enabled? && OldestFirst(b, ids)
            && (id !in ids ==> ids[0] < id)
  {
    BatchIsOldest(b, count);
    BatchIsLowest(b, count, id);
    var ids := ClaimBatch(b, count);
    hide ClaimBatch;
    ClaimedShape(b, c, ids);
    assert ids[0] in ids;
  }

  /** The state after a pass over a batch and a wait. */
  function Passed(b: Bus, c: string, ids: seq<Id>, endings: Endings): Bus
    requires Claim(b, c, ids).Enabled? && ids != []
  {
    Later(Swept(Asked(b, c, ids), c, endings), PENDING_MIN_IDLE_MS)
  }

  /** The bus some time later. */
  function Later(b: Bus, ms: nat): Bus {
    b.(now := b.now + ms)
  }

  lemma PassedIsReached(b: Bus, c: string, x: Copy, count: nat, endings: Endings)
    requires Claim(b, c, ClaimBatch(b, count)).Enabled? && ClaimBatch(b, count) != []
    requires Recoverable(Passed(b, c, ClaimBatch(b, count), endings), x, count, endings)
    ensures Recoverable(b, x, count, endings)
  {
    hide Claim, Asked, ClaimBatch, Recoverable, SweptTo;
    var b2 := Asked(b, c, ClaimBatch(b, count));
    StepBack(Swept(b2, c, endings), Tick(PENDING_MIN_IDLE_MS), x, count, endings);
    hide Swept;
    SweptIsReached(b2, c, x, count, endings);
    PassIsReached(b, c, x, count, endings);
  }

  lemma PassProgresses(b: Bus, c: string, id: Id, count: nat, endings: Endings)
    requires WorkerOf(b, c).Idle? && PendingInside(b) && AllStale(b) && id in b.pending && count > 0
    requires id !in ClaimBatch(b, count)
    ensures var ids := ClaimBatch(b, count);
            && ids != [] && Claim(b, c, ids).Enabled?
            && var b' := Passed(b, c, ids, endings);
               && WorkerOf(b', c).Idle? && PendingInside(b') && AllStale(b') && id in b'.pending && b'.pending[id] == b.pending[id]
               && Work(b'.pending, id) < Work(b.pending, id)
  {
    var ids := ClaimBatch(b, count);
    ClaimIsEnabled(b, c, id, count);
    hide ClaimBatch, Claim, Asked;
    var swept := Swept(Asked(b, c, ids), c, endings);
    PassLowersWork(b, c, ids, swept, id);
    hide Swept, SweptTo;
    WaitMakesStale(swept);
    hide AllStale;
  }

  lemma {:induction false} StaleIsRecoverable(b: Bus, c: string, id: Id, count: nat, endings: Endings, x: Copy)
    requires WorkerOf(b, c).Idle? && PendingInside(b) && AllStale(b) && id in b.pending && count > 0
    requires x == Copy(id, b.pending[id].deliveries + 1) && !endings(x).Undecodable?
    ensures Recoverable(b, x, count, endings)
    decreases Work(b.pending, id)
  {
    hide *;
    if id in ClaimBatch(b, count) {
      ClaimIsEnabled(b, c, id, count);
      LastPass(b, c, ClaimBatch(b, count), id, count, endings);
      PassIsReached(b, c, x, count, endings);
    } else {
      PassProgresses(b, c, id, count, endings);
      StaleIsRecoverable(Passed(b, c, ClaimBatch(b, count), endings), c, id, count, endings, x);
      PassedIsReached(b, c, x, count, endings);
    }
  }

  /** In any reachable state an idle consumer can get to any decodable pending entry with the
      claims Redis answers, however small the batches, however many older entries there are and
      however their dispatches end: in some run the entry is handed to the handler under its next
      delivery number, or dead-lettered. */
  lemma PendingStaysRecoverable(b: Bus, c: string, id: Id, count: nat, endings: Endings)
    requires Inv(b) && id in b.pending && WorkerOf(b, c).Idle? && count > 0
    requires !endings(Copy(id, b.deliveries[id] + 1)).Undecodable?
    ensures Recoverable(b, Copy(id, b.deliveries[id] + 1), count, endings)
  {
    assert PendingInside(b) && b.deliveries[id] == b.pending[id].deliveries;
    hide Inv, Recoverable;
    var ms := EverythingAges(b, b.cursor);
    var b1 := Next(b, Tick(ms)).bus;
    StaleIsRecoverable(b1, c, id, count, endings, Copy(id, b.deliveries[id] + 1));
    StepBack(b, Tick(ms), Copy(id, b.deliveries[id] + 1), count, endings);
  }
}
