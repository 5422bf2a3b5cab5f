/**
  Why the bound of `core/events/base.py` needs that consumers do not crash while they hold a
  message due for dead-lettering: a run, fair in every claim, that tries one message six times.
 */
module CrashTrace {
  import opened Sequences

  import opened ConsumerGroup
  import opened ClaimOrder

  const MINUTE := 60 * 1000

  ghost predicate FairTrace(b: Bus, b': Bus, trace: seq<Action>) {
    Run(b, trace) == Enabled(b') && FairRun(b, trace)
  }

  ghost predicate FairlyReachable(b: Bus) {
    exists trace :: FairTrace(INITIAL, b, trace)
  }

  lemma {:induction false} FairRunGrows(b: Bus, trace: seq<Action>, a: Action)
    requires Run(b, trace).Enabled? && FairRun(b, trace)
    requires Next(Run(b, trace).bus, a).Enabled? && FairClaim(Run(b, trace).bus, a)
    ensures FairTrace(b, Next(Run(b, trace).bus, a).bus, trace + [a])
    decreases |trace|
  {
    hide Next, FairClaim;
    if trace == [] {
      assert trace + [a] == [a] && [a][1..] == [];
      assert Run(Next(b, a).bus, []) == Enabled(Next(b, a).bus);
      assert FairRun(Next(b, a).bus, []);
      assert Run(b, [a]) == Enabled(Next(b, a).bus);
    } else {
      FairRunGrows(Next(b, trace[0]).bus, trace[1..], a);
      assert (trace + [a])[1..] == trace[1..] + [a];
    }
  }

  lemma Reaches(b: Bus, a: Action)
    requires FairlyReachable(b) && Next(b, a).Enabled? && FairClaim(b, a)
    ensures FairlyReachable(Next(b, a).bus)
  {
    hide Next, FairClaim, Run, FairRun;
    var trace :| FairTrace(INITIAL, b, trace);
    FairRunGrows(INITIAL, trace, a);
  }

  lemma ReachesTo(b: Bus, a: Action, b': Bus)
    requires FairlyReachable(b) && Next(b, a) == Enabled(b') && FairClaim(b, a)
    ensures FairlyReachable(b')
  {
    hide Next, FairClaim, FairlyReachable;
    Reaches(b, a);
  }

  // ---------------------------------------------------------------- one consumer

  ghost predicate Quiet(b: Bus) {
    && b.workers == map["c" := Idle]
    && (forall id :: id in b.pending ==> id in b.deliveries && b.deliveries[id] == b.pending[id].deliveries)
  }

  /** Message id is the only one claimed after ms, and every lower one is still too young. */
  ghost predicate ClaimedAlone(b: Bus, id: Id, ms: nat) {
    && id in b.pending && b.now + ms - b.pending[id].deliveredAt >= PENDING_MIN_IDLE_MS
    && forall i :: i in b.pending && i < id ==> b.now + ms - b.pending[i].deliveredAt < PENDING_MIN_IDLE_MS
  }

  /** Message id after one more delivery, tried or not. */
  function Again(b: Bus, id: Id, ms: nat, tried: bool): Bus
    requires id in b.pending
  {
    var k := b.pending[id].deliveries + 1;
    b.(now := b.now + ms, pending := b.pending[id := Entry("c", k, b.now + ms)], deliveries := b.deliveries[id := k],
       calls := b.calls + if tried then [Copy(id, k)] else [])
  }

  function Holding(b: Bus, id: Id, ms: nat, w: Worker): Bus
    requires id in b.pending
  {
    Again(b, id, ms, false).(workers := map["c" := w])
  }

  lemma ClaimOneStep(b: Bus, id: Id, ms: nat)
    requires Quiet(b) && ClaimedAlone(b, id, ms)
    ensures var b1 := b.(now := b.now + ms);
            && Next(b, Tick(ms)) == Enabled(b1)
            && Next(b1, AutoClaim("c", [id])) == Enabled(Holding(b, id, ms, Claimed([Copy(id, b.pending[id].deliveries + 1)])))
            && FairClaim(b1, AutoClaim("c", [id]))
  {
    var b1, held := b.(now := b.now + ms), Holding(b, id, ms, Claimed([Copy(id, b.pending[id].deliveries + 1)]));
    assert Claimable(b1, [id]);
    assert Redelivered(b1.pending, [id]) == [Copy(id, b.pending[id].deliveries + 1)];
    var b2 := Claim(b1, "c", [id]).bus;
    assert b2.pending == held.pending && b2.deliveries == held.deliveries;
    assert b.calls + [] == b.calls;
  }

  lemma ClaimOne(b: Bus, id: Id, ms: nat)
    requires FairlyReachable(b) && Quiet(b) && ClaimedAlone(b, id, ms)
    ensures FairlyReachable(Holding(b, id, ms, Claimed([Copy(id, b.pending[id].deliveries + 1)])))
  {
    hide FairlyReachable, Next, OldestFirst, Prompt, Holding;
    ClaimOneStep(b, id, ms);
    var b1 := b.(now := b.now + ms);
    ReachesTo(b, Tick(ms), b1);
    ReachesTo(b1, AutoClaim("c", [id]), Holding(b, id, ms, Claimed([Copy(id, b.pending[id].deliveries + 1)])));
  }

  /** The consumer goes down right after the claim. */
  lemma DroppedByCrash(b: Bus, id: Id, ms: nat)
    requires FairlyReachable(b) && Quiet(b) && ClaimedAlone(b, id, ms)
    ensures FairlyReachable(Again(b, id, ms, false))
  {
    ClaimOne(b, id, ms);
    var b1 := Holding(b, id, ms, Claimed([Copy(id, b.pending[id].deliveries + 1)]));
    Reaches(b1, Abort("c"));
    assert Next(b1, Abort("c")).bus == Again(b, id, ms, false);
  }

  /** The message is claimed, tried, and its handler raises. */
  lemma TriedAgain(b: Bus, id: Id, ms: nat)
    requires FairlyReachable(b) && Quiet(b) && ClaimedAlone(b, id, ms) && b.pending[id].deliveries < MAX_DELIVERIES
    ensures FairlyReachable(Again(b, id, ms, true))
  {
    hide FairlyReachable;
    var x := Copy(id, b.pending[id].deliveries + 1);
    ClaimOne(b, id, ms);
    var b2 := Holding(b, id, ms, Claimed([x]));
    OwnEntryIsCovered(b2.pending, "c", x);
    var counts := CountsOf(b2.pending, PendingReply(b2.pending, "c", [x]));
    Reaches(b2, AskPending("c"));
    var b3 := Holding(b, id, ms, Batch([x], Reclaimed(counts)));
    assert Next(b2, AskPending("c")) == Enabled(b3);
    hide CountsOf, PendingReply, Claim, Ask;
    assert CountSeen(counts, id) <= MAX_DELIVERIES by { LoneCount(b2.pending, x); }
    HandlerFails(b3, x, Reclaimed(counts));
    assert b3.calls + [x] == Again(b, id, ms, true).calls;
    assert b3.(calls := b3.calls + [x], workers := map["c" := Idle]) == Again(b, id, ms, true);
  }

  lemma LoneCount(pending: map<Id, Entry>, x: Copy)
    requires x.id in pending && pending[x.id] == Entry("c", x.delivery, pending[x.id].deliveredAt)
    requires x.delivery <= MAX_DELIVERIES
    ensures CountSeen(CountsOf(pending, PendingReply(pending, "c", [x])), x.id) <= MAX_DELIVERIES
  {
    hide PendingReply;
  }

  lemma DeliverStep(b: Bus, x: Copy, source: Source)
    requires b.workers == map["c" := Batch([x], source)] && !IsPoison(source, x.id)
    ensures Next(b, Deliver("c")) == Enabled(b.(calls := b.calls + [x], workers := map["c" := Running(x, [], source)]))
  {
    assert [x][1..] == [];
  }

  lemma FailSteps(b: Bus, x: Copy, source: Source)
    requires b.workers == map["c" := Running(x, [], source)]
    ensures Next(b, HandlerRaises("c")) == Enabled(b.(workers := map["c" := Batch([], source)]))
    ensures Next(b.(workers := map["c" := Batch([], source)]), Done("c")) == Enabled(b.(workers := map["c" := Idle]))
  {
  }

  /** The last message of a batch is tried in vain. */
  lemma HandlerFails(b: Bus, x: Copy, source: Source)
    requires FairlyReachable(b) && b.workers == map["c" := Batch([x], source)] && !IsPoison(source, x.id)
    ensures FairlyReachable(b.(calls := b.calls + [x], workers := map["c" := Idle]))
  {
    hide FairlyReachable, Next, IsPoison;
    var b1 := b.(calls := b.calls + [x], workers := map["c" := Running(x, [], source)]);
    DeliverStep(b, x, source);
    FailSteps(b1, x, source);
    ReachesTo(b, Deliver("c"), b1);
    ReachesTo(b1, HandlerRaises("c"), b1.(workers := map["c" := Batch([], source)]));
    ReachesTo(b1.(workers := map["c" := Batch([], source)]), Done("c"), b1.(workers := map["c" := Idle]));
  }

  // ---------------------------------------------------------------- the run

  /** Messages 0, 1 and 2 are pending at the idle consumer with these counts and times. */
  ghost predicate Pattern(b: Bus, now: int, e0: (nat, int), e1: (nat, int), e2: (nat, int)) {
    && Quiet(b) && b.now == now && b.pending.Keys == {0, 1, 2}
    && b.pending[0] == Entry("c", e0.0, e0.1)
    && b.pending[1] == Entry("c", e1.0, e1.1)
    && b.pending[2] == Entry("c", e2.0, e2.1)
  }

  /** The bus after one more message was published, read and tried in vain. */
  function Tried(b: Bus): Bus {
    b.(published := b.published + 1, cursor := b.cursor + 1, pending := b.pending[b.cursor := Entry("c", 1, b.now)],
       deliveries := b.deliveries[b.cursor := 1], calls := b.calls + [Copy(b.cursor, 1)], workers := map["c" := Idle])
  }

  lemma FirstSteps(b: Bus)
    requires WorkerOf(b, "c") == Idle && b.cursor == b.published && forall d :: d in b.workers ==> d == "c"
    ensures var b1, x := b.(published := b.published + 1), Copy(b.cursor, 1);
            && Next(b, Publish) == Enabled(b1)
            && Next(b1, ReadNew("c", 1))
               == Enabled(b1.(cursor := b.cursor + 1, pending := b.pending[b.cursor := Entry("c", 1, b.now)],
                              deliveries := b.deliveries[b.cursor := 1], workers := map["c" := Batch([x], New)]))
  {
    assert FirstCopies(b.cursor, 1) == [Copy(b.cursor, 1)];
    assert IdRange(b.cursor, 1) == {b.cursor};
    hide IdRange, FirstCopies;
    var b2 := Read(b.(published := b.published + 1), "c", 1).bus;
    OneKey(b2.pending, b.pending, b.cursor, Entry("c", 1, b.now));
    OneKey(b2.deliveries, b.deliveries, b.cursor, 1);
    OnlyConsumer(b.workers, Batch([Copy(b.cursor, 1)], New));
  }

  lemma OneKey<V>(m: map<Id, V>, base: map<Id, V>, id: Id, v: V)
    requires m.Keys == base.Keys + {id} && m[id] == v && forall i :: i in base && i != id ==> m[i] == base[i]
    ensures m == base[id := v]
  {
  }

  lemma OnlyConsumer(workers: map<string, Worker>, w: Worker)
    requires forall d :: d in workers ==> d == "c"
    ensures workers["c" := w] == map["c" := w]
  {
  }

  lemma FirstTry(b: Bus)
    requires FairlyReachable(b) && WorkerOf(b, "c") == Idle && b.cursor == b.published
    requires forall d :: d in b.workers ==> d == "c"
    ensures FairlyReachable(Tried(b))
  {
    hide FairlyReachable, Next;
    FirstSteps(b);
    var b1, x := b.(published := b.published + 1), Copy(b.cursor, 1);
    ReachesTo(b, Publish, b1);
    var b2 := b1.(cursor := b.cursor + 1, pending := b.pending[b.cursor := Entry("c", 1, b.now)],
                  deliveries := b.deliveries[b.cursor := 1], workers := map["c" := Batch([x], New)]);
    ReachesTo(b1, ReadNew("c", 1), b2);
    HandlerFails(b2, x, New);
  }

  lemma Wait(b: Bus, ms: nat)
    requires FairlyReachable(b)
    ensures FairlyReachable(b.(now := b.now + ms))
  {
    Reaches(b, Tick(ms));
  }

  lemma ThreeMessagesTriedOnce() returns (b: Bus)
    ensures FairlyReachable(b) && Attempts(b.calls, 2) == 1
    ensures Pattern(b, 2 * MINUTE, (1, 0), (1, MINUTE), (1, 2 * MINUTE))
  {
    assert FairTrace(INITIAL, INITIAL, []);
    hide FairlyReachable, Attempts;
    FirstTry(INITIAL);
    b := Tried(INITIAL);
    AttemptsOfSum(INITIAL.calls, Copy(0, 1), 2);
    Wait(b, MINUTE);
    b := b.(now := MINUTE);
    FirstTry(b);
    AttemptsOfSum(b.calls, Copy(1, 1), 2);
    b := Tried(b);
    Wait(b, MINUTE);
    b := b.(now := 2 * MINUTE);
    FirstTry(b);
    AttemptsOfSum(b.calls, Copy(2, 1), 2);
    b := Tried(b);
    assert Attempts([], 2) == 0 by { NoAttempts(); }
  }

  lemma NoAttempts()
    ensures Attempts([], 2) == 0
  {
  }

  lemma AttemptsOfSum(calls: seq<Copy>, x: Copy, id: Id)
    ensures Attempts(calls + [x], id) == Attempts(calls, id) + if x.id == id then 1 else 0
  {
    assert (calls + [x])[..|calls|] == calls;
  }

  lemma RoundStarts(b: Bus, t: int, k: nat) returns (b1: Bus)
    requires FairlyReachable(b) && Pattern(b, t, (k, t - 2 * MINUTE), (k, t - MINUTE), (k, t)) && k < MAX_DELIVERIES
    ensures FairlyReachable(b1) && Attempts(b1.calls, 2) == Attempts(b.calls, 2)
    ensures Pattern(b1, t + 3 * MINUTE, (k + 1, t + 3 * MINUTE), (k, t - MINUTE), (k, t))
  {
    hide FairlyReachable, Attempts;
    TriedAgain(b, 0, 3 * MINUTE);
    AttemptsOfSum(b.calls, Copy(0, k + 1), 2);
    b1 := Again(b, 0, 3 * MINUTE, true);
  }

  /** Five minutes later all three have been claimed, one a minute, and tried in vain. */
  lemma Round(b: Bus, t: int, k: nat) returns (b3: Bus)
    requires FairlyReachable(b) && Pattern(b, t, (k, t - 2 * MINUTE), (k, t - MINUTE), (k, t)) && k < MAX_DELIVERIES
    ensures FairlyReachable(b3) && Attempts(b3.calls, 2) == Attempts(b.calls, 2) + 1
    ensures Pattern(b3, t + 5 * MINUTE, (k + 1, t + 3 * MINUTE), (k + 1, t + 4 * MINUTE), (k + 1, t + 5 * MINUTE))
  {
    hide FairlyReachable, Attempts;
    var b1 := RoundStarts(b, t, k);
    TriedAgain(b1, 1, MINUTE);
    var b2 := Again(b1, 1, MINUTE, true);
    AttemptsOfSum(b1.calls, Copy(1, k + 1), 2);
    TriedAgain(b2, 2, MINUTE);
    b3 := Again(b2, 2, MINUTE, true);
    AttemptsOfSum(b2.calls, Copy(2, k + 1), 2);
  }

  /** After four rounds every message has been tried MAX_DELIVERIES times; two crashes then leave
      0 and 1 pending after their sixth delivery. */
  lemma FourRoundsAndTwoCrashes() returns (b: Bus)
    ensures FairlyReachable(b) && Attempts(b.calls, 2) == 5
    ensures Pattern(b, 26 * MINUTE, (6, 25 * MINUTE), (6, 26 * MINUTE), (5, 22 * MINUTE))
  {
    hide FairlyReachable, Attempts, Pattern;
    b := ThreeMessagesTriedOnce();
    b := Round(b, 2 * MINUTE, 1);
    b := Round(b, 7 * MINUTE, 2);
    b := Round(b, 12 * MINUTE, 3);
    b := Round(b, 17 * MINUTE, 4);
    b := TwoCrashes(b);
  }

  lemma TwoCrashes(b: Bus) returns (b2: Bus)
    requires FairlyReachable(b) && Pattern(b, 22 * MINUTE, (5, 20 * MINUTE), (5, 21 * MINUTE), (5, 22 * MINUTE))
    ensures FairlyReachable(b2) && b2.calls == b.calls
    ensures Pattern(b2, 26 * MINUTE, (6, 25 * MINUTE), (6, 26 * MINUTE), (5, 22 * MINUTE))
  {
    hide FairlyReachable;
    DroppedByCrash(b, 0, 3 * MINUTE);
    var b1 := Again(b, 0, 3 * MINUTE, false);
    DroppedByCrash(b1, 1, MINUTE);
    b2 := Again(b1, 1, MINUTE, false);
  }

  /** Four and a half minutes later 0 and 2 are stale and 1 is not; 1 takes the place of 2 in the
      reply, and the handler gets 2 for the sixth time. */
  lemma SixthAttempt(b: Bus)
    requires FairlyReachable(b) && Pattern(b, 26 * MINUTE, (6, 25 * MINUTE), (6, 26 * MINUTE), (5, 22 * MINUTE))
    ensures exists b' :: FairlyReachable(b') && b'.calls == b.calls + [Copy(2, 6)]
  {
    hide FairlyReachable, FairClaim, Next;
    Wait(b, 270_000);
    var b1 := b.(now := b.now + 270_000);
    ClaimsZeroAndTwo(b1);
    var b2 := Claim(b1, "c", [0, 2]).bus;
    ReachesTo(b1, AutoClaim("c", [0, 2]), b2);
    PassesTwo(b2, [Copy(0, 7), Copy(2, 6)]);
  }

  lemma ClaimsZeroAndTwo(b: Bus)
    requires Pattern(b, 26 * MINUTE + 270_000, (6, 25 * MINUTE), (6, 26 * MINUTE), (5, 22 * MINUTE))
    ensures FairClaim(b, AutoClaim("c", [0, 2])) && Next(b, AutoClaim("c", [0, 2])) == Claim(b, "c", [0, 2])
    ensures Claim(b, "c", [0, 2]).Enabled?
    ensures var b' := Claim(b, "c", [0, 2]).bus;
            && b'.workers == map["c" := Claimed([Copy(0, 7), Copy(2, 6)])] && b'.calls == b.calls
            && b'.pending.Keys == {0, 1, 2} && b'.pending[0].deliveries == 7
            && forall id :: id in b'.pending ==> b'.pending[id].consumer == "c"
  {
    assert Claimable(b, [0, 2]);
    assert Redelivered(b.pending, [0, 2]) == [Copy(0, 7), Copy(2, 6)];
  }

  lemma PassesTwo(b: Bus, copies: seq<Copy>)
    requires FairlyReachable(b) && b.workers == map["c" := Claimed(copies)] && copies == [Copy(0, 7), Copy(2, 6)]
    requires b.pending.Keys == {0, 1, 2} && b.pending[0].deliveries == 7
    requires forall id :: id in b.pending ==> b.pending[id].consumer == "c"
    ensures exists b' :: FairlyReachable(b') && b'.calls == b.calls + [Copy(2, 6)]
  {
    hide FairlyReachable, PendingReply;
    ReplyStopsAtOne(b.pending, copies);
    var counts := CountsOf(b.pending, [0, 1]);
    assert CountSeen(counts, 0) == 7 && CountSeen(counts, 2) == 1;
    hide CountsOf, CountSeen;
    Reaches(b, AskPending("c"));
    var b2 := Next(b, AskPending("c")).bus;
    assert b2.workers == map["c" := Batch(copies, Reclaimed(counts))] && b2.calls == b.calls;
    hide Ask;
    HandlesSecond(b2, copies[0], copies[1], counts);
  }

  /** A batch whose first message is dead-lettered and whose second one looks young. */
  lemma HandlesSecond(b: Bus, x: Copy, y: Copy, counts: map<Id, nat>)
    requires FairlyReachable(b) && b.workers == map["c" := Batch([x, y], Reclaimed(counts))]
    requires CountSeen(counts, x.id) > MAX_DELIVERIES && CountSeen(counts, y.id) <= MAX_DELIVERIES
    ensures exists b' :: FairlyReachable(b') && b'.calls == b.calls + [y]
  {
    hide FairlyReachable, CountSeen;
    Reaches(b, Deliver("c"));
    var b1 := Next(b, Deliver("c")).bus;
    assert [x, y][1..] == [y];
    assert b1.workers == map["c" := Batch([y], Reclaimed(counts))] && b1.calls == b.calls;
    Reaches(b1, Deliver("c"));
    assert Next(b1, Deliver("c")).bus.calls == b.calls + [y];
  }

  lemma ReplyStopsAtOne(pending: map<Id, Entry>, copies: seq<Copy>)
    requires pending.Keys == {0, 1, 2} && forall id :: id in pending ==> pending[id].consumer == "c"
    requires |copies| == 2 && copies[0].id == 0 && copies[1].id == 2
    ensures PendingReply(pending, "c", copies) == [0, 1]
  {
    SameMembersSameSequence(OwnedInRange(pending, "c", 0, 2), [0, 1, 2]);
  }

  /** Fair claims alone are not enough: there is a run, fair throughout, in which the handler is
      tried on message 2 more than MAX_DELIVERIES times. */
  lemma CrashesBreakTheBound() returns (trace: seq<Action>)
    ensures Run(INITIAL, trace).Enabled? && FairRun(INITIAL, trace)
    ensures Attempts(Run(INITIAL, trace).bus.calls, 2) == MAX_DELIVERIES + 1
  {
    var b := FourRoundsAndTwoCrashes();
    SixthAttempt(b);
    var b' :| FairlyReachable(b') && b'.calls == b.calls + [Copy(2, 6)];
    AttemptsOfSum(b.calls, Copy(2, 6), 2);
    trace :| FairTrace(INITIAL, b', trace);
  }
}
