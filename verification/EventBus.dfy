/**
  `EventBus` as code: the Redis commands it issues over the stream's in-memory state, and the
  dispatch, claim and consume methods written as the loops they are.  `history` mirrors the
  state as a `ConsumerGroup.Bus`; every method is proved to be a run of that protocol, so all
  that is proved about runs holds of this code.
 */
module EventBus {
  import opened Sequences

  import opened ConsumerGroup
  import opened ClaimOrder
  import opened Recovery

  /** What happens to one message between `_dispatch` receiving it and returning. */
  datatype Outcome = Acknowledged | AckLost | HandlerRaised | BadJson

  /** Some run of the protocol leads from one state to the other. */
  ghost predicate Continues(b: Bus, b': Bus) {
    exists trace :: Run(b, trace) == Enabled(b')
  }

  ghost predicate Reachable(b: Bus) {
    Continues(INITIAL, b)
  }

  lemma {:induction false} RunConcat(b: Bus, s: seq<Action>, t: seq<Action>)
    requires Run(b, s).Enabled?
    ensures Run(b, s + t) == Run(Run(b, s).bus, t)
    decreases |s|
  {
    if s == [] {
      assert s + t == t;
    } else {
      assert (s + t)[1..] == s[1..] + t;
      RunConcat(Next(b, s[0]).bus, s[1..], t);
    }
  }

  lemma ContinuesSelf(b: Bus)
    ensures Continues(b, b)
  {
    assert Run(b, []) == Enabled(b);
  }

  lemma ContinuesOn(b0: Bus, b1: Bus, b2: Bus)
    requires Continues(b0, b1) && Continues(b1, b2)
    ensures Continues(b0, b2)
  {
    var s :| Run(b0, s) == Enabled(b1);
    var t :| Run(b1, t) == Enabled(b2);
    RunConcat(b0, s, t);
  }

  lemma ContinuesNext(b: Bus, a: Action)
    requires Next(b, a).Enabled?
    ensures Continues(b, Next(b, a).bus)
  {
    assert [a][1..] == [];
    assert Run(b, [a]) == Next(b, a);
  }

  /** Whatever the methods of the bus reach satisfies the protocol's invariant. */
  lemma ReachableIsSound(b: Bus)
    requires Reachable(b)
    ensures Inv(b)
  {
    var t :| Run(INITIAL, t) == Enabled(b);
    InitialInv();
    RunKeepsInv(INITIAL, t);
  }

  lemma ReachableIsPartitioned(b: Bus)
    requires Reachable(b)
    ensures Partitioned(b)
  {
    ReachableIsSound(b);
  }

  lemma FreshIds(lo: Id, n: nat)
    ensures forall id: nat :: lo <= id < lo + n <==> id in IdsOf(FirstCopies(lo, n))
  {
    var ids := IdsOf(FirstCopies(lo, n));
    forall id: nat | lo <= id < lo + n ensures id in ids {
      assert ids[id - lo] == id;
    }
  }

  /** The bus when the handler of the first message in the batch has returned. */
  function Returned(b: Bus, c: string): Bus
    requires WorkerOf(b, c).Batch? && WorkerOf(b, c).copies != []
  {
    var w := WorkerOf(b, c);
    SetWorker(StartHandler(b, c), c, Worker.Returned(w.copies[0], w.copies[1..], w.source)).(
    returned := b.returned + {w.copies[0].id})
  }

  /** The protocol steps of one dispatch and where they lead. */
  lemma AttemptShape(b: Bus, c: string)
    requires WorkerOf(b, c).Batch? && WorkerOf(b, c).copies != []
    requires !IsPoison(WorkerOf(b, c).source, WorkerOf(b, c).copies[0].id)
    ensures var w := WorkerOf(b, c);
            var rest, id := Batch(w.copies[1..], w.source), w.copies[0].id;
            var tried, back := StartHandler(b, c), Returned(b, c);
            && Next(b, DecodeFails(c)) == Enabled(SetWorker(b, c, rest))
            && Next(b, Deliver(c)) == Enabled(tried)
            && Next(tried, HandlerRaises(c)) == Enabled(SetWorker(tried, c, rest))
            && Next(tried, HandlerReturns(c)) == Enabled(back)
            && Next(back, AckFails(c)) == Enabled(SetWorker(back, c, rest))
            && Next(back, Ack(c)) == Enabled(SetWorker(back, c, rest).(pending := back.pending - {id}, acked := back.acked + {id}))
    ensures StartHandler(b, c).calls == b.calls + [WorkerOf(b, c).copies[0]] == Returned(b, c).calls
    ensures StartHandler(b, c).pending == b.pending == Returned(b, c).pending
    ensures StartHandler(b, c).acked == b.acked == Returned(b, c).acked
    ensures StartHandler(b, c).now == b.now == Returned(b, c).now
    ensures StartHandler(b, c).cursor == b.cursor == Returned(b, c).cursor
    ensures StartHandler(b, c).published == b.published == Returned(b, c).published
  {
  }

  lemma DeadLetterShape(b: Bus, c: string)
    requires WorkerOf(b, c).Batch? && WorkerOf(b, c).copies != []
    requires IsPoison(WorkerOf(b, c).source, WorkerOf(b, c).copies[0].id)
    ensures var w, b' := WorkerOf(b, c), DeadLetter(b, c);
            && Next(b, Deliver(c)) == Enabled(b')
            && WorkerOf(b', c) == Batch(w.copies[1..], w.source)
            && b'.pending == b.pending - {w.copies[0].id} && b'.acked == b.acked + {w.copies[0].id}
            && b'.published == b.published && b'.cursor == b.cursor && b'.now == b.now
  {
  }

  /** What working through claimed messages acks: the poison ones and those handled. */
  function Settles(messages: seq<Id>, counts: map<Id, nat>, outcomes: Id -> Outcome): set<Id> {
    set id | id in messages && (CountSeen(counts, id) > MAX_DELIVERIES || outcomes(id).Acknowledged?)
  }

  lemma SettlesOneMore(messages: seq<Id>, i: nat, counts: map<Id, nat>, outcomes: Id -> Outcome)
    requires i < |messages|
    ensures var id := messages[i];
            Settles(messages[..i + 1], counts, outcomes)
            == Settles(messages[..i], counts, outcomes)
               + if CountSeen(counts, id) > MAX_DELIVERIES || outcomes(id).Acknowledged? then {id} else {}
  {
    assert messages[..i + 1] == messages[..i] + [messages[i]];
  }

  lemma FinishedShape(b: Bus, c: string)
    requires WorkerOf(b, c).Batch? && WorkerOf(b, c).copies == []
    ensures Next(b, Done(c)) == Enabled(SetWorker(b, c, Idle))
  {
  }

  lemma RangeStep(pending: map<Id, Entry>, c: string, id: Id, hi: Id)
    ensures id > hi ==> OwnedInRange(pending, c, id, hi) == []
    ensures id <= hi ==>
              var rest := OwnedInRange(pending, c, id + 1, hi);
              OwnedInRange(pending, c, id, hi) == if id in pending && pending[id].consumer == c then [id] + rest else rest
  {
  }

  /** The counts a claim pass works with are the ones XPENDING answers after its claim. */
  ghost predicate AnsweredCounts(b: Bus, c: string, ids: seq<Id>, counts: map<Id, nat>) {
    && Claim(b, c, ids).Enabled?
    && var claimed := Claim(b, c, ids).bus;
       if ids == [] then counts == map[]
       else counts == CountsOf(claimed.pending, PendingReply(claimed.pending, c, WorkerOf(claimed, c).copies))
  }

  class EventBus {
    var published: nat
    var cursor: nat
    var pending: map<Id, Entry>
    var acked: set<Id>
    var now: int
    var nextClaimAt: int
    ghost var history: Bus

    ghost predicate Valid()
      reads this
    {
      && Reachable(history)
      && published == history.published && cursor == history.cursor
      && pending == history.pending && acked == history.acked && now == history.now
    }

    constructor (claimInterval: int)
      ensures Valid() && history == INITIAL
    {
      published, cursor, pending, acked, now := 0, 0, map[], {}, 0;
      nextClaimAt := claimInterval;
      history := INITIAL;
      new;
      ContinuesSelf(INITIAL);
    }

    /** Records that the concrete fields have just taken protocol step `a`. */
    ghost method Took(a: Action)
      requires Next(history, a).Enabled?
      modifies this`history
      ensures history == Next(old(history), a).bus
      ensures forall from :: Continues(from, old(history)) ==> Continues(from, history)
    {
      var b' := Next(history, a).bus;
      ContinuesNext(history, a);
      forall from | Continues(from, history) ensures Continues(from, b') {
        ContinuesOn(from, history, b');
      }
      history := b';
    }

    method Publish() returns (id: Id)
      requires Valid()
      modifies this
      ensures Valid() && history == Next(old(history), ConsumerGroup.Publish).bus
      ensures Continues(old(history), history)
      ensures id == old(published) && nextClaimAt == old(nextClaimAt)
    {
      ContinuesSelf(history);
      id := published;
      published := published + 1;
      Took(ConsumerGroup.Publish);
    }

    method Ack(id: Id)
      modifies this`pending, this`acked
      ensures pending == old(pending) - {id} && acked == old(acked) + {id}
    {
      pending := pending - {id};
      acked := acked + {id};
    }

    /** XREADGROUP with the id '>': up to `count` messages nobody in the group has been handed. */
    method ReadGroup(c: string, count: nat) returns (ids: seq<Id>)
      requires Valid() && cursor <= published && WorkerOf(history, c).Idle?
      modifies this
      ensures Valid() && nextClaimAt == old(nextClaimAt)
      ensures |ids| == (if count <= old(published - cursor) then count else old(published - cursor))
      ensures history == Next(old(history), ReadNew(c, |ids|)).bus
      ensures ids == IdsOf(FirstCopies(old(cursor), |ids|)) && cursor == old(cursor) + |ids|
      ensures WorkerOf(history, c) == Batch(FirstCopies(old(cursor), |ids|), New) && acked == old(acked)
      ensures Continues(old(history), history)
    {
      hide Continues;
      ContinuesSelf(history);
      var n := if count <= published - cursor then count else published - cursor;
      ids := IdsOf(FirstCopies(cursor, n));
      pending := pending + map id | id in IdRange(cursor, n) :: Entry(c, 1, now);
      cursor := cursor + n;
      Took(ReadNew(c, |ids|));
    }

    /** XAUTOCLAIM from the start of the stream: the first `count` entries idle for long enough,
        as far as the scan goes. */
    method AutoClaimStale(c: string, count: nat) returns (ids: seq<Id>)
      requires Valid() && WorkerOf(history, c).Idle?
      modifies this`pending, this`history
      ensures Valid()
      ensures ids == ClaimBatch(old(history), count)
      ensures |ids| <= count && OldestFirst(old(history), ids) && (forall id :: id in ids ==> Stale(old(history), id))
      ensures Next(old(history), AutoClaim(c, ids)).Enabled?
      ensures history == Next(old(history), AutoClaim(c, ids)).bus
      ensures Continues(old(history), history)
    {
      hide Continues, Scan, OldestFirst;
      ContinuesSelf(history);
      BatchIsOldest(history, count);
      ids := [];
      var id, budget := 0, SCAN_FACTOR * count;
      while id < cursor && |ids| < count && budget > 0
        invariant id >= 0 && budget >= 0 && |ids| <= count && Valid() && history == old(history)
        invariant ClaimBatch(history, count) == ids + Scan(history, id, budget, count - |ids|)
        decreases cursor - id
      {
        ghost var left := count - |ids|;
        ScanStep(history, id, budget, left);
        if id in pending {
          budget := budget - 1;
          if now - pending[id].deliveredAt >= PENDING_MIN_IDLE_MS {
            AppendTwice(ids, [id], Scan(history, id + 1, budget, left - 1));
            ids := ids + [id];
          }
        }
        id := id + 1;
      }
      ScanStep(history, id, budget, count - |ids|);
      assert ids + [] == ids == ClaimBatch(history, count);
      hide ClaimBatch;
      if ids != [] {
        pending := map x | x in pending ::
          if x in ids then Entry(c, pending[x].deliveries + 1, now) else pending[x];
      }
      Took(AutoClaim(c, ids));
    }

    /** XPENDING: walks the range upwards and stops at `count` entries of `c`. */
    method PendingRange(c: string, lo: Id, hi: Id, count: nat) returns (reply: seq<Id>)
      ensures reply == PrefixUpTo(OwnedInRange(pending, c, lo, hi), count)
    {
      hide OwnedInRange;
      reply := [];
      var id := lo;
      while id <= hi && |reply| < count
        invariant |reply| <= count
        invariant OwnedInRange(pending, c, lo, hi) == reply + OwnedInRange(pending, c, id, hi)
        decreases hi + 1 - id
      {
        RangeStep(pending, c, id, hi);
        if id in pending && pending[id].consumer == c {
          AppendTwice(reply, [id], OwnedInRange(pending, c, id + 1, hi));
          reply := reply + [id];
        }
        id := id + 1;
      }
      RangeStep(pending, c, id, hi);
    }

    /** `delivery_counts`, entry by entry of the reply. */
    method CollectCounts(reply: seq<Id>) returns (counts: map<Id, nat>)
      requires forall id :: id in reply ==> id in pending
      ensures counts == CountsOf(pending, reply)
    {
      counts := map[];
      for i := 0 to |reply|
        invariant forall id :: id in counts <==> id in reply[..i]
        invariant forall id :: id in counts ==> id in pending && counts[id] == pending[id].deliveries
      {
        assert reply[..i + 1] == reply[..i] + [reply[i]];
        counts := counts[reply[i] := pending[reply[i]].deliveries];
      }
      assert reply[..|reply|] == reply;
    }

    /** Runs one message through handler and ack; anything that goes wrong leaves it pending. */
    method Dispatch(c: string, id: Id, outcome: Outcome)
      requires Valid() && WorkerOf(history, c).Batch? && WorkerOf(history, c).copies != []
      requires WorkerOf(history, c).copies[0].id == id
      requires !IsPoison(WorkerOf(history, c).source, id)
      modifies this`pending, this`acked, this`history
      ensures Valid()
      ensures WorkerOf(history, c) == old(Batch(WorkerOf(history, c).copies[1..], WorkerOf(history, c).source))
      ensures history.calls == old(history.calls) + (if outcome.BadJson? then [] else [old(WorkerOf(history, c).copies[0])])
      ensures acked == old(acked) + (if outcome.Acknowledged? then {id} else {})
      ensures pending == old(pending) - (if outcome.Acknowledged? then {id} else {})
      ensures Continues(old(history), history)
    {
      AttemptShape(history, c);
      ContinuesSelf(history);
      hide Continues, Next, StartHandler;
      if outcome.BadJson? {
        Took(DecodeFails(c));
        return;
      }
      Took(Deliver(c));
      if outcome.HandlerRaised? {
        Took(HandlerRaises(c));
        return;
      }
      Took(HandlerReturns(c));
      if outcome.AckLost? {
        Took(AckFails(c));
      } else {
        Ack(id);
        Took(ConsumerGroup.Ack(c));
      }
    }

    /** The loop over claimed messages: dead-letter what Redis reports as delivered too often,
        send the others through the handler again. */
    method WorkThrough(c: string, messages: seq<Id>, counts: map<Id, nat>, outcomes: Id -> Outcome)
      requires Valid() && WorkerOf(history, c).Batch? && WorkerOf(history, c).source == Reclaimed(counts)
      requires messages == IdsOf(WorkerOf(history, c).copies)
      modifies this`pending, this`acked, this`history
      ensures Valid() && WorkerOf(history, c).Idle?
      ensures acked == old(acked) + Settles(messages, counts, outcomes)
      ensures Continues(old(history), history)
    {
      hide Continues, Next, DeadLetter;
      ContinuesSelf(history);
      ghost var start := history;
      assert Settles(messages[..0], counts, outcomes) == {};
      hide Settles;
      ghost var copies := WorkerOf(history, c).copies;
      var i := 0;
      while i < |messages|
        invariant 0 <= i <= |messages| && Valid() && Continues(start, history)
        invariant WorkerOf(history, c) == Batch(copies[i..], Reclaimed(counts))
        invariant acked == old(acked) + Settles(messages[..i], counts, outcomes)
      {
        var id := messages[i];
        SettlesOneMore(messages, i, counts, outcomes);
        if CountSeen(counts, id) > MAX_DELIVERIES {
          DeadLetterShape(history, c);
          Ack(id);
          Took(Deliver(c));
        } else {
          ghost var before := history;
          Dispatch(c, id, outcomes(id));
          ContinuesOn(start, before, history);
        }
        i := i + 1;
      }
      assert messages[..i] == messages;
      FinishedShape(history, c);
      Took(Done(c));
    }

    /** Reclaims entries nobody has touched for PENDING_MIN_IDLE_MS and works through them. */
    method ClaimStalePending(c: string, batch: nat, outcomes: Id -> Outcome)
        returns (messages: seq<Id>, counts: map<Id, nat>)
      requires Valid() && WorkerOf(history, c).Idle?
      modifies this`pending, this`acked, this`history
      ensures Valid() && WorkerOf(history, c).Idle? && Continues(old(history), history)
      ensures messages == ClaimBatch(old(history), batch)
      ensures AnsweredCounts(old(history), c, messages, counts)
      ensures acked == old(acked) + Settles(messages, counts, outcomes)
    {
      hide Continues, OldestFirst, ClaimBatch;
      counts := map[];
      ghost var start := history;
      messages := AutoClaimStale(c, batch);
      if messages != [] {
        ghost var claimed := history;
        var reply := PendingRange(c, messages[0], messages[|messages| - 1], |messages|);
        ReplyIsOwned(pending, c, WorkerOf(history, c).copies);
        counts := CollectCounts(reply);
        Took(AskPending(c));
        ghost var asked := history;
        WorkThrough(c, messages, counts, outcomes);
        ContinuesOn(start, asked, history);
      }
    }

    /** The loop over freshly read messages. */
    method DispatchNew(c: string, ids: seq<Id>, outcomes: Id -> Outcome)
      requires Valid() && WorkerOf(history, c).Batch? && WorkerOf(history, c).source == New
      requires ids == IdsOf(WorkerOf(history, c).copies)
      modifies this`pending, this`acked, this`history
      ensures Valid() && WorkerOf(history, c).Idle?
      ensures acked == old(acked) + set id | id in ids && outcomes(id).Acknowledged?
      ensures Continues(old(history), history)
    {
      hide Continues;
      ContinuesSelf(history);
      ghost var start := history;
      ghost var copies := WorkerOf(history, c).copies;
      var i := 0;
      while i < |ids|
        invariant 0 <= i <= |ids| && Valid() && Continues(start, history)
        invariant WorkerOf(history, c) == Batch(copies[i..], New)
        invariant acked == old(acked) + set id | id in ids[..i] && outcomes(id).Acknowledged?
      {
        assert ids[..i + 1] == ids[..i] + [ids[i]];
        ghost var before := history;
        Dispatch(c, ids[i], outcomes(ids[i]));
        ContinuesOn(start, before, history);
        i := i + 1;
      }
      assert ids[..i] == ids;
      Took(Done(c));
    }

    /** One turn of the consumer loop: claim if the tick is due, then read and dispatch.
        `claimed` and `counts` are what the claim pass, if any, worked on. */
    method ConsumeOnce(c: string, batch: nat, nextTick: int, outcomes: Id -> Outcome)
        returns (ghost claimed: seq<Id>, ghost counts: map<Id, nat>)
      requires Valid() && WorkerOf(history, c).Idle?
      modifies this
      ensures Valid() && WorkerOf(history, c).Idle? && Continues(old(history), history)
      ensures nextClaimAt == if old(now >= nextClaimAt) then nextTick else old(nextClaimAt)
      ensures claimed == if old(now >= nextClaimAt) then ClaimBatch(old(history), batch) else []
      ensures AnsweredCounts(old(history), c, claimed, counts)
      ensures acked == old(acked) + Settles(claimed, counts, outcomes)
                       + set id: nat | old(cursor) <= id < cursor && outcomes(id).Acknowledged?
      ensures forall id: nat :: old(cursor) <= id < cursor ==>
                (id in acked <==> outcomes(id).Acknowledged?) && (id in pending <==> !outcomes(id).Acknowledged?)
    {
      hide Continues, ClaimBatch, AnsweredCounts, Settles, Next, FirstCopies, IdsOf;
      ghost var start := history;
      NothingClaimed(history, c, outcomes);
      claimed, counts := [], map[];
      if now >= nextClaimAt {
        nextClaimAt := nextTick;
        claimed, counts := ClaimStalePending(c, batch, outcomes);
      }
      ghost var worked := history;
      ReachableIsPartitioned(history);
      var first := cursor;
      var ids := ReadGroup(c, batch);
      FreshIds(first, |ids|);
      ghost var read := history;
      ContinuesOn(start, worked, read);
      DispatchNew(c, ids, outcomes);
      ContinuesOn(start, read, history);
      ReachableIsPartitioned(history);
    }
  }

  lemma NothingClaimed(b: Bus, c: string, outcomes: Id -> Outcome)
    requires WorkerOf(b, c).Idle?
    ensures Continues(b, b) && AnsweredCounts(b, c, [], map[])
    ensures Settles([], map[], outcomes) == {}
  {
    ContinuesSelf(b);
  }
}
