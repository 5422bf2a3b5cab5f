/** What the kill switch achieves, and at which broker. */
module EmergencyFlatten {
  import opened Arithmetic
  import opened Wrappers
  import opened Orders
  import opened Fills
  import opened Router
  import opened Execution
  import opened ExecutionRuns

  function SignedCall(c: BrokerCall): real {
    if c.side == "buy" then c.quantity else -c.quantity
  }

  /** A flatten order: bypasses the halt and trades exactly the opposite of what is held. */
  predicate Offsets(c: BrokerCall, h: Holding) {
    && c.bypass && c.symbol == h.symbol && h.quantity != 0.0 && SignedCall(c) == -h.quantity
    && c.side in {"buy", "sell"} && c.orderType == "market" && c.limitPrice.None?
  }

  /** The call offsets the position at the broker the router chooses for the symbol. */
  predicate Answers(c: BrokerCall, brokers: seq<Broker>, live: bool, h: Holding) {
    Offsets(c, h) && c.broker in brokers && SelectBroker(brokers, live, h.symbol) == Some(c.broker.name)
  }

  function OpenOnly(held: seq<HeldPosition>): (r: seq<HeldPosition>)
    ensures forall h :: h in r <==> h in held && h.holding.quantity != 0.0
  {
    if held == [] then []
    else (if held[0].holding.quantity == 0.0 then [] else [held[0]]) + OpenOnly(held[1..])
  }

  predicate AnyEligible(brokers: seq<Broker>, live: bool) {
    exists b :: b in brokers && Eligible(b, live)
  }

  lemma PlaceCalls(s: Engine, id: nat, broker: Broker, r: Request, m: Market)
    requires id in s.book.orders
    ensures var s' := Place(s, id, broker, r, m);
            && s'.halted == s.halted && s'.brokers == s.brokers && s'.live == s.live
            && s'.book.nextId == s.book.nextId
            && s'.calls == s.calls + [CallFor(s, id, broker, r)]
            && (forall d :: d in s'.inFlight ==> d in s.inFlight || d == id)
  {
    hide CallFor;
  }

  /** An unpriced order is held back by nothing but the router. */
  lemma UnpricedOrderIsCalled(s: Engine, id: nat, r: Request, m: Market)
    requires DistinctNames(s.brokers) && id in s.book.orders
    requires s.book.orders[id].limitPrice.None? && r.referencePrice.None?
    ensures var s' := Dispatch(s, id, r, m);
            && s'.halted == s.halted && s'.brokers == s.brokers && s'.live == s.live
            && s'.book.nextId == s.book.nextId
            && (forall d :: d in s'.inFlight ==> d in s.inFlight || d == id)
    ensures var choice := SelectBroker(s.brokers, s.live, s.book.orders[id].symbol);
            match choice
            case None => Dispatch(s, id, r, m).calls == s.calls
            case Some(name) =>
              && Named(s.brokers, name).Some?
              && Dispatch(s, id, r, m).calls == s.calls + [CallFor(s, id, Named(s.brokers, name).value, r)]
  {
    hide SelectBroker, Named, CallFor, Place;
    SelectionIsSafe(s.brokers, s.live, s.book.orders[id].symbol);
    var choice := SelectBroker(s.brokers, s.live, s.book.orders[id].symbol);
    if choice.Some? {
      PlaceCalls(s, id, Named(s.brokers, choice.value).value, r, m);
    }
  }

  lemma FlattenOrderAnswers(s: Engine, h: Holding, m: Market)
    requires DistinctNames(s.brokers) && h.quantity != 0.0
    ensures var s' := SubmitOrder(s, FlattenRequest(h), m).engine;
            && s'.halted == s.halted && s'.brokers == s.brokers && s'.live == s.live
            && s'.book.nextId == s.book.nextId + 1
            && (forall id :: id in s'.inFlight ==> id in s.inFlight || id == s.book.nextId)
            && (if AnyEligible(s.brokers, s.live)
                then exists c :: s'.calls == s.calls + [c] && Answers(c, s.brokers, s.live, h)
                else s'.calls == s.calls)
  {
    hide Dispatch, SelectBroker, Named;
    var r := FlattenRequest(h);
    var created := WithNewOrder(s, r, m.now);
    var id := s.book.nextId;
    SelectionIsSafe(s.brokers, s.live, h.symbol);
    UnpricedOrderIsCalled(created, id, r, m);
    var choice := SelectBroker(s.brokers, s.live, h.symbol);
    if choice.Some? {
      assert Answers(CallFor(created, id, Named(s.brokers, choice.value).value, r), s.brokers, s.live, h);
    }
  }

  /** The new calls answer the open positions, one each and in the order they were reported. */
  ghost predicate AnswersAll(calls: seq<BrokerCall>, brokers: seq<Broker>, live: bool, open: seq<HeldPosition>) {
    if AnyEligible(brokers, live)
    then |calls| == |open| && forall i :: 0 <= i < |open| ==> Answers(calls[i], brokers, live, open[i].holding)
    else calls == []
  }

  lemma NothingToAnswer(brokers: seq<Broker>, live: bool)
    ensures AnswersAll([], brokers, live, [])
  {
  }

  lemma CallsContinue(before: seq<BrokerCall>, next: seq<BrokerCall>, after: seq<BrokerCall>,
                      brokers: seq<Broker>, live: bool, h: HeldPosition, open: seq<HeldPosition>)
    requires if AnyEligible(brokers, live) then exists c :: next == before + [c] && Answers(c, brokers, live, h.holding)
             else next == before
    requires |next| <= |after| && after[..|next|] == next && AnswersAll(after[|next|..], brokers, live, open)
    ensures |before| <= |after| && after[..|before|] == before
    ensures AnswersAll(after[|before|..], brokers, live, [h] + open)
  {
    hide AnyEligible, Answers;
    assert after[..|before|] == after[..|next|][..|before|];
    if AnyEligible(brokers, live) {
      var c :| next == before + [c] && Answers(c, brokers, live, h.holding);
      assert after[|before|] == after[..|next|][|before|] == c;
      assert after[|before|..] == [c] + after[|next|..];
    }
  }

  lemma {:induction false} CloseAllAnswers(s: Engine, held: seq<HeldPosition>)
    requires DistinctNames(s.brokers)
    ensures var s' := CloseAll(s, held);
            && s'.halted == s.halted && s.book.nextId <= s'.book.nextId
            && |s.calls| <= |s'.calls| && s'.calls[..|s.calls|] == s.calls
            && AnswersAll(s'.calls[|s.calls|..], s.brokers, s.live, OpenOnly(held))
            && (forall id :: id in s'.inFlight && id < s.book.nextId ==> id in s.inFlight)
    decreases |held|
  {
    hide SubmitOrder, Answers, AnswersAll, AnyEligible, OpenOnly;
    OpenOnlySplits(held);
    if held == [] {
      NothingToAnswer(s.brokers, s.live);
      assert s.calls[|s.calls|..] == [];
    } else {
      var h := held[0];
      if h.holding.quantity == 0.0 {
        CloseAllAnswers(s, held[1..]);
      } else {
        var next := SubmitOrder(s, FlattenRequest(h.holding), h.market).engine;
        FlattenOrderAnswers(s, h.holding, h.market);
        CloseAllAnswers(next, held[1..]);
        CallsContinue(s.calls, next.calls, CloseAll(s, held).calls, s.brokers, s.live, h, OpenOnly(held[1..]));
      }
    }
  }

  lemma OpenOnlySplits(held: seq<HeldPosition>)
    ensures held == [] ==> OpenOnly(held) == []
    ensures held != [] && held[0].holding.quantity == 0.0 ==> OpenOnly(held) == OpenOnly(held[1..])
    ensures held != [] && held[0].holding.quantity != 0.0 ==> OpenOnly(held) == [held[0]] + OpenOnly(held[1..])
  {
  }

  lemma {:induction false} CancelAllClears(s: Engine, ids: seq<nat>, replies: nat -> Option<bool>, now: int)
    ensures var s' := CancelAll(s, ids, replies, now);
            && s'.calls == s.calls && s'.halted == s.halted && s'.book.nextId == s.book.nextId
            && s'.brokers == s.brokers && s'.live == s.live
            && (forall id :: id in s'.inFlight ==> id in s.inFlight && s'.inFlight[id] == s.inFlight[id])
            && (forall id :: id in s'.inFlight && id in ids && replies(id) == Some(true) ==>
                  Named(s.brokers, s.inFlight[id].broker).None?)
    decreases |ids|
  {
    if ids == [] {
    } else {
      var next := CancelOrder(s, ids[0], replies(ids[0]), now);
      CancelAllClears(next, ids[1..], replies, now);
      assert ids == [ids[0]] + ids[1..];
    }
  }

  /** After the kill switch: the engine is halted, an order it listed is still in flight only if
      its cancellation was not confirmed, and unless no broker is eligible there is one new call
      for each open position, offsetting it at the broker the router chooses.  The call goes to
      the broker that reported the position exactly when the router chooses that broker. */
  lemma FlattenOutcome(s: Engine, ids: seq<nat>, replies: nat -> Option<bool>, held: seq<HeldPosition>, now: int)
    requires Inv(s)
    ensures var s' := Execution.EmergencyFlatten(s, ids, replies, held, now);
            && s'.halted
            && (forall id :: id in s'.inFlight && id in s.inFlight && id in ids ==> replies(id) != Some(true))
            && |s.calls| <= |s'.calls| && s'.calls[..|s.calls|] == s.calls
            && AnswersAll(s'.calls[|s.calls|..], s.brokers, s.live, OpenOnly(held))
            && (forall i :: 0 <= i < |s'.calls| - |s.calls| ==>
                  var h := OpenOnly(held)[i];
                  s'.calls[|s.calls| + i].broker.name == h.holder
                  <==> SelectBroker(s.brokers, s.live, h.holding.symbol) == Some(h.holder))
  {
    hide SelectBroker, OpenOnly, CancelAll, CloseAll;
    var cleared := CancelAll(Halt(s), ids, replies, now);
    CancelAllClears(Halt(s), ids, replies, now);
    CloseAllAnswers(cleared, held);
    BookOf(s);
    var s' := CloseAll(cleared, held);
    forall i | 0 <= i < |s'.calls| - |s.calls|
      ensures Answers(s'.calls[|s.calls| + i], s.brokers, s.live, OpenOnly(held)[i].holding)
    {
      assert s'.calls[|s.calls| + i] == s'.calls[|s.calls|..][i];
    }
  }

  lemma {:induction false} OpenOnlyOneMore(held: seq<HeldPosition>, h: HeldPosition)
    ensures OpenOnly(held + [h]) == OpenOnly(held) + if h.holding.quantity == 0.0 then [] else [h]
    decreases |held|
  {
    if held == [] {
      assert held + [h] == [h] && [h][1..] == [];
    } else {
      assert (held + [h])[1..] == held[1..] + [h];
      OpenOnlyOneMore(held[1..], h);
    }
  }

  /** The line names the side that reduces the position, and all of it. */
  predicate Describes(line: Flattened, h: Holding) {
    && line.symbol == h.symbol
    && (h.quantity > 0.0 ==> line.side == "sell" && line.quantity == h.quantity)
    && (h.quantity < 0.0 ==> line.side == "buy" && line.quantity == -h.quantity)
  }

  lemma OneMoreLine(before: seq<HeldPosition>, h: HeldPosition)
    ensures FlattenedOf(before + [h])
            == FlattenedOf(before) + if h.holding.quantity == 0.0 then []
                                     else [Flattened(h.holding.symbol, FlattenRequest(h.holding).side, Abs(h.holding.quantity))]
    ensures Describes(Flattened(h.holding.symbol, FlattenRequest(h.holding).side, Abs(h.holding.quantity)), h.holding)
  {
    assert (before + [h])[..|before|] == before;
  }

  /** The report of a flatten has one line for each open position, in order. */
  lemma {:induction false} FlattenReportsThePositions(held: seq<HeldPosition>)
    ensures |FlattenedOf(held)| == |OpenOnly(held)|
    ensures forall i :: 0 <= i < |OpenOnly(held)| ==> Describes(FlattenedOf(held)[i], OpenOnly(held)[i].holding)
  {
    if held == [] {
    } else {
      var before, last := held[..|held| - 1], held[|held| - 1];
      assert held == before + [last];
      hide OpenOnly, FlattenedOf, Describes, FlattenRequest;
      FlattenReportsThePositions(before);
      OpenOnlyOneMore(before, last);
      OneMoreLine(before, last);
    }
  }

  /** It reports as cancelled the orders of the list that left flight with a confirmation. */
  lemma {:induction false} CancellationsAreAnnounced(s: Engine, ids: seq<nat>, replies: nat -> Option<bool>, now: int)
    ensures |CancelAll(s, ids, replies, now).events| == |s.events| + Cancellations(s, ids, replies, now)
    ensures |CancelAll(s, ids, replies, now).inFlight| + Cancellations(s, ids, replies, now) == |s.inFlight|
    decreases |ids|
  {
    if ids == [] {
    } else {
      var next := CancelOrder(s, ids[0], replies(ids[0]), now);
      CancellationsAreAnnounced(next, ids[1..], replies, now);
      if Confirmed(s, ids[0], replies(ids[0])) {
        assert next.inFlight.Keys == s.inFlight.Keys - {ids[0]};
        assert |next.inFlight.Keys| == |next.inFlight| && |s.inFlight.Keys| == |s.inFlight|;
      }
    }
  }

  /** The simulated broker: it serves every symbol and cannot place real-money orders. */
  const PAPER := Broker("paper", All, false)

  /** The simulated broker is always wired first, whatever real brokers follow in live mode, so
      every closing order goes to it wherever the position is held: nothing held at a real broker
      is closed there. */
  lemma FlattenTradesOnPaper(s: Engine, ids: seq<nat>, replies: nat -> Option<bool>, held: seq<HeldPosition>, now: int)
    requires Inv(s) && s.brokers != [] && s.brokers[0] == PAPER
    ensures var calls := Execution.EmergencyFlatten(s, ids, replies, held, now).calls;
            && |calls| == |s.calls| + |OpenOnly(held)|
            && forall i :: 0 <= i < |OpenOnly(held)| ==>
                 calls[|s.calls| + i].broker == PAPER && Offsets(calls[|s.calls| + i], OpenOnly(held)[i].holding)
  {
    hide Inv, SelectBroker, OpenOnly, Execution.EmergencyFlatten;
    FlattenOutcome(s, ids, replies, held, now);
    NamesOf(s);
    assert PAPER in s.brokers && Eligible(PAPER, s.live);
    forall symbol ensures SelectBroker(s.brokers, s.live, symbol) == Some(PAPER.name) {
      FirstServesAll(s.brokers, s.live, symbol);
    }
    var calls := Execution.EmergencyFlatten(s, ids, replies, held, now).calls;
    forall i | 0 <= i < |OpenOnly(held)|
      ensures calls[|s.calls| + i].broker == PAPER && Offsets(calls[|s.calls| + i], OpenOnly(held)[i].holding)
    {
      assert calls[|s.calls| + i] == calls[|s.calls|..][i];
      NamesTellApart(s.brokers, calls[|s.calls| + i].broker, PAPER);
    }
  }

  lemma NamesOf(s: Engine)
    requires Inv(s)
    ensures DistinctNames(s.brokers)
  {
  }

  lemma FirstServesAll(brokers: seq<Broker>, live: bool, symbol: string)
    requires DistinctNames(brokers) && brokers != [] && brokers[0] == PAPER
    ensures SelectBroker(brokers, live, symbol) == Some(PAPER.name)
  {
    assert brokers[0] in brokers && Eligible(brokers[0], live) && Serves(brokers[0], symbol);
    SelectsExactlyWhen(brokers, live, symbol, 0);
  }
}
