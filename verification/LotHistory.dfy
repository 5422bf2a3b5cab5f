/**
  The whole life of every lot of one symbol (`services/continuous_learning/service.py`): each lot
  is followed from the buy that opened it through every sale, expiry or displacement, and the
  books of the sales are reconciled with the books of the lots.
 */
module LotHistory {
  import opened Arithmetic
  import opened LotMatching

  /** A lot as it stands, as it was opened, and how much of it has been sold. */
  datatype Tracked = Tracked(lot: Lot, opening: Lot, matched: real)

  datatype Account = Account(matched: real, cost: real, charged: real)

  datatype History = History(open: seq<Tracked>, gone: seq<Tracked>, trades: seq<Trade>, proceeds: real)

  datatype Event = Event(fill: Fill, predictionId: string, now: int)

  function Lots(ts: seq<Tracked>): (r: seq<Lot>)
    ensures |r| == |ts| && forall i :: 0 <= i < |ts| ==> r[i] == ts[i].lot
  {
    seq(|ts|, i requires 0 <= i < |ts| => ts[i].lot)
  }

  function Charged(t: Tracked): real {
    t.opening.commission - t.lot.commission
  }

  /** A lot loses commission in proportion to the quantity it loses. */
  ghost predicate TrackedOk(t: Tracked) {
    && LotOk(t.opening)
    && t.lot.price == t.opening.price && t.lot.predictionId == t.opening.predictionId && t.lot.ts == t.opening.ts
    && t.lot.exploration == t.opening.exploration
    && 0.0 <= t.matched <= t.opening.quantity
    && t.lot.quantity == t.opening.quantity - t.matched
    && t.lot.commission * t.opening.quantity == t.opening.commission * t.lot.quantity
  }

  ghost predicate AllOk(ts: seq<Tracked>) {
    forall i :: 0 <= i < |ts| ==> TrackedOk(ts[i])
  }

  // ---------------------------------------------------------------- one sale, lot by lot

  function Touched(t: Tracked, trade: Trade): Tracked {
    Tracked(Shrunk(t.lot, trade), t.opening, t.matched + trade.matched)
  }

  datatype Sale = Sale(open: seq<Tracked>, gone: seq<Tracked>, trades: seq<Trade>)

  function Sell(f: Fill, open: seq<Tracked>, remaining: real): Sale
    requires LotsOk(Lots(open)) && Usable(f)
    decreases |open|
  {
    if remaining <= DUST || open == [] then Sale(open, [], [])
    else
      assert Lots(open)[0] == open[0].lot && Lots(open[1..]) == Lots(open)[1..];
      var trade := Close(f, open[0].lot, Min(remaining, open[0].lot.quantity));
      var t := Touched(open[0], trade);
      if t.lot.quantity <= DUST then
        var r := Sell(f, open[1..], remaining - trade.matched);
        Sale(r.open, [t] + r.gone, [trade] + r.trades)
      else
        Sale([t] + open[1..], [], [trade])
  }

  lemma {:induction false} SellIsMatch(f: Fill, open: seq<Tracked>, remaining: real)
    requires LotsOk(Lots(open)) && Usable(f)
    ensures var r, m := Sell(f, open, remaining), Match(f, Lots(open), remaining);
            Lots(r.open) == m.lots && r.trades == m.trades && |r.open| + |r.gone| == |open|
    decreases |open|
  {
    hide Close;
    if remaining > DUST && open != [] {
      assert Lots(open)[0] == open[0].lot && Lots(open[1..]) == Lots(open)[1..];
      var trade := Close(f, open[0].lot, Min(remaining, open[0].lot.quantity));
      SellIsMatch(f, open[1..], remaining - trade.matched);
      var t := Touched(open[0], trade);
      assert Lots([t] + open[1..]) == [t.lot] + Lots(open[1..]);
    }
  }

  lemma TouchedOk(f: Fill, t: Tracked, remaining: real)
    requires Usable(f) && TrackedOk(t) && LotOk(t.lot) && remaining > 0.0
    ensures TrackedOk(Touched(t, Close(f, t.lot, Min(remaining, t.lot.quantity))))
  {
    var m := Min(remaining, t.lot.quantity);
  }

  lemma {:induction false} SellKeepsOk(f: Fill, open: seq<Tracked>, remaining: real)
    requires LotsOk(Lots(open)) && Usable(f) && AllOk(open)
    ensures AllOk(Sell(f, open, remaining).open) && AllOk(Sell(f, open, remaining).gone)
    ensures forall i :: 0 <= i < |Sell(f, open, remaining).gone| ==>
              0.0 <= Sell(f, open, remaining).gone[i].lot.quantity <= DUST
    decreases |open|
  {
    hide Close, TrackedOk;
    if remaining > DUST && open != [] {
      assert Lots(open)[0] == open[0].lot && Lots(open[1..]) == Lots(open)[1..];
      TouchedOk(f, open[0], remaining);
      var trade := Close(f, open[0].lot, Min(remaining, open[0].lot.quantity));
      ClosedAs(f, open[0].lot, Min(remaining, open[0].lot.quantity));
      var t := Touched(open[0], trade);
      if t.lot.quantity <= DUST {
        SellKeepsOk(f, open[1..], remaining - trade.matched);
      }
    }
  }

  // ---------------------------------------------------------------- accounts

  function Plus(a: Account, b: Account): Account {
    Account(a.matched + b.matched, a.cost + b.cost, a.charged + b.charged)
  }

  /** What the trades say was sold, what it had cost and which opening commissions it carried. */
  function TradeAccount(ts: seq<Trade>): Account {
    Account(Matched(ts), Cost(ts), EntryCommissions(ts))
  }

  /** What the lots say about the same three amounts. */
  function LotAccount(ts: seq<Tracked>): Account {
    if ts == [] then Account(0.0, 0.0, 0.0)
    else Plus(One(ts[0]), LotAccount(ts[1..]))
  }

  function One(t: Tracked): Account {
    Account(t.matched, t.opening.price * t.matched, Charged(t))
  }

  lemma {:induction false} LotAccountOfSum(a: seq<Tracked>, b: seq<Tracked>)
    ensures LotAccount(a + b) == Plus(LotAccount(a), LotAccount(b))
  {
    if a == [] {
      assert a + b == b;
    } else {
      assert (a + b)[1..] == a[1..] + b;
      LotAccountOfSum(a[1..], b);
    }
  }

  lemma {:induction false} TradeAccountOfSum(a: seq<Trade>, b: seq<Trade>)
    ensures TradeAccount(a + b) == Plus(TradeAccount(a), TradeAccount(b))
    ensures Pnl(a + b) == Pnl(a) + Pnl(b)
  {
    if a == [] {
      assert a + b == b;
    } else {
      assert (a + b)[1..] == a[1..] + b;
      TradeAccountOfSum(a[1..], b);
    }
  }

  lemma OneTrade(trade: Trade)
    ensures TradeAccount([trade]) == Account(trade.matched, trade.entryPrice * trade.matched, trade.entryCommission)
  {
    assert [trade][1..] == [];
    assert Matched([trade]) == trade.matched + Matched([]);
    assert Cost([trade]) == trade.entryPrice * trade.matched + Cost([]);
    assert EntryCommissions([trade]) == trade.entryCommission + EntryCommissions([]);
  }

  lemma TouchedAccount(f: Fill, t: Tracked, remaining: real)
    requires Usable(f) && TrackedOk(t) && LotOk(t.lot)
    ensures var trade := Close(f, t.lot, Min(remaining, t.lot.quantity));
            One(Touched(t, trade)) == Plus(One(t), TradeAccount([trade]))
  {
    hide ProRata;
    var trade := Close(f, t.lot, Min(remaining, t.lot.quantity));
    OneTrade(trade);
    assert t.opening.price * (t.matched + trade.matched) == t.opening.price * t.matched + t.opening.price * trade.matched;
  }

  /** A sale moves exactly what its trades record from the lots' books. */
  lemma {:induction false} SellAccounts(f: Fill, open: seq<Tracked>, remaining: real)
    requires LotsOk(Lots(open)) && Usable(f) && AllOk(open)
    ensures var r := Sell(f, open, remaining);
            Plus(LotAccount(r.open), LotAccount(r.gone)) == Plus(LotAccount(open), TradeAccount(r.trades))
    decreases |open|
  {
    hide Close, TrackedOk, TradeAccount, One, LotAccount;
    NoTrades();
    if remaining > DUST && open != [] {
      assert Lots(open)[0] == open[0].lot && Lots(open[1..]) == Lots(open)[1..];
      TouchedAccount(f, open[0], remaining);
      var trade := Close(f, open[0].lot, Min(remaining, open[0].lot.quantity));
      var t := Touched(open[0], trade);
      assert open == [open[0]] + open[1..];
      LotAccountOfCons(open[0], open[1..]);
      if t.lot.quantity <= DUST {
        var r := Sell(f, open[1..], remaining - trade.matched);
        SellAccounts(f, open[1..], remaining - trade.matched);
        TradeAccountOfSum([trade], r.trades);
        LotAccountOfCons(t, r.gone);
      } else {
        LotAccountOfCons(t, open[1..]);
      }
    }
  }

  lemma NoTrades()
    ensures TradeAccount([]) == Account(0.0, 0.0, 0.0) && LotAccount([]) == Account(0.0, 0.0, 0.0)
  {
  }

  // ---------------------------------------------------------------- histories

  function Alive(ts: seq<Tracked>, now: int): seq<Tracked> {
    if ts == [] then []
    else (if now - ts[0].lot.ts <= LOT_MAX_AGE then [ts[0]] else []) + Alive(ts[1..], now)
  }

  function Expired(ts: seq<Tracked>, now: int): seq<Tracked> {
    if ts == [] then []
    else (if now - ts[0].lot.ts <= LOT_MAX_AGE then [] else [ts[0]]) + Expired(ts[1..], now)
  }

  lemma {:induction false} AgeingIsFresh(ts: seq<Tracked>, now: int)
    ensures Lots(Alive(ts, now)) == Fresh(Lots(ts), now)
    ensures |Alive(ts, now)| + |Expired(ts, now)| == |ts|
  {
    if ts == [] {
    } else {
      var a, young := Alive(ts[1..], now), now - ts[0].lot.ts <= LOT_MAX_AGE;
      AgeingIsFresh(ts[1..], now);
      LotsOfCons(ts[0], ts[1..]);
      LotsOfCons(ts[0], a);
      FreshOfCons(ts[0].lot, Lots(ts[1..]), now);
      assert [ts[0]] + ts[1..] == ts;
      hide Lots, Fresh;
      assert Alive(ts, now) == if young then [ts[0]] + a else a;
    }
  }

  lemma LotsOfCons(t: Tracked, ts: seq<Tracked>)
    ensures Lots([t] + ts) == [t.lot] + Lots(ts)
  {
  }

  lemma FreshOfCons(lot: Lot, lots: seq<Lot>, now: int)
    ensures Fresh([lot] + lots, now) == if now - lot.ts <= LOT_MAX_AGE then [lot] + Fresh(lots, now) else Fresh(lots, now)
  {
    assert ([lot] + lots)[1..] == lots;
    assert [] + Fresh(lots, now) == Fresh(lots, now);
  }

  lemma {:induction false} AgeingKeepsOk(ts: seq<Tracked>, now: int)
    requires AllOk(ts)
    ensures AllOk(Alive(ts, now)) && AllOk(Expired(ts, now))
  {
    hide TrackedOk;
    if ts == [] {
    } else {
      AgeingKeepsOk(ts[1..], now);
    }
  }

  lemma {:induction false} AgeingKeepsAccount(ts: seq<Tracked>, now: int)
    ensures Plus(LotAccount(Alive(ts, now)), LotAccount(Expired(ts, now))) == LotAccount(ts)
  {
    hide One, LotAccount;
    NoTrades();
    if ts == [] {
    } else {
      AgeingKeepsAccount(ts[1..], now);
      var a, e := Alive(ts[1..], now), Expired(ts[1..], now);
      LotAccountOfCons(ts[0], a);
      LotAccountOfCons(ts[0], e);
      LotAccountOfCons(ts[0], ts[1..]);
      assert [ts[0]] + ts[1..] == ts;
      assert [] + a == a && [] + e == e;
    }
  }

  lemma LotAccountOfCons(t: Tracked, ts: seq<Tracked>)
    ensures LotAccount([t] + ts) == Plus(One(t), LotAccount(ts))
  {
    assert ([t] + ts)[1..] == ts;
  }

  lemma AgeingSplits(ts: seq<Tracked>, now: int)
    requires AllOk(ts) && LotsOk(Lots(ts))
    ensures Lots(Alive(ts, now)) == Fresh(Lots(ts), now) && LotsOk(Lots(Alive(ts, now)))
    ensures AllOk(Alive(ts, now)) && AllOk(Expired(ts, now))
    ensures |Alive(ts, now)| + |Expired(ts, now)| == |ts|
    ensures Plus(LotAccount(Alive(ts, now)), LotAccount(Expired(ts, now))) == LotAccount(ts)
  {
    hide *;
    AgeingIsFresh(ts, now);
    AgeingKeepsOk(ts, now);
    AgeingKeepsAccount(ts, now);
  }

  function Displaced(ts: seq<Tracked>): seq<Tracked> {
    if |ts| <= MAX_OPEN_LOTS_PER_SYMBOL then [] else ts[..|ts| - MAX_OPEN_LOTS_PER_SYMBOL]
  }

  function Held(ts: seq<Tracked>): seq<Tracked> {
    ts[|Displaced(ts)|..]
  }

  lemma DisplacementSplits(ts: seq<Tracked>)
    requires AllOk(ts) && LotsOk(Lots(ts))
    ensures Lots(Held(ts)) == Newest(Lots(ts)) && LotsOk(Lots(Held(ts)))
    ensures AllOk(Held(ts)) && AllOk(Displaced(ts)) && |Held(ts)| + |Displaced(ts)| == |ts|
    ensures Plus(LotAccount(Held(ts)), LotAccount(Displaced(ts))) == LotAccount(ts)
  {
    hide TrackedOk, LotOk, LotAccount, Lots;
    assert ts == Displaced(ts) + Held(ts);
    LotAccountOfSum(Displaced(ts), Held(ts));
  }

  function Proceeds(f: Fill, trades: seq<Trade>): real
    requires Usable(f)
  {
    f.price * Matched(trades) - ProRata(f.commission, Matched(trades), f.quantity)
  }

  function Apply(h: History, e: Event): History
    requires AllOk(h.open) && LotsOk(Lots(h.open))
  {
    if !Usable(e.fill) then h
    else
      AgeingSplits(h.open, e.now);
      var alive := Alive(h.open, e.now);
      var gone := h.gone + Expired(h.open, e.now);
      match e.fill.side
      case Buy =>
        var lot := Opened(e.fill, e.predictionId, e.now);
        var all := alive + [Tracked(lot, lot, 0.0)];
        History(Held(all), gone + Displaced(all), h.trades, h.proceeds)
      case Sell =>
        var r := Sell(e.fill, alive, e.fill.quantity);
        History(r.open, gone + r.gone, h.trades + r.trades, h.proceeds + Proceeds(e.fill, r.trades))
      case OtherSide => History(alive, gone, h.trades, h.proceeds)
  }

  /** Every lot is in order, and the lots' books agree with the trades' books and with the
      profit booked. */
  ghost predicate Reconciled(h: History, lotsOpened: nat) {
    && AllOk(h.open) && AllOk(h.gone) && LotsOk(Lots(h.open))
    && |h.open| + |h.gone| == lotsOpened
    && Plus(LotAccount(h.open), LotAccount(h.gone)) == TradeAccount(h.trades)
    && Pnl(h.trades) == h.proceeds - TradeAccount(h.trades).cost - TradeAccount(h.trades).charged
  }

  function Opening(e: Event): nat {
    if Usable(e.fill) && e.fill.side.Buy? then 1 else 0
  }

  lemma NewLotOk(f: Fill, predictionId: string, now: int)
    requires Usable(f)
    ensures var lot := Opened(f, predictionId, now);
            && TrackedOk(Tracked(lot, lot, 0.0)) && LotOk(lot)
            && LotAccount([Tracked(lot, lot, 0.0)]) == Account(0.0, 0.0, 0.0)
  {
    var lot := Opened(f, predictionId, now);
    assert [Tracked(lot, lot, 0.0)][1..] == [];
  }

  lemma BuyKeepsBooks(h: History, e: Event, lotsOpened: nat)
    requires Reconciled(h, lotsOpened) && Usable(e.fill) && e.fill.side.Buy?
    ensures Reconciled(Apply(h, e), lotsOpened + 1)
    ensures Lots(Apply(h, e).open) == Step(Lots(h.open), e.fill, e.predictionId, e.now).0
  {
    hide TrackedOk, LotOk, Alive, Expired, Fresh, Newest, Held, Displaced, LotAccount, TradeAccount, Opened;
    AgeingSplits(h.open, e.now);
    var lot := Opened(e.fill, e.predictionId, e.now);
    NewLotOk(e.fill, e.predictionId, e.now);
    var alive, t := Alive(h.open, e.now), Tracked(lot, lot, 0.0);
    var all := alive + [t];
    LotAccountOfSum(alive, [t]);
    assert Lots(all) == Lots(alive) + [lot];
    DisplacementSplits(all);
    LotAccountOfSum(h.gone, Expired(h.open, e.now));
    LotAccountOfSum(h.gone + Expired(h.open, e.now), Displaced(all));
  }

  lemma SaleKeepsBooks(h: History, e: Event, lotsOpened: nat)
    requires Reconciled(h, lotsOpened) && Usable(e.fill) && e.fill.side.Sell?
    ensures Reconciled(Apply(h, e), lotsOpened)
    ensures Lots(Apply(h, e).open) == Step(Lots(h.open), e.fill, e.predictionId, e.now).0
    ensures Apply(h, e).trades == h.trades + Step(Lots(h.open), e.fill, e.predictionId, e.now).1
  {
    hide TrackedOk, LotOk, Alive, Expired, Fresh, LotAccount, Sell, Match, ProRata;
    AgeingSplits(h.open, e.now);
    var alive := Alive(h.open, e.now);
    var r := Sell(e.fill, alive, e.fill.quantity);
    SellIsMatch(e.fill, alive, e.fill.quantity);
    SellKeepsOk(e.fill, alive, e.fill.quantity);
    SellAccounts(e.fill, alive, e.fill.quantity);
    SaleProfit(e.fill, Lots(alive), e.fill.quantity);
    TradeAccountOfSum(h.trades, r.trades);
    LotAccountOfSum(h.gone, Expired(h.open, e.now));
    LotAccountOfSum(h.gone + Expired(h.open, e.now), r.gone);
  }

  lemma OtherKeepsBooks(h: History, e: Event, lotsOpened: nat)
    requires Reconciled(h, lotsOpened) && Usable(e.fill) && e.fill.side.OtherSide?
    ensures Reconciled(Apply(h, e), lotsOpened)
    ensures Lots(Apply(h, e).open) == Step(Lots(h.open), e.fill, e.predictionId, e.now).0
  {
    hide TrackedOk, LotOk, Alive, Expired, Fresh, LotAccount, TradeAccount;
    AgeingSplits(h.open, e.now);
    LotAccountOfSum(h.gone, Expired(h.open, e.now));
  }

  // ---------------------------------------------------------------- runs

  ghost function Run(es: seq<Event>): (h: History)
    ensures AllOk(h.open) && LotsOk(Lots(h.open))
  {
    if es == [] then History([], [], [], 0.0)
    else
      var h := Run(es[..|es| - 1]);
      StepKeepsForm(h, es[|es| - 1]);
      Apply(h, es[|es| - 1])
  }

  lemma StepKeepsForm(h: History, e: Event)
    requires AllOk(h.open) && LotsOk(Lots(h.open))
    ensures AllOk(Apply(h, e).open) && LotsOk(Lots(Apply(h, e).open))
  {
    if Usable(e.fill) {
      hide TrackedOk, LotOk, Alive, Expired, Fresh, LotAccount, Sell, Match, Held, Displaced, Opened;
      AgeingSplits(h.open, e.now);
      var alive := Alive(h.open, e.now);
      match e.fill.side
      case Buy =>
        NewLotOk(e.fill, e.predictionId, e.now);
        var lot := Opened(e.fill, e.predictionId, e.now);
        assert Lots(alive + [Tracked(lot, lot, 0.0)]) == Lots(alive) + [lot];
        DisplacementSplits(alive + [Tracked(lot, lot, 0.0)]);
      case Sell =>
        SellIsMatch(e.fill, alive, e.fill.quantity);
        SellKeepsOk(e.fill, alive, e.fill.quantity);
      case OtherSide =>
    }
  }

  function LotsAfter(es: seq<Event>): (r: (seq<Lot>, seq<Trade>))
    ensures LotsOk(r.0)
  {
    if es == [] then ([], [])
    else
      var before := LotsAfter(es[..|es| - 1]);
      var e := es[|es| - 1];
      var r := Step(before.0, e.fill, e.predictionId, e.now);
      (r.0, before.1 + r.1)
  }

  function OpenedBy(es: seq<Event>): nat {
    if es == [] then 0 else OpenedBy(es[..|es| - 1]) + Opening(es[|es| - 1])
  }

  /** One event, whatever it is, keeps the books reconciled and does to the lots what the
      service does. */
  lemma EventReconciles(h: History, e: Event, lotsOpened: nat)
    requires Reconciled(h, lotsOpened)
    ensures Reconciled(Apply(h, e), lotsOpened + Opening(e))
    ensures var r := Step(Lots(h.open), e.fill, e.predictionId, e.now);
            Lots(Apply(h, e).open) == r.0 && Apply(h, e).trades == h.trades + r.1
  {
    FormOf(h, lotsOpened);
    assert h.trades + [] == h.trades;
    hide Reconciled, AllOk, LotsOk, Alive, Expired, Fresh, Newest, Held, Displaced, Sell, Match, LotAccount, TradeAccount, Opened;
    if Usable(e.fill) {
      match e.fill.side
      case Buy => BuyKeepsBooks(h, e, lotsOpened);
      case Sell =>
        hide Step, Apply;
        SaleKeepsBooks(h, e, lotsOpened);
      case OtherSide => OtherKeepsBooks(h, e, lotsOpened);
    }
  }

  lemma FormOf(h: History, lotsOpened: nat)
    requires Reconciled(h, lotsOpened)
    ensures AllOk(h.open) && LotsOk(Lots(h.open))
  {
  }

  /** Over any run of fills: the history's lots and trades are the service's own, every lot ever
      opened is either open or gone, and lots, trades and booked profit reconcile exactly. */
  lemma {:induction false} RunReconciles(es: seq<Event>)
    ensures Reconciled(Run(es), OpenedBy(es))
    ensures Lots(Run(es).open) == LotsAfter(es).0 && Run(es).trades == LotsAfter(es).1
  {
    hide *;
    if es == [] {
      NothingReconciles();
    } else {
      RunReconciles(es[..|es| - 1]);
      OneMoreEvent(es);
      EventReconciles(Run(es[..|es| - 1]), es[|es| - 1], OpenedBy(es[..|es| - 1]));
    }
  }

  lemma NothingReconciles()
    ensures Reconciled(Run([]), OpenedBy([])) && Lots(Run([]).open) == LotsAfter([]).0 && Run([]).trades == LotsAfter([]).1
  {
    hide Apply, Step, Reconciled;
    assert Run([]) == History([], [], [], 0.0) && LotsAfter([]) == ([], []) && OpenedBy([]) == 0;
    NewHistoryReconciles();
  }

  lemma NewHistoryReconciles()
    ensures Reconciled(History([], [], [], 0.0), 0)
  {
    hide TrackedOk, LotOk, LotAccount, TradeAccount;
    NoTrades();
  }

  lemma OneMoreEvent(es: seq<Event>)
    requires es != []
    ensures var before, e := es[..|es| - 1], es[|es| - 1];
            && Run(es) == Apply(Run(before), e)
            && OpenedBy(es) == OpenedBy(before) + Opening(e)
            && var r := Step(LotsAfter(before).0, e.fill, e.predictionId, e.now);
               LotsAfter(es) == (r.0, LotsAfter(before).1 + r.1)
  {
    hide Apply, Step;
  }

  /** Over however many sales a lot was sold, it has been charged its opening commission in
      proportion to what was sold, and exactly all of it once all of it is sold. */
  lemma LotsAreChargedProRata(es: seq<Event>, t: Tracked)
    requires t in Run(es).open || t in Run(es).gone
    ensures TrackedOk(t)
    ensures 0.0 <= t.matched <= t.opening.quantity
    ensures Charged(t) == ProRata(t.opening.commission, t.matched, t.opening.quantity)
    ensures t.matched == t.opening.quantity ==> Charged(t) == t.opening.commission
  {
    RunReconciles(es);
    assert TrackedOk(t);
    ChargedProRata(t);
  }

  lemma ChargedProRata(t: Tracked)
    requires TrackedOk(t)
    ensures Charged(t) == ProRata(t.opening.commission, t.matched, t.opening.quantity)
    ensures t.matched == t.opening.quantity ==> Charged(t) == t.opening.commission
  {
    assert Charged(t) == t.opening.commission - t.lot.commission;
    var c, c0, q0 := t.lot.commission, t.opening.commission, t.opening.quantity;
    assert c * q0 == c0 * t.lot.quantity && t.lot.quantity == q0 - t.matched && q0 > 0.0;
    hide *;
    WhatIsLeft(c, c0, t.lot.quantity, q0, t.matched);
    ShareOfWhole(c0, t.matched, q0);
    Cancel(c0 - c, ProRata(c0, t.matched, q0), q0);
    if t.matched == q0 {
      WholeShare(c0, q0);
    }
  }

  lemma WhatIsLeft(c: real, c0: real, q: real, q0: real, matched: real)
    requires c * q0 == c0 * q && q == q0 - matched
    ensures (c0 - c) * q0 == c0 * matched
  {
    assert (c0 - c) * q0 == c0 * q0 - c * q0;
    assert c0 * (q0 - matched) == c0 * q0 - c0 * matched;
  }

  lemma Cancel(x: real, y: real, z: real)
    requires x * z == y * z && z != 0.0
    ensures x == y
  {
    assert (x - y) * z == 0.0;
  }

  /** Total profit over a run is the sales' proceeds less the cost and the opening commissions
      of exactly what the lots gave up. */
  lemma ProfitOfARun(es: seq<Event>)
    ensures var h := Run(es);
            var books := Plus(LotAccount(h.open), LotAccount(h.gone));
            && Pnl(LotsAfter(es).1) == h.proceeds - books.cost - books.charged
            && Matched(LotsAfter(es).1) == books.matched
  {
    RunReconciles(es);
  }

  // ---------------------------------------------------------------- where lots and trades come from

  /** The lot is what this event bought: its quantity, price and commission, for the prediction
      that was newest for the symbol. */
  predicate Buys(e: Event, lot: Lot) {
    && Usable(e.fill) && e.fill.side.Buy?
    && lot.quantity == e.fill.quantity && lot.price == e.fill.price && lot.commission == e.fill.commission
    && lot.predictionId == e.predictionId && lot.exploration == e.fill.exploration && lot.ts == e.now
  }

  ghost predicate Bought(es: seq<Event>, lot: Lot) {
    exists j :: 0 <= j < |es| && Buys(es[j], lot)
  }

  ghost predicate AllBought(es: seq<Event>, ts: seq<Tracked>) {
    forall i :: 0 <= i < |ts| ==> Bought(es, ts[i].opening)
  }

  /** The trade sells, at the sale's price and with the return from the buy's to it, part of what
      the earlier event bought, for the prediction that was newest then. */
  predicate RoundTrip(t: Trade, buy: Event, sale: Event) {
    && Usable(buy.fill) && buy.fill.side.Buy? && Usable(sale.fill) && sale.fill.side.Sell?
    && t.entryPrice == buy.fill.price && t.predictionId == buy.predictionId
    && t.entryPrice * (1.0 + t.realisedReturn) == sale.fill.price
    && t.realisedReturn * t.entryPrice * t.matched == t.pnl + t.exitCommission + t.entryCommission
    && (t.exploration <==> buy.fill.exploration || sale.fill.exploration)
    && 0.0 < t.matched <= buy.fill.quantity && t.matched <= sale.fill.quantity + DUST
    && t.exitCommission * sale.fill.quantity == sale.fill.commission * t.matched
  }

  ghost predicate IsRoundTrip(es: seq<Event>, t: Trade) {
    exists j, k :: 0 <= j < k < |es| && RoundTrip(t, es[j], es[k])
  }

  lemma {:induction false} AgeingKeepsBought(es: seq<Event>, ts: seq<Tracked>, now: int)
    requires AllBought(es, ts)
    ensures AllBought(es, Alive(ts, now)) && AllBought(es, Expired(ts, now))
  {
    hide Bought;
    if ts == [] {
    } else {
      AgeingKeepsBought(es, ts[1..], now);
    }
  }

  lemma {:induction false} SaleTrips(es: seq<Event>, e: Event, open: seq<Tracked>, remaining: real)
    requires Usable(e.fill) && e.fill.side.Sell? && LotsOk(Lots(open)) && AllOk(open) && AllBought(es, open)
    requires remaining <= e.fill.quantity
    ensures var r := Sell(e.fill, open, remaining);
            && AllBought(es, r.open) && AllBought(es, r.gone)
            && forall i :: 0 <= i < |r.trades| ==> IsRoundTrip(es + [e], r.trades[i])
    decreases |open|
  {
    hide Close, TrackedOk, Bought, IsRoundTrip;
    if remaining > DUST && open != [] {
      assert Lots(open)[0] == open[0].lot && Lots(open[1..]) == Lots(open)[1..];
      var trade := Close(e.fill, open[0].lot, Min(remaining, open[0].lot.quantity));
      TouchedOk(e.fill, open[0], remaining);
      ClosedAs(e.fill, open[0].lot, Min(remaining, open[0].lot.quantity));
      TradeTrips(es, e, open[0], remaining);
      var t := Touched(open[0], trade);
      if t.lot.quantity <= DUST {
        SaleTrips(es, e, open[1..], remaining - trade.matched);
      }
    }
  }

  lemma TradeTrips(es: seq<Event>, e: Event, t: Tracked, remaining: real)
    requires Usable(e.fill) && e.fill.side.Sell? && LotOk(t.lot) && TrackedOk(t) && Bought(es, t.opening)
    requires DUST < remaining <= e.fill.quantity
    ensures IsRoundTrip(es + [e], Close(e.fill, t.lot, Min(remaining, t.lot.quantity)))
  {
    var trade := Close(e.fill, t.lot, Min(remaining, t.lot.quantity));
    CloseIsFair(e.fill, t.lot, Min(remaining, t.lot.quantity));
    ClosedAs(e.fill, t.lot, Min(remaining, t.lot.quantity));
    assert trade.predictionId == t.lot.predictionId;
    hide Close, ProRata;
    var j :| 0 <= j < |es| && Buys(es[j], t.opening);
    assert (es + [e])[j] == es[j] && (es + [e])[|es|] == e;
    assert RoundTrip(trade, es[j], e);
  }

  lemma MoreEventsKeepBought(es: seq<Event>, e: Event, ts: seq<Tracked>)
    requires AllBought(es, ts)
    ensures AllBought(es + [e], ts)
  {
    hide Buys;
    forall i | 0 <= i < |ts| ensures Bought(es + [e], ts[i].opening) {
      assert Bought(es, ts[i].opening);
      var j :| 0 <= j < |es| && Buys(es[j], ts[i].opening);
      assert (es + [e])[j] == es[j];
    }
  }

  lemma MoreEventsKeepTrips(es: seq<Event>, e: Event, t: Trade)
    requires IsRoundTrip(es, t)
    ensures IsRoundTrip(es + [e], t)
  {
    hide RoundTrip;
    var j, k :| 0 <= j < k < |es| && RoundTrip(t, es[j], es[k]);
    assert (es + [e])[j] == es[j] && (es + [e])[k] == es[k];
  }

  lemma BuyIsBought(es: seq<Event>, e: Event)
    requires Usable(e.fill) && e.fill.side.Buy?
    ensures Bought(es + [e], Opened(e.fill, e.predictionId, e.now))
  {
    assert (es + [e])[|es|] == e;
  }

  ghost predicate Traced(es: seq<Event>, h: History) {
    && AllBought(es, h.open) && AllBought(es, h.gone)
    && forall i :: 0 <= i < |h.trades| ==> IsRoundTrip(es, h.trades[i])
  }

  lemma BuyIsTraced(es: seq<Event>, h: History, e: Event)
    requires AllOk(h.open) && LotsOk(Lots(h.open)) && Traced(es + [e], h) && Usable(e.fill) && e.fill.side.Buy?
    ensures Traced(es + [e], Apply(h, e))
  {
    hide Bought, IsRoundTrip, TrackedOk, LotOk, Opened, Alive, Expired, AllOk, LotsOk, AllBought, LotAccount, Plus, One, Lots, Held, Displaced;
    AgeingSplits(h.open, e.now);
    AgeingKeepsBought(es + [e], h.open, e.now);
    BuyIsBought(es, e);
    var lot := Opened(e.fill, e.predictionId, e.now);
    OneIsBought(es + [e], Tracked(lot, lot, 0.0));
    var all := Alive(h.open, e.now) + [Tracked(lot, lot, 0.0)];
    SumIsBought(es + [e], Alive(h.open, e.now), [Tracked(lot, lot, 0.0)]);
    PartsAreBought(es + [e], all);
    SumIsBought(es + [e], h.gone, Expired(h.open, e.now));
    SumIsBought(es + [e], h.gone + Expired(h.open, e.now), Displaced(all));
  }

  lemma OneIsBought(es: seq<Event>, t: Tracked)
    requires Bought(es, t.opening)
    ensures AllBought(es, [t])
  {
  }

  lemma PartsAreBought(es: seq<Event>, ts: seq<Tracked>)
    requires AllBought(es, ts)
    ensures AllBought(es, Held(ts)) && AllBought(es, Displaced(ts))
  {
    hide Bought;
  }

  lemma SaleIsTraced(es: seq<Event>, h: History, e: Event)
    requires AllOk(h.open) && LotsOk(Lots(h.open)) && Traced(es, h) && Traced(es + [e], h) && Usable(e.fill) && e.fill.side.Sell?
    ensures Traced(es + [e], Apply(h, e))
  {
    hide Bought, IsRoundTrip, TrackedOk, LotOk, Alive, Expired, Sell, ProRata, AllOk, LotsOk, AllBought, LotAccount, Plus, One, Lots;
    AgeingSplits(h.open, e.now);
    AgeingKeepsBought(es, h.open, e.now);
    AgeingKeepsBought(es + [e], h.open, e.now);
    var r := Sell(e.fill, Alive(h.open, e.now), e.fill.quantity);
    SaleTrips(es, e, Alive(h.open, e.now), e.fill.quantity);
    MoreEventsKeepBought(es, e, r.open);
    MoreEventsKeepBought(es, e, r.gone);
    SumIsBought(es + [e], h.gone, Expired(h.open, e.now));
    SumIsBought(es + [e], h.gone + Expired(h.open, e.now), r.gone);
  }

  lemma OtherIsTraced(es: seq<Event>, h: History, e: Event)
    requires AllOk(h.open) && LotsOk(Lots(h.open)) && Traced(es, h) && Usable(e.fill) && e.fill.side.OtherSide?
    ensures Traced(es, Apply(h, e))
  {
    hide Bought, IsRoundTrip, TrackedOk, LotOk, Alive, Expired, AllOk, LotsOk, AllBought, LotAccount, Plus, One, Lots;
    AgeingSplits(h.open, e.now);
    AgeingKeepsBought(es, h.open, e.now);
    SumIsBought(es, h.gone, Expired(h.open, e.now));
  }

  lemma EventIsTraced(es: seq<Event>, h: History, e: Event)
    requires AllOk(h.open) && LotsOk(Lots(h.open)) && Traced(es, h)
    ensures Traced(es + [e], Apply(h, e))
  {
    StillTraced(es, e, h);
    hide Traced, AllOk, LotsOk;
    if Usable(e.fill) {
      match e.fill.side
      case Buy =>
        hide Apply;
        BuyIsTraced(es, h, e);
      case Sell =>
        hide Apply;
        SaleIsTraced(es, h, e);
      case OtherSide =>
        hide Apply;
        OtherIsTraced(es + [e], h, e);
    }
  }

  lemma SumIsBought(es: seq<Event>, a: seq<Tracked>, b: seq<Tracked>)
    requires AllBought(es, a) && AllBought(es, b)
    ensures AllBought(es, a + b)
  {
    hide Bought;
  }

  lemma StillTraced(es: seq<Event>, e: Event, h: History)
    requires Traced(es, h)
    ensures Traced(es + [e], h)
  {
    hide Bought, IsRoundTrip;
    MoreEventsKeepBought(es, e, h.open);
    MoreEventsKeepBought(es, e, h.gone);
    forall i | 0 <= i < |h.trades| ensures IsRoundTrip(es + [e], h.trades[i]) {
      MoreEventsKeepTrips(es, e, h.trades[i]);
    }
  }

  /** Over any run of fills, every lot was opened by a buy with that buy's terms, and every trade
      the service books is a round trip between one of those buys and a later sale. */
  lemma {:induction false} EveryTradeIsARoundTrip(es: seq<Event>)
    ensures Traced(es, Run(es))
    ensures forall i :: 0 <= i < |LotsAfter(es).1| ==> IsRoundTrip(es, LotsAfter(es).1[i])
  {
    RunReconciles(es);
    hide Apply, Traced, Reconciled, AllOk, LotsOk, LotsAfter, Step;
    if es == [] {
      NothingIsTraced();
    } else {
      var before, last := es[..|es| - 1], es[|es| - 1];
      EveryTradeIsARoundTrip(before);
      assert es == before + [last];
      EventIsTraced(before, Run(before), last);
    }
    TradesOfTraced(es, Run(es));
  }

  lemma NothingIsTraced()
    ensures Traced([], History([], [], [], 0.0))
  {
  }

  lemma TradesOfTraced(es: seq<Event>, h: History)
    requires Traced(es, h)
    ensures forall i :: 0 <= i < |h.trades| ==> IsRoundTrip(es, h.trades[i])
  {
  }
}
