/**
  The backtest engine's ledger: cash, open positions in the order they were opened, closed
  trades and the equity history, and what one fill, one signal and one step do to them.
 */
module Backtest {
  import opened Arithmetic
  import opened Wrappers
  import opened Simulator

  datatype Signal = Signal(symbol: string, side: Side, orderType: OrderType, quantity: real,
                           limitPrice: Option<real>, stopPrice: Option<real>)

  datatype OpenPosition = OpenPosition(id: nat, symbol: string, side: Side, quantity: real, entryPrice: real, entryIdx: nat)

  datatype ClosedTrade = ClosedTrade(symbol: string, side: Side, entryPrice: real, exitPrice: real, quantity: real,
                                     pnl: real, commission: real, entryIdx: nat, exitIdx: nat)

  /** `openingFees` totals the commissions of the fills that opened positions; no step reads it. */
  datatype Ledger = Ledger(cash: real, positions: seq<OpenPosition>, closed: seq<ClosedTrade>, equity: seq<real>,
                           nextId: nat, openingFees: real)

  datatype Portfolio = Portfolio(cash: real, equity: real, positions: seq<OpenPosition>, timestamp: Option<int>)

  type Snapshot = map<string, Bar>

  /** What a strategy is shown at one step. */
  datatype Observation = Observation(bars: Snapshot, portfolio: Portfolio)

  /** A deterministic strategy, with whatever memory it keeps: its signals are a function of all
      it has been shown in the run, the latest observation last. */
  type Strategy = seq<Observation> -> seq<Signal>

  function Opening(capital: real): Ledger {
    Ledger(capital, [], [], [], 0, 0.0)
  }

  predicate Opposes(p: OpenPosition, symbol: string, side: Side) {
    p.symbol == symbol && p.side != side
  }

  /** The index of the first, that is the oldest, position the fill closes; |ps| if none. */
  function FindOpposing(ps: seq<OpenPosition>, symbol: string, side: Side): (k: nat)
    ensures k <= |ps|
    ensures k < |ps| ==> Opposes(ps[k], symbol, side)
    ensures forall i :: 0 <= i < k ==> !Opposes(ps[i], symbol, side)
  {
    if ps == [] || Opposes(ps[0], symbol, side) then 0 else 1 + FindOpposing(ps[1..], symbol, side)
  }

  function Value(price: real, quantity: real): real {
    price * quantity
  }

  function Gain(side: Side, entry: real, exit: real, quantity: real): real {
    if side == Buy then (exit - entry) * quantity else (entry - exit) * quantity
  }

  function CloseAgainst(l: Ledger, k: nat, f: SimFill, idx: nat): Ledger
    requires k < |l.positions|
  {
    var p := l.positions[k];
    var qty := Min(f.quantity, p.quantity);
    var gain := Gain(p.side, p.entryPrice, f.price, qty);
    var remaining := p.quantity - qty;
    l.(cash := if p.side == Buy then l.cash + Value(f.price, qty) - f.commission else l.cash - (Value(f.price, qty) + f.commission),
       closed := l.closed + [ClosedTrade(f.symbol, p.side, p.entryPrice, f.price, qty, gain - f.commission, f.commission,
                                         p.entryIdx, idx)],
       positions := if remaining <= 0.0 then l.positions[..k] + l.positions[k + 1..]
                    else l.positions[k := p.(quantity := remaining)])
  }

  function Open(l: Ledger, f: SimFill, idx: nat): Ledger {
    l.(cash := if f.side == Buy then l.cash - (Value(f.price, f.quantity) + f.commission)
               else l.cash + (Value(f.price, f.quantity) - f.commission),
       positions := l.positions + [OpenPosition(l.nextId, f.symbol, f.side, f.quantity, f.price, idx)],
       nextId := l.nextId + 1,
       openingFees := l.openingFees + f.commission)
  }

  predicate Unaffordable(l: Ledger, f: SimFill) {
    f.side == Buy && Value(f.price, f.quantity) + f.commission > l.cash
  }

  function ApplyFill(l: Ledger, f: SimFill, idx: nat): Ledger {
    var k := FindOpposing(l.positions, f.symbol, f.side);
    if k < |l.positions| then CloseAgainst(l, k, f, idx)
    else if Unaffordable(l, f) then l
    else Open(l, f, idx)
  }

  function OrderOf(s: Signal): SimOrder {
    SimOrder(s.symbol, s.side, s.orderType, s.quantity, s.limitPrice, s.stopPrice)
  }

  function ProcessSignal(l: Ledger, s: Signal, bars: Snapshot, idx: nat, costs: Costs): Ledger {
    if s.symbol !in bars then l
    else match SimulateFill(OrderOf(s), bars[s.symbol], costs)
      case None => l
      case Some(f) => ApplyFill(l, f, idx)
  }

  function ProcessAll(l: Ledger, signals: seq<Signal>, bars: Snapshot, idx: nat, costs: Costs): Ledger {
    if signals == [] then l
    else ProcessSignal(ProcessAll(l, signals[..|signals| - 1], bars, idx, costs), signals[|signals| - 1], bars, idx, costs)
  }

  /** +1 per unit held long, -1 per unit sold short. */
  function Signed(side: Side, x: real): real {
    if side == Buy then x else -x
  }

  function MarkValue(ps: seq<OpenPosition>, bars: Snapshot): real {
    if ps == [] then 0.0
    else
      var p := ps[|ps| - 1];
      MarkValue(ps[..|ps| - 1], bars)
      + if p.symbol in bars then Signed(p.side, bars[p.symbol].close * p.quantity) else 0.0
  }

  function Equity(l: Ledger, bars: Snapshot): real {
    l.cash + MarkValue(l.positions, bars)
  }

  // ---------------------------------------------------------------- the conservation law

  function EntryCost(ps: seq<OpenPosition>): real {
    if ps == [] then 0.0
    else EntryCost(ps[..|ps| - 1]) + Signed(ps[|ps| - 1].side, ps[|ps| - 1].entryPrice * ps[|ps| - 1].quantity)
  }

  function RealisedPnl(ts: seq<ClosedTrade>): real {
    if ts == [] then 0.0 else RealisedPnl(ts[..|ts| - 1]) + ts[|ts| - 1].pnl
  }

  function UnrealisedGain(ps: seq<OpenPosition>, bars: Snapshot): real {
    if ps == [] then 0.0
    else
      var p := ps[|ps| - 1];
      UnrealisedGain(ps[..|ps| - 1], bars)
      + if p.symbol in bars then Signed(p.side, (bars[p.symbol].close - p.entryPrice) * p.quantity) else 0.0
  }

  /** Cash plus the signed entry cost of what is open is the initial capital plus the closed
      trades' P&L minus the commissions paid on opening. */
  predicate Balanced(l: Ledger, capital: real) {
    l.cash + EntryCost(l.positions) == capital + RealisedPnl(l.closed) - l.openingFees
  }

  lemma {:induction false} EntryCostSplits(a: seq<OpenPosition>, b: seq<OpenPosition>)
    ensures EntryCost(a + b) == EntryCost(a) + EntryCost(b)
  {
    if b == [] {
      assert a + b == a;
    } else {
      assert (a + b)[..|a + b| - 1] == a + b[..|b| - 1];
      EntryCostSplits(a, b[..|b| - 1]);
    }
  }

  lemma EntryCostOfOne(p: OpenPosition)
    ensures EntryCost([p]) == Signed(p.side, p.entryPrice * p.quantity)
  {
    assert [p][..0] == [];
  }

  lemma EntryCostAt(ps: seq<OpenPosition>, k: nat)
    requires k < |ps|
    ensures EntryCost(ps) == EntryCost(ps[..k]) + EntryCost([ps[k]]) + EntryCost(ps[k + 1..])
  {
    hide EntryCost;
    assert ps == ps[..k] + ([ps[k]] + ps[k + 1..]);
    EntryCostSplits(ps[..k], [ps[k]] + ps[k + 1..]);
    EntryCostSplits([ps[k]], ps[k + 1..]);
  }

  /** What closing `qty` of one position does to the entry cost of the whole book. */
  lemma CloseReleasesCost(l: Ledger, k: nat, f: SimFill, idx: nat)
    requires k < |l.positions|
    ensures var p := l.positions[k];
            EntryCost(CloseAgainst(l, k, f, idx).positions)
            == EntryCost(l.positions) - Signed(p.side, p.entryPrice * Min(f.quantity, p.quantity))
  {
    hide EntryCost;
    var p := l.positions[k];
    var qty := Min(f.quantity, p.quantity);
    var ps := CloseAgainst(l, k, f, idx).positions;
    EntryCostAt(l.positions, k);
    EntryCostOfOne(p);
    if p.quantity - qty <= 0.0 {
      EntryCostSplits(l.positions[..k], l.positions[k + 1..]);
      assert qty == p.quantity;
    } else {
      var kept := p.(quantity := p.quantity - qty);
      EntryCostAt(ps, k);
      assert ps[..k] == l.positions[..k] && ps[k + 1..] == l.positions[k + 1..] && ps[k] == kept;
      EntryCostOfOne(kept);
      assert p.entryPrice * (p.quantity - qty) == p.entryPrice * p.quantity - p.entryPrice * qty;
    }
  }

  lemma CloseKeepsBalance(l: Ledger, k: nat, f: SimFill, idx: nat, capital: real)
    requires Balanced(l, capital) && k < |l.positions|
    ensures Balanced(CloseAgainst(l, k, f, idx), capital)
  {
    hide EntryCost;
    var p := l.positions[k];
    var qty := Min(f.quantity, p.quantity);
    var l' := CloseAgainst(l, k, f, idx);
    CloseReleasesCost(l, k, f, idx);
    assert l'.closed[..|l'.closed| - 1] == l.closed;
    assert (f.price - p.entryPrice) * qty == f.price * qty - p.entryPrice * qty;
    assert (p.entryPrice - f.price) * qty == p.entryPrice * qty - f.price * qty;
  }

  /** No fill, of any size, price or commission, creates or destroys money. */
  lemma FillKeepsBalance(l: Ledger, f: SimFill, idx: nat, capital: real)
    requires Balanced(l, capital)
    ensures Balanced(ApplyFill(l, f, idx), capital)
  {
    var k := FindOpposing(l.positions, f.symbol, f.side);
    if k < |l.positions| {
      CloseKeepsBalance(l, k, f, idx, capital);
    }
  }

  lemma {:induction false} AllKeepBalance(l: Ledger, signals: seq<Signal>, bars: Snapshot, idx: nat, costs: Costs, capital: real)
    requires Balanced(l, capital)
    ensures Balanced(ProcessAll(l, signals, bars, idx, costs), capital)
  {
    hide SimulateFill, Balanced, ApplyFill;
    if signals == [] {
    } else {
      AllKeepBalance(l, signals[..|signals| - 1], bars, idx, costs, capital);
      var before, s := ProcessAll(l, signals[..|signals| - 1], bars, idx, costs), signals[|signals| - 1];
      if s.symbol in bars && SimulateFill(OrderOf(s), bars[s.symbol], costs).Some? {
        FillKeepsBalance(before, SimulateFill(OrderOf(s), bars[s.symbol], costs).value, idx, capital);
      }
    }
  }

  /** Every open position's symbol has a bar. */
  predicate AllPriced(ps: seq<OpenPosition>, bars: Snapshot) {
    forall i :: 0 <= i < |ps| ==> ps[i].symbol in bars
  }

  lemma {:induction false} MarkIsCostPlusGain(ps: seq<OpenPosition>, bars: Snapshot)
    requires AllPriced(ps, bars)
    ensures MarkValue(ps, bars) == EntryCost(ps) + UnrealisedGain(ps, bars)
  {
    if ps == [] {
    } else {
      var p := ps[|ps| - 1];
      MarkIsCostPlusGain(ps[..|ps| - 1], bars);
      assert (bars[p.symbol].close - p.entryPrice) * p.quantity
          == bars[p.symbol].close * p.quantity - p.entryPrice * p.quantity;
    }
  }

  /** Equity is the initial capital plus realised P&L minus opening commissions plus the signed
      unrealised gain of what is open. */
  lemma EquityDecomposes(l: Ledger, bars: Snapshot, capital: real)
    requires Balanced(l, capital) && AllPriced(l.positions, bars)
    ensures Equity(l, bars) == capital + RealisedPnl(l.closed) - l.openingFees + UnrealisedGain(l.positions, bars)
  {
    hide MarkValue, EntryCost, UnrealisedGain;
    MarkIsCostPlusGain(l.positions, bars);
  }

  // ---------------------------------------------------------------- the shape of the book

  predicate OneSided(ps: seq<OpenPosition>) {
    forall i, j :: 0 <= i < j < |ps| && ps[i].symbol == ps[j].symbol ==> ps[i].side == ps[j].side
  }

  predicate AllPositive(ps: seq<OpenPosition>) {
    forall i :: 0 <= i < |ps| ==> ps[i].quantity > 0.0
  }

  predicate OpenedInOrder(ps: seq<OpenPosition>, idx: nat) {
    && (forall i, j :: 0 <= i < j < |ps| ==> ps[i].entryIdx <= ps[j].entryIdx)
    && (forall i :: 0 <= i < |ps| ==> ps[i].entryIdx <= idx)
  }

  predicate BookOk(ps: seq<OpenPosition>, idx: nat) {
    OneSided(ps) && AllPositive(ps) && OpenedInOrder(ps, idx)
  }

  /** Per symbol, trades are recorded oldest entry first and never exit before their entry. */
  predicate TradesOk(ts: seq<ClosedTrade>, idx: nat) {
    && (forall i, j :: 0 <= i < j < |ts| && ts[i].symbol == ts[j].symbol ==> ts[i].entryIdx <= ts[j].entryIdx)
    && (forall i :: 0 <= i < |ts| ==> ts[i].entryIdx <= ts[i].exitIdx <= idx)
  }

  /** Nothing still open in a symbol is older than anything closed in it. */
  predicate OldestFirst(ts: seq<ClosedTrade>, ps: seq<OpenPosition>) {
    forall i, j :: 0 <= i < |ts| && 0 <= j < |ps| && ts[i].symbol == ps[j].symbol ==> ts[i].entryIdx <= ps[j].entryIdx
  }

  predicate Orderly(l: Ledger, idx: nat) {
    BookOk(l.positions, idx) && TradesOk(l.closed, idx) && OldestFirst(l.closed, l.positions)
  }

  lemma LaterKeepsOrder(l: Ledger, idx: nat, idx': nat)
    requires Orderly(l, idx) && idx <= idx'
    ensures Orderly(l, idx')
  {
  }

  lemma RemovalKeepsBook(ps: seq<OpenPosition>, k: nat, idx: nat, ts: seq<ClosedTrade>)
    requires BookOk(ps, idx) && k < |ps| && OldestFirst(ts, ps)
    ensures BookOk(ps[..k] + ps[k + 1..], idx) && OldestFirst(ts, ps[..k] + ps[k + 1..])
  {
    var ps' := ps[..k] + ps[k + 1..];
    assert forall i :: 0 <= i < |ps'| ==> ps'[i] == if i < k then ps[i] else ps[i + 1];
  }

  lemma ShrinkKeepsBook(ps: seq<OpenPosition>, k: nat, quantity: real, idx: nat, ts: seq<ClosedTrade>)
    requires BookOk(ps, idx) && k < |ps| && quantity > 0.0 && OldestFirst(ts, ps)
    ensures BookOk(ps[k := ps[k].(quantity := quantity)], idx)
    ensures OldestFirst(ts, ps[k := ps[k].(quantity := quantity)])
  {
  }

  /** In a one-sided book the first opposing position is the oldest one of its symbol. */
  lemma ClosedAgainstIsOldest(ps: seq<OpenPosition>, symbol: string, side: Side, idx: nat)
    requires BookOk(ps, idx) && FindOpposing(ps, symbol, side) < |ps|
    ensures var k := FindOpposing(ps, symbol, side);
            forall j :: 0 <= j < |ps| && ps[j].symbol == symbol ==> ps[k].entryIdx <= ps[j].entryIdx
  {
    var k := FindOpposing(ps, symbol, side);
    forall j | 0 <= j < |ps| && ps[j].symbol == symbol ensures ps[k].entryIdx <= ps[j].entryIdx {
      assert Opposes(ps[j], symbol, side);
    }
  }

  lemma TradeKeepsOrder(ts: seq<ClosedTrade>, ps: seq<OpenPosition>, k: nat, t: ClosedTrade, idx: nat)
    requires TradesOk(ts, idx) && OldestFirst(ts, ps) && k < |ps| && ps[k].entryIdx <= idx
    requires t.symbol == ps[k].symbol && t.entryIdx == ps[k].entryIdx && t.exitIdx == idx
    requires forall j :: 0 <= j < |ps| && ps[j].symbol == t.symbol ==> t.entryIdx <= ps[j].entryIdx
    ensures TradesOk(ts + [t], idx) && OldestFirst(ts + [t], ps)
  {
  }

  lemma CloseKeepsOrder(l: Ledger, f: SimFill, idx: nat)
    requires Orderly(l, idx)
    requires FindOpposing(l.positions, f.symbol, f.side) < |l.positions|
    ensures Orderly(ApplyFill(l, f, idx), idx)
  {
    hide BookOk, TradesOk, OldestFirst;
    var k := FindOpposing(l.positions, f.symbol, f.side);
    var p := l.positions[k];
    var qty := Min(f.quantity, p.quantity);
    EntryBound(l.positions, k, idx);
    ClosedAgainstIsOldest(l.positions, f.symbol, f.side, idx);
    var ts := CloseAgainst(l, k, f, idx).closed;
    TradeKeepsOrder(l.closed, l.positions, k, ts[|ts| - 1], idx);
    if p.quantity - qty <= 0.0 {
      RemovalKeepsBook(l.positions, k, idx, ts);
    } else {
      ShrinkKeepsBook(l.positions, k, p.quantity - qty, idx, ts);
    }
  }

  lemma EntryBound(ps: seq<OpenPosition>, k: nat, idx: nat)
    requires BookOk(ps, idx) && k < |ps|
    ensures ps[k].entryIdx <= idx
  {
  }

  /** A fill keeps the book orderly exactly when its quantity is positive, or it is used to
      close, or it is refused for lack of cash. */
  lemma FillKeepsOrderExactlyWhen(l: Ledger, f: SimFill, idx: nat)
    requires Orderly(l, idx)
    ensures Orderly(ApplyFill(l, f, idx), idx) <==>
            f.quantity > 0.0 || FindOpposing(l.positions, f.symbol, f.side) < |l.positions| || Unaffordable(l, f)
  {
    var k := FindOpposing(l.positions, f.symbol, f.side);
    if k < |l.positions| {
      CloseKeepsOrder(l, f, idx);
    } else if !Unaffordable(l, f) {
      if f.quantity > 0.0 {
      } else {
        var ps := Open(l, f, idx).positions;
        assert ps[|ps| - 1].quantity <= 0.0;
      }
    }
  }

  lemma SignalKeepsOrder(l: Ledger, s: Signal, bars: Snapshot, idx: nat, costs: Costs)
    requires Orderly(l, idx) && AllPriced(l.positions, bars) && s.quantity > 0.0
    ensures Orderly(ProcessSignal(l, s, bars, idx, costs), idx)
    ensures AllPriced(ProcessSignal(l, s, bars, idx, costs).positions, bars)
  {
    hide Orderly;
    if s.symbol in bars && SimulateFill(OrderOf(s), bars[s.symbol], costs).Some? {
      var f := SimulateFill(OrderOf(s), bars[s.symbol], costs).value;
      FillHonoursOrder(OrderOf(s), bars[s.symbol], costs);
      hide SimulateFill;
      FillKeepsOrderExactlyWhen(l, f, idx);
    }
  }

  lemma {:induction false} AllKeepOrder(l: Ledger, signals: seq<Signal>, bars: Snapshot, idx: nat, costs: Costs)
    requires Orderly(l, idx) && AllPriced(l.positions, bars)
    requires forall i :: 0 <= i < |signals| ==> signals[i].quantity > 0.0
    ensures Orderly(ProcessAll(l, signals, bars, idx, costs), idx)
    ensures AllPriced(ProcessAll(l, signals, bars, idx, costs).positions, bars)
  {
    hide Orderly, AllPriced, ProcessSignal;
    if signals == [] {
    } else {
      AllKeepOrder(l, signals[..|signals| - 1], bars, idx, costs);
      SignalKeepsOrder(ProcessAll(l, signals[..|signals| - 1], bars, idx, costs), signals[|signals| - 1], bars, idx, costs);
    }
  }
}
