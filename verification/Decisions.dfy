/**
  When a backtest acts on what its strategy decided, and what one decision does: every signal is
  executed at the step after the one it was decided at, once, in turn, and everything held or
  traded goes back to such a signal (`backtesting/engine.py`).
 */
module Decisions {
  import opened Wrappers

  import opened Simulator
  import opened Backtest
  import opened BacktestRuns

  // ---------------------------------------------------------------- what one signal does

  predicate Against(p: OpenPosition, f: SimFill) {
    p.symbol == f.symbol && p.side != f.side
  }

  /** The first position of the book the fill is against. */
  ghost predicate FirstAgainst(ps: seq<OpenPosition>, f: SimFill, k: nat) {
    k < |ps| && Against(ps[k], f) && forall i :: 0 <= i < k ==> !Against(ps[i], f)
  }

  /** The fill is bought or sold anew. */
  ghost predicate Opens(l: Ledger, f: SimFill, idx: nat, l': Ledger) {
    && l'.positions == l.positions + [OpenPosition(l.nextId, f.symbol, f.side, f.quantity, f.price, idx)]
    && l'.nextId == l.nextId + 1 && l'.closed == l.closed && l'.equity == l.equity
    && l'.cash + f.commission == (if f.side == Buy then l.cash - f.price * f.quantity else l.cash + f.price * f.quantity)
    && l'.openingFees == l.openingFees + f.commission
  }

  /** What was earned on `quantity` between two prices, long or short. */
  function Earned(side: Side, entry: real, exit: real, quantity: real): real {
    if side == Buy then (exit - entry) * quantity else (entry - exit) * quantity
  }

  /** The fill closes as much of position k as there is. */
  ghost predicate Closes(l: Ledger, k: nat, f: SimFill, idx: nat, l': Ledger)
    requires k < |l.positions|
  {
    var p, n := l.positions[k], |l.closed|;
    && |l'.closed| == n + 1 && l'.closed[..n] == l.closed
    && (var t := l'.closed[n];
       && t.symbol == p.symbol && t.side == p.side && t.entryIdx == p.entryIdx && t.exitIdx == idx
       && t.entryPrice == p.entryPrice && t.exitPrice == f.price && t.commission == f.commission
       && t.quantity <= f.quantity && t.quantity <= p.quantity && (t.quantity == f.quantity || t.quantity == p.quantity)
       && t.pnl + t.commission == Earned(p.side, p.entryPrice, f.price, t.quantity)
       && l'.cash + f.commission == (if p.side == Buy then l.cash + f.price * t.quantity else l.cash - f.price * t.quantity)
       && l'.positions == (if t.quantity < p.quantity then l.positions[k := p.(quantity := p.quantity - t.quantity)]
                           else l.positions[..k] + l.positions[k + 1..]))
    && l'.nextId == l.nextId && l'.equity == l.equity && l'.openingFees == l.openingFees
  }

  ghost predicate Executes(l: Ledger, f: SimFill, idx: nat, l': Ledger) {
    if exists k :: FirstAgainst(l.positions, f, k) then exists k :: FirstAgainst(l.positions, f, k) && Closes(l, k, f, idx, l')
    else if f.side == Buy && f.price * f.quantity + f.commission > l.cash then l' == l
    else Opens(l, f, idx, l')
  }

  /** The fill of a signal in a step, if its symbol has a bar there. */
  function FillOf(s: Signal, bars: Snapshot, costs: Costs): Option<SimFill> {
    if s.symbol !in bars then None
    else SimulateFill(SimOrder(s.symbol, s.side, s.orderType, s.quantity, s.limitPrice, s.stopPrice), bars[s.symbol], costs)
  }

  ghost predicate Does(l: Ledger, s: Signal, bars: Snapshot, idx: nat, costs: Costs, l': Ledger) {
    match FillOf(s, bars, costs)
    case None => l' == l
    case Some(f) => Executes(l, f, idx, l')
  }

  lemma CloseCloses(l: Ledger, k: nat, f: SimFill, idx: nat)
    requires k < |l.positions| && FirstAgainst(l.positions, f, k)
    ensures Closes(l, k, f, idx, CloseAgainst(l, k, f, idx))
  {
    assert CloseAgainst(l, k, f, idx).closed[..|l.closed|] == l.closed;
  }

  lemma FillExecutes(l: Ledger, f: SimFill, idx: nat)
    ensures Executes(l, f, idx, ApplyFill(l, f, idx))
  {
    var k := FindOpposing(l.positions, f.symbol, f.side);
    if k < |l.positions| {
      assert FirstAgainst(l.positions, f, k);
      CloseCloses(l, k, f, idx);
      hide Closes, CloseAgainst;
    } else {
      assert forall j :: 0 <= j < |l.positions| ==> !Opposes(l.positions[j], f.symbol, f.side);
    }
  }

  lemma SignalDoes(l: Ledger, s: Signal, bars: Snapshot, idx: nat, costs: Costs)
    ensures Does(l, s, bars, idx, costs, ProcessSignal(l, s, bars, idx, costs))
  {
    hide SimulateFill, ApplyFill, Executes;
    if FillOf(s, bars, costs).Some? {
      FillExecutes(l, FillOf(s, bars, costs).value, idx);
    }
  }

  // ---------------------------------------------------------------- what one step does

  /** The signals act on one ledger after the other. */
  ghost predicate InTurn(ls: seq<Ledger>, signals: seq<Signal>, bars: Snapshot, idx: nat, costs: Costs) {
    && |ls| == |signals| + 1
    && forall i :: 0 <= i < |signals| ==> Does(ls[i], signals[i], bars, idx, costs, ls[i + 1])
  }

  lemma {:induction false} AllInTurn(l: Ledger, signals: seq<Signal>, bars: Snapshot, idx: nat, costs: Costs) returns (ls: seq<Ledger>)
    ensures InTurn(ls, signals, bars, idx, costs)
    ensures ls[0] == l && ls[|signals|] == ProcessAll(l, signals, bars, idx, costs)
  {
    hide Does, ProcessSignal;
    if signals == [] {
      ls := [l];
    } else {
      var n := |signals| - 1;
      var before := AllInTurn(l, signals[..n], bars, idx, costs);
      SignalDoes(before[n], signals[n], bars, idx, costs);
      ls := before + [ProcessSignal(before[n], signals[n], bars, idx, costs)];
      forall i | 0 <= i <= n ensures Does(ls[i], signals[i], bars, idx, costs, ls[i + 1]) {
        if i < n {
          assert signals[..n][i] == signals[i] && ls[i] == before[i] && ls[i + 1] == before[i + 1];
        }
      }
    }
  }

  /** The signals a run executes at step n: those decided on the steps before it. */
  function Decided(cfg: Config, steps: seq<Step>, strategy: Strategy, n: nat): seq<Signal>
    requires n <= |steps|
  {
    if n == 0 then [] else strategy(RunTo(cfg, steps, strategy, n).seen)
  }

  /** Every step of every run executes what was decided at the step before, each signal once and
      in turn, on this step's bars, and nothing else; then it shows the strategy the outcome. */
  lemma StepExecutesWhatWasDecided(cfg: Config, steps: seq<Step>, strategy: Strategy, n: nat) returns (ls: seq<Ledger>)
    requires n < |steps|
    ensures var before, after := RunTo(cfg, steps, strategy, n), RunTo(cfg, steps, strategy, n + 1);
            && InTurn(ls, Decided(cfg, steps, strategy, n), steps[n].bars, n, cfg.costs)
            && ls[0] == before.ledger
            && ls[|ls| - 1] == after.ledger.(equity := before.ledger.equity)
            && |after.ledger.equity| == |before.ledger.equity| + 1 && before.ledger.equity <= after.ledger.equity
            && after.seen == before.seen
               + [Observation(steps[n].bars,
                              Portfolio(after.ledger.cash, after.ledger.equity[|before.ledger.equity|], after.ledger.positions,
                                        steps[n].timestamp))]
  {
    hide ProcessAll, Equity, InTurn, Does;
    var r := RunTo(cfg, steps, strategy, n);
    assert r.pending == Decided(cfg, steps, strategy, n);
    ls := AllInTurn(r.ledger, r.pending, steps[n].bars, n, cfg.costs);
    AllKeepEquity(r.ledger, r.pending, steps[n].bars, n, cfg.costs);
    LengthOfTurn(ls, r.pending, steps[n].bars, n, cfg.costs);
  }

  lemma LengthOfTurn(ls: seq<Ledger>, signals: seq<Signal>, bars: Snapshot, idx: nat, costs: Costs)
    requires InTurn(ls, signals, bars, idx, costs)
    ensures |ls| == |signals| + 1
  {
  }

  /** The two decide alike as long as they have been shown fewer than n steps. */
  ghost predicate DecideAlike(f: Strategy, g: Strategy, n: nat) {
    forall seen: seq<Observation> :: |seen| < n ==> f(seen) == g(seen)
  }

  lemma StepDecidesLast(cfg: Config, r: Running, step: Step, idx: nat, f: Strategy, g: Strategy)
    ensures var a, b := RunStep(cfg, r, step, idx, f), RunStep(cfg, r, step, idx, g);
            a.ledger == b.ledger && a.seen == b.seen && |a.seen| == |r.seen| + 1 && a.pending == f(a.seen) && b.pending == g(b.seen)
  {
    hide ProcessAll, Equity;
  }

  /** Two strategies that agree on every history of fewer than n steps leave the same ledger after
      n steps: what is decided at a step cannot act in it. */
  lemma {:induction false} DecisionsWaitOneStep(cfg: Config, steps: seq<Step>, f: Strategy, g: Strategy, n: nat)
    requires n <= |steps| && DecideAlike(f, g, n)
    ensures RunTo(cfg, steps, f, n).ledger == RunTo(cfg, steps, g, n).ledger
    ensures RunTo(cfg, steps, f, n).seen == RunTo(cfg, steps, g, n).seen
    ensures |RunTo(cfg, steps, f, n).seen| == n
    ensures n > 0 ==> RunTo(cfg, steps, f, n).pending == f(RunTo(cfg, steps, f, n).seen)
    ensures n > 0 ==> RunTo(cfg, steps, g, n).pending == g(RunTo(cfg, steps, g, n).seen)
  {
    if n > 0 {
      DecisionsWaitOneStep(cfg, steps, f, g, n - 1);
      var a, b := RunTo(cfg, steps, f, n - 1), RunTo(cfg, steps, g, n - 1);
      assert n > 1 ==> f(a.seen) == g(a.seen);
      assert a == b;
      hide RunStep, DecideAlike;
      StepDecidesLast(cfg, a, steps[n - 1], n - 1, f, g);
    }
  }

  // ---------------------------------------------------------------- single decisions

  /** A step before which nothing was decided trades nothing. */
  lemma NothingDecidedNothingDone(cfg: Config, steps: seq<Step>, strategy: Strategy, n: nat)
    requires n < |steps| && Decided(cfg, steps, strategy, n) == []
    ensures var before, after := RunTo(cfg, steps, strategy, n).ledger, RunTo(cfg, steps, strategy, n + 1).ledger;
            after.(equity := before.equity) == before
  {
    var ls := StepExecutesWhatWasDecided(cfg, steps, strategy, n);
  }

  /** A fill to buy, in a book with nothing sold short in its symbol, is bought if the cash covers
      price and commission, and refused otherwise. */
  lemma BuyingAnew(l: Ledger, f: SimFill, idx: nat, l': Ledger)
    requires Executes(l, f, idx, l') && f.side == Buy
    requires forall i :: 0 <= i < |l.positions| && l.positions[i].symbol == f.symbol ==> l.positions[i].side == Buy
    ensures l'.closed == l.closed
    ensures if f.price * f.quantity + f.commission <= l.cash
            then l'.cash == l.cash - f.price * f.quantity - f.commission
                 && l'.positions == l.positions + [OpenPosition(l.nextId, f.symbol, Buy, f.quantity, f.price, idx)]
            else l'.cash == l.cash && l'.positions == l.positions
  {
    assert forall k :: !FirstAgainst(l.positions, f, k);
  }

  /** A market buy decided alone, with a bar at the next step and nothing sold short in its symbol,
      is bought at that step's open, moved up by the slippage, if the cash covers price and
      commission, and refused otherwise. */
  lemma MarketBuyIsFilledNextStep(cfg: Config, steps: seq<Step>, strategy: Strategy, n: nat, s: Signal)
      returns (price: real, commission: real)
    requires n < |steps| && Decided(cfg, steps, strategy, n) == [s]
    requires s.side == Buy && s.orderType == MarketOrder && s.symbol in steps[n].bars
    requires var ps := RunTo(cfg, steps, strategy, n).ledger.positions;
             forall i :: 0 <= i < |ps| && ps[i].symbol == s.symbol ==> ps[i].side == Buy
    ensures Near(price, steps[n].bars[s.symbol].open * (1.0 + cfg.costs.slippageBps / 10000.0), 0.00005)
    ensures Near(commission, cfg.costs.commissionPerShare * s.quantity, 0.005)
    ensures var before, after := RunTo(cfg, steps, strategy, n).ledger, RunTo(cfg, steps, strategy, n + 1).ledger;
            && after.closed == before.closed
            && if price * s.quantity + commission <= before.cash
               then after.cash == before.cash - price * s.quantity - commission
                    && after.positions == before.positions + [OpenPosition(before.nextId, s.symbol, Buy, s.quantity, price, n)]
               else after.cash == before.cash && after.positions == before.positions
  {
    hide RunTo, SimulateFill, Executes;
    var ls := StepExecutesWhatWasDecided(cfg, steps, strategy, n);
    var o := SimOrder(s.symbol, s.side, s.orderType, s.quantity, s.limitPrice, s.stopPrice);
    MarketFillsAtTheOpen(o, steps[n].bars[s.symbol], cfg.costs);
    FillHonoursOrder(o, steps[n].bars[s.symbol], cfg.costs);
    var f := SimulateFill(o, steps[n].bars[s.symbol], cfg.costs).value;
    price, commission := f.price, f.commission;
    assert Does(ls[0], s, steps[n].bars, n, cfg.costs, ls[1]);
    hide Does, InTurn;
    BuyingAnew(ls[0], f, n, ls[1]);
  }

  // ---------------------------------------------------------------- where everything comes from

  /** Some signal decided before step idx asked for this side of the symbol, and the bar of step
      idx filled it at this price. */
  ghost predicate Caused(cfg: Config, steps: seq<Step>, strategy: Strategy, symbol: string, side: Side, price: real, idx: nat) {
    && 0 < idx < |steps|
    && exists s :: s in Decided(cfg, steps, strategy, idx) && FillsAs(s, steps[idx].bars, cfg.costs, symbol, side, price)
  }

  predicate FillsAs(s: Signal, bars: Snapshot, costs: Costs, symbol: string, side: Side, price: real) {
    var f := FillOf(s, bars, costs);
    s.symbol == symbol && s.side == side && f.Some? && f.value.price == price
  }

  function Other(side: Side): Side {
    if side == Buy then Sell else Buy
  }

  ghost predicate PositionTraced(cfg: Config, steps: seq<Step>, strategy: Strategy, p: OpenPosition) {
    Caused(cfg, steps, strategy, p.symbol, p.side, p.entryPrice, p.entryIdx)
  }

  ghost predicate TradeTraced(cfg: Config, steps: seq<Step>, strategy: Strategy, t: ClosedTrade) {
    && Caused(cfg, steps, strategy, t.symbol, t.side, t.entryPrice, t.entryIdx)
    && Caused(cfg, steps, strategy, t.symbol, Other(t.side), t.exitPrice, t.exitIdx)
    && t.pnl + t.commission == Earned(t.side, t.entryPrice, t.exitPrice, t.quantity)
  }

  ghost predicate Traced(cfg: Config, steps: seq<Step>, strategy: Strategy, l: Ledger) {
    && (forall i :: 0 <= i < |l.positions| ==> PositionTraced(cfg, steps, strategy, l.positions[i]))
    && (forall i :: 0 <= i < |l.closed| ==> TradeTraced(cfg, steps, strategy, l.closed[i]))
  }

  lemma FillOfSignal(s: Signal, bars: Snapshot, costs: Costs)
    requires FillOf(s, bars, costs).Some?
    ensures var f := FillOf(s, bars, costs).value; f.symbol == s.symbol && f.side == s.side
  {
    FillHonoursOrder(SimOrder(s.symbol, s.side, s.orderType, s.quantity, s.limitPrice, s.stopPrice), bars[s.symbol], costs);
    hide SimulateFill;
  }

  lemma OpeningIsTraced(cfg: Config, steps: seq<Step>, strategy: Strategy, l: Ledger, f: SimFill, idx: nat, l': Ledger)
    requires Traced(cfg, steps, strategy, l) && Opens(l, f, idx, l')
    requires Caused(cfg, steps, strategy, f.symbol, f.side, f.price, idx)
    ensures Traced(cfg, steps, strategy, l')
  {
    hide Caused;
  }

  lemma ClosingIsTraced(cfg: Config, steps: seq<Step>, strategy: Strategy, l: Ledger, k: nat, f: SimFill, idx: nat, l': Ledger)
    requires Traced(cfg, steps, strategy, l) && FirstAgainst(l.positions, f, k) && Closes(l, k, f, idx, l')
    requires Caused(cfg, steps, strategy, f.symbol, f.side, f.price, idx)
    ensures Traced(cfg, steps, strategy, l')
  {
    hide Caused, Earned;
    assert PositionTraced(cfg, steps, strategy, l.positions[k]);
    assert Other(l.positions[k].side) == f.side;
    var n := |l.closed|;
    forall i | 0 <= i <= n ensures TradeTraced(cfg, steps, strategy, l'.closed[i]) {
      if i < n {
        assert l'.closed[i] == l'.closed[..n][i] == l.closed[i];
      }
    }
    forall i | 0 <= i < |l'.positions| ensures PositionTraced(cfg, steps, strategy, l'.positions[i]) {
      if l'.closed[n].quantity >= l.positions[k].quantity {
        assert l'.positions[i] == if i < k then l.positions[i] else l.positions[i + 1];
      }
    }
  }

  lemma SignalIsTraced(cfg: Config, steps: seq<Step>, strategy: Strategy, l: Ledger, s: Signal, idx: nat, l': Ledger)
    requires Traced(cfg, steps, strategy, l) && 0 < idx < |steps|
    requires s in Decided(cfg, steps, strategy, idx) && Does(l, s, steps[idx].bars, idx, cfg.costs, l')
    ensures Traced(cfg, steps, strategy, l')
  {
    hide Traced, Decided, FillOf, Opens, Closes;
    if FillOf(s, steps[idx].bars, cfg.costs).Some? {
      var f := FillOf(s, steps[idx].bars, cfg.costs).value;
      FillOfSignal(s, steps[idx].bars, cfg.costs);
      assert FillsAs(s, steps[idx].bars, cfg.costs, f.symbol, f.side, f.price);
      if exists k :: FirstAgainst(l.positions, f, k) {
        var k :| FirstAgainst(l.positions, f, k) && Closes(l, k, f, idx, l');
        ClosingIsTraced(cfg, steps, strategy, l, k, f, idx, l');
      } else if l' != l {
        OpeningIsTraced(cfg, steps, strategy, l, f, idx, l');
      }
    }
  }

  lemma {:induction false} TurnIsTraced(cfg: Config, steps: seq<Step>, strategy: Strategy, ls: seq<Ledger>, idx: nat, j: nat)
    requires 0 < idx < |steps| && InTurn(ls, Decided(cfg, steps, strategy, idx), steps[idx].bars, idx, cfg.costs)
    requires j < |ls| && Traced(cfg, steps, strategy, ls[0])
    ensures Traced(cfg, steps, strategy, ls[j])
  {
    hide Traced, Decided, Does;
    if j > 0 {
      TurnIsTraced(cfg, steps, strategy, ls, idx, j - 1);
      SignalIsTraced(cfg, steps, strategy, ls[j - 1], Decided(cfg, steps, strategy, idx)[j - 1], idx, ls[j]);
    }
  }

  lemma TracedIgnoresEquity(cfg: Config, steps: seq<Step>, strategy: Strategy, l: Ledger, l': Ledger)
    requires Traced(cfg, steps, strategy, l) && l'.(equity := l.equity) == l
    ensures Traced(cfg, steps, strategy, l')
  {
    hide PositionTraced, TradeTraced;
    assert l'.positions == l.positions && l'.closed == l.closed;
  }

  /** In every run, everything held and both ends of everything closed go back to a signal decided
      on an earlier step and filled by the bar of the step it is recorded at. */
  lemma {:induction false} EverythingWasDecidedBefore(cfg: Config, steps: seq<Step>, strategy: Strategy, n: nat)
    requires n <= |steps|
    ensures Traced(cfg, steps, strategy, RunTo(cfg, steps, strategy, n).ledger)
  {
    hide Traced, InTurn, Decided, Does;
    if n == 0 {
      NothingToTrace(cfg, steps, strategy);
    } else {
      EverythingWasDecidedBefore(cfg, steps, strategy, n - 1);
      var ls := StepExecutesWhatWasDecided(cfg, steps, strategy, n - 1);
      hide RunTo;
      LengthOfTurn(ls, Decided(cfg, steps, strategy, n - 1), steps[n - 1].bars, n - 1, cfg.costs);
      if n > 1 {
        TurnIsTraced(cfg, steps, strategy, ls, n - 1, |ls| - 1);
      } else {
        NothingDecidedAtFirst(cfg, steps, strategy);
      }
      TracedIgnoresEquity(cfg, steps, strategy, ls[|ls| - 1], RunTo(cfg, steps, strategy, n).ledger);
    }
  }

  lemma NothingToTrace(cfg: Config, steps: seq<Step>, strategy: Strategy)
    ensures Traced(cfg, steps, strategy, RunTo(cfg, steps, strategy, 0).ledger)
  {
    assert RunTo(cfg, steps, strategy, 0).ledger == Opening(cfg.capital);
  }

  lemma NothingDecidedAtFirst(cfg: Config, steps: seq<Step>, strategy: Strategy)
    ensures Decided(cfg, steps, strategy, 0) == []
  {
  }
}
