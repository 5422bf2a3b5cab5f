/** `BacktestEngine` as code, loop by loop, proved against `Backtest` and `BacktestRuns`. */
module BacktestService {
  import opened Arithmetic
  import opened Sequences
  import opened Wrappers
  import opened Simulator
  import opened Backtest
  import opened BacktestRuns

  class BacktestEngine {
    const cfg: Config
    var barData: BarData
    var cash: real
    var positions: seq<OpenPosition>
    var closedTrades: seq<ClosedTrade>
    var equityHistory: seq<real>
    var nextId: nat
    ghost var openingFees: real

    ghost function View(): Ledger
      reads this
    {
      Ledger(cash, positions, closedTrades, equityHistory, nextId, openingFees)
    }

    constructor (cfg: Config)
      ensures this.cfg == cfg && barData == map[]
    {
      this.cfg := cfg;
      barData := map[];
      cash, positions, closedTrades, equityHistory, nextId, openingFees := 0.0, [], [], [], 0, 0.0;
    }

    method LoadBars(symbol: string, bars: seq<Bar>)
      modifies this`barData
      ensures barData == old(barData)[symbol := bars]
    {
      barData := barData[symbol := bars];
    }

    method FindOpposingPosition(symbol: string, side: Side) returns (k: nat)
      ensures k == FindOpposing(positions, symbol, side)
    {
      k := 0;
      while k < |positions|
        invariant 0 <= k <= |positions|
        invariant FindOpposing(positions, symbol, side) == k + FindOpposing(positions[k..], symbol, side)
      {
        if positions[k].symbol == symbol && positions[k].side != side {
          return;
        }
        k := k + 1;
      }
    }

    method ApplyFill(f: SimFill, idx: nat)
      modifies this`cash, this`positions, this`closedTrades, this`nextId, this`openingFees
      ensures View() == old(Backtest.ApplyFill(View(), f, idx))
    {
      hide Value, Gain, Min, FindOpposing;
      var k := FindOpposingPosition(f.symbol, f.side);
      if k < |positions| {
        var existing := positions[k];
        var closeQty := Min(f.quantity, existing.quantity);
        var pnl := Gain(existing.side, existing.entryPrice, f.price, closeQty) - f.commission;
        if existing.side == Buy {
          cash := cash + Value(f.price, closeQty) - f.commission;
        } else {
          cash := cash - (Value(f.price, closeQty) + f.commission);
        }
        var remaining := existing.quantity - closeQty;
        closedTrades := closedTrades + [ClosedTrade(f.symbol, existing.side, existing.entryPrice, f.price, closeQty,
                                                    pnl, f.commission, existing.entryIdx, idx)];
        if remaining <= 0.0 {
          positions := positions[..k] + positions[k + 1..];
        } else {
          positions := positions[k := existing.(quantity := remaining)];
        }
      } else {
        if f.side == Buy {
          var cost := Value(f.price, f.quantity) + f.commission;
          if cost > cash {
            return;
          }
          cash := cash - cost;
        } else {
          cash := cash + (Value(f.price, f.quantity) - f.commission);
        }
        positions := positions + [OpenPosition(nextId, f.symbol, f.side, f.quantity, f.price, idx)];
        nextId := nextId + 1;
        openingFees := openingFees + f.commission;
      }
    }

    method ProcessSignal(s: Signal, bars: Snapshot, idx: nat)
      modifies this`cash, this`positions, this`closedTrades, this`nextId, this`openingFees
      ensures View() == old(Backtest.ProcessSignal(View(), s, bars, idx, cfg.costs))
    {
      hide Simulator.SimulateFill, Backtest.ApplyFill;
      if s.symbol !in bars {
        return;
      }
      var fill := SimulateFill(OrderOf(s), bars[s.symbol], cfg.costs);
      if fill.Some? {
        ApplyFill(fill.value, idx);
      }
    }

    method ComputeEquity(bars: Snapshot) returns (equity: real)
      ensures equity == Equity(View(), bars)
    {
      equity := cash;
      for i := 0 to |positions|
        invariant equity == cash + MarkValue(positions[..i], bars)
      {
        assert positions[..i + 1][..i] == positions[..i];
        var pos := positions[i];
        if pos.symbol in bars {
          if pos.side == Buy {
            equity := equity + bars[pos.symbol].close * pos.quantity;
          } else {
            equity := equity - bars[pos.symbol].close * pos.quantity;
          }
        }
      }
      assert positions[..|positions|] == positions;
    }

    /** Carrying each symbol's last bar forward keeps exactly its latest bar at or before `t`. */
    method Advance(lastBar: Snapshot, t: int) returns (next: Snapshot)
      ensures forall s :: s in next <==> (s in barData && BarAt(barData[s], t).Some?) || s in lastBar
      ensures forall s :: s in next ==>
                next[s] == if s in barData && BarAt(barData[s], t).Some? then BarAt(barData[s], t).value else lastBar[s]
    {
      next := lastBar;
      var todo := barData.Keys;
      while todo != {}
        invariant todo <= barData.Keys
        invariant forall s :: s in next <==> (s in barData.Keys - todo && BarAt(barData[s], t).Some?) || s in lastBar
        invariant forall s :: s in next ==>
                    next[s] == if s in barData.Keys - todo && BarAt(barData[s], t).Some? then BarAt(barData[s], t).value else lastBar[s]
        decreases todo
      {
        var s :| s in todo;
        todo := todo - {s};
        var bar := BarAt(barData[s], t);
        if bar.Some? {
          next := next[s := bar.value];
        }
      }
    }

    lemma AdvancesToSnapshot(times: seq<int>, i: nat, last: Snapshot, next: Snapshot)
      requires Enumerates(times, AllTimes(barData)) && i < |times|
      requires last == if i == 0 then map[] else SnapshotAt(barData, times[i - 1])
      requires forall s :: s in next <==> (s in barData && BarAt(barData[s], times[i]).Some?) || s in last
      requires forall s :: s in next ==>
                 next[s] == if s in barData && BarAt(barData[s], times[i]).Some? then BarAt(barData[s], times[i]).value else last[s]
      ensures next == SnapshotAt(barData, times[i])
    {
      forall s | s in barData
        ensures Latest(barData[s], times[i])
                == if BarAt(barData[s], times[i]).Some? then BarAt(barData[s], times[i])
                   else if i == 0 then None else Latest(barData[s], times[i - 1])
      {
        NoTimeBetween(times, i, s);
        if i == 0 {
          LatestStarts(barData[s], times[0]);
        } else {
          LatestAdvances(barData[s], times[i - 1], times[i]);
        }
      }
    }

    lemma NoTimeBetween(times: seq<int>, i: nat, s: string)
      requires Enumerates(times, AllTimes(barData)) && i < |times| && s in barData
      ensures i == 0 ==> forall j :: 0 <= j < |barData[s]| ==> times[0] <= Ts(barData[s][j])
      ensures i > 0 ==> forall j :: 0 <= j < |barData[s]| ==> !(times[i - 1] < Ts(barData[s][j]) < times[i])
    {
      forall j | 0 <= j < |barData[s]| ensures Ts(barData[s][j]) in times {
        assert Ts(barData[s][j]) in AllTimes(barData);
      }
    }

    method SortedTimes() returns (times: seq<int>)
      ensures Enumerates(times, AllTimes(barData))
    {
      times := [];
      var todo := AllTimes(barData);
      ghost var all := todo;
      while todo != {}
        invariant Ascending(times) && todo <= all
        invariant forall t :: t in times <==> t in all - todo
        decreases todo
      {
        var t :| t in todo;
        todo := todo - {t};
        times := InsertSorted(times, t);
      }
    }

    method BuildTimestampSteps() returns (steps: seq<Step>, times: seq<int>)
      ensures Enumerates(times, AllTimes(barData)) && steps == TimestampSteps(barData, times)
    {
      var allTs := SortedTimes();
      times := allTs;
      steps := [];
      var lastBar: Snapshot := map[];
      for i := 0 to |allTs|
        invariant |steps| == i
        invariant lastBar == if i == 0 then map[] else SnapshotAt(barData, allTs[i - 1])
        invariant forall j :: 0 <= j < i ==> steps[j] == Step(Some(allTs[j]), SnapshotAt(barData, allTs[j]))
      {
        var next := Advance(lastBar, allTs[i]);
        AdvancesToSnapshot(allTs, i, lastBar, next);
        lastBar := next;
        steps := steps + [Step(Some(allTs[i]), lastBar)];
      }
    }

    method BuildPositionalSteps() returns (steps: seq<Step>, n: nat)
      requires barData != map[]
      ensures IsShortest(barData, n) && steps == PositionalSteps(barData, n)
    {
      var first :| first in barData;
      var len := |barData[first]|;
      var todo := barData.Keys - {first};
      while todo != {}
        invariant todo <= barData.Keys
        invariant forall s :: s in barData && s !in todo ==> len <= |barData[s]|
        invariant exists s :: s in barData && |barData[s]| == len
        decreases todo
      {
        var s :| s in todo;
        todo := todo - {s};
        if |barData[s]| < len {
          len := |barData[s]|;
        }
      }
      n := len;
      steps := [];
      for i := 0 to len
        invariant |steps| == i
        invariant forall j :: 0 <= j < i ==> steps[j] == Step(None, map s | s in barData :: barData[s][j])
      {
        steps := steps + [Step(None, map s | s in barData :: barData[s][i])];
      }
    }

    /** Timestamp alignment when every bar has a timestamp, positional alignment otherwise. */
    method BuildSteps() returns (steps: seq<Step>)
      ensures if barData == map[] then steps == [] else StepsFor(barData, steps)
    {
      if barData == map[] {
        return [];
      }
      if Timestamped(barData) {
        ghost var times;
        steps, times := BuildTimestampSteps();
      } else {
        ghost var n;
        steps, n := BuildPositionalSteps();
      }
    }

    /** The whole backtest: it ends in the state `RunTo` defines over the steps of the data. */
    method Run(strategy: Strategy) returns (steps: seq<Step>)
      modifies this`cash, this`positions, this`closedTrades, this`equityHistory, this`nextId, this`openingFees
      ensures barData != map[] ==> StepsFor(barData, steps)
      ensures View() == RunTo(cfg, steps, strategy, |steps|).ledger
    {
      hide Backtest.ProcessSignal, StepsFor, Backtest.Equity;
      cash, positions, closedTrades, equityHistory, nextId, openingFees := cfg.capital, [], [], [], 0, 0.0;
      steps := [];
      if barData == map[] {
        return;
      }
      steps := BuildSteps();
      var pending: seq<Signal>, seen: seq<Observation> := [], [];
      for idx := 0 to |steps|
        invariant RunTo(cfg, steps, strategy, idx) == Running(View(), pending, seen)
      {
        ghost var before := View();
        var bars := steps[idx].bars;
        for j := 0 to |pending|
          invariant View() == ProcessAll(before, pending[..j], bars, idx, cfg.costs)
        {
          assert pending[..j + 1][..j] == pending[..j];
          ProcessSignal(pending[j], bars, idx);
        }
        assert pending[..|pending|] == pending;
        var equity := ComputeEquity(bars);
        equityHistory := equityHistory + [equity];
        seen := seen + [Observation(bars, Portfolio(cash, equity, positions, steps[idx].timestamp))];
        pending := strategy(seen);
      }
    }
  }
}
