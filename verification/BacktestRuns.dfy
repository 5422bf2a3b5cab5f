/**
  Whole backtests: how bars are aligned into steps, how signals wait one step, and what a run
  can and cannot have seen.
 */
module BacktestRuns {
  import opened Sequences
  import opened Wrappers

  import opened Simulator
  import opened Backtest

  type BarData = map<string, seq<Bar>>

  datatype Step = Step(timestamp: Option<int>, bars: Snapshot)

  // ---------------------------------------------------------------- alignment

  function Ts(b: Bar): int {
    if b.timestamp.Some? then b.timestamp.value else 0
  }

  /** Every loaded bar carries a timestamp. */
  predicate Timestamped(data: BarData) {
    forall s :: s in data ==> forall i :: 0 <= i < |data[s]| ==> data[s][i].timestamp.Some?
  }

  /** The latest bar at or before `t`; among bars of one timestamp, the last one loaded. */
  function Latest(bs: seq<Bar>, t: int): (r: Option<Bar>)
    ensures r.None? <==> forall i :: 0 <= i < |bs| ==> Ts(bs[i]) > t
    ensures r.Some? ==> r.value in bs && Ts(r.value) <= t
                        && forall i :: 0 <= i < |bs| && Ts(bs[i]) <= t ==> Ts(bs[i]) <= Ts(r.value)
  {
    if bs == [] then None
    else
      var before, last := Latest(bs[..|bs| - 1], t), bs[|bs| - 1];
      assert forall i :: 0 <= i < |bs| - 1 ==> bs[i] == bs[..|bs| - 1][i];
      assert forall i :: 0 <= i < |bs| ==> i < |bs| - 1 || bs[i] == last;
      if Ts(last) <= t && (before.None? || Ts(last) >= Ts(before.value)) then Some(last) else before
  }

  /** `{b.timestamp: b for b in bars}` at one timestamp: the last bar loaded for it. */
  function BarAt(bs: seq<Bar>, t: int): (r: Option<Bar>)
    ensures r.Some? ==> r.value in bs && Ts(r.value) == t
    ensures r.None? ==> forall i :: 0 <= i < |bs| ==> Ts(bs[i]) != t
  {
    if bs == [] then None
    else if Ts(bs[|bs| - 1]) == t then Some(bs[|bs| - 1])
    else BarAt(bs[..|bs| - 1], t)
  }

  lemma {:induction false} LatestAdvances(bs: seq<Bar>, t: int, t': int)
    requires t < t' && forall j :: 0 <= j < |bs| ==> !(t < Ts(bs[j]) < t')
    ensures Latest(bs, t') == if BarAt(bs, t').Some? then BarAt(bs, t') else Latest(bs, t)
  {
    if bs == [] {
    } else {
      LatestAdvances(bs[..|bs| - 1], t, t');
    }
  }

  lemma {:induction false} LatestStarts(bs: seq<Bar>, t: int)
    requires forall j :: 0 <= j < |bs| ==> t <= Ts(bs[j])
    ensures Latest(bs, t) == BarAt(bs, t)
  {
    if bs == [] {
    } else {
      LatestStarts(bs[..|bs| - 1], t);
    }
  }

  function SnapshotAt(data: BarData, t: int): Snapshot {
    map s | s in data && Latest(data[s], t).Some? :: Latest(data[s], t).value
  }

  function AllTimes(data: BarData): set<int> {
    set s, i | s in data && 0 <= i < |data[s]| :: Ts(data[s][i])
  }

  function InsertSorted(ts: seq<int>, t: int): (r: seq<int>)
    requires Ascending(ts)
    ensures Ascending(r)
    ensures forall x :: x in r <==> x in ts || x == t
  {
    if ts == [] || t < ts[0] then [t] + ts
    else if t == ts[0] then ts
    else
      var rest := InsertSorted(ts[1..], t);
      assert forall i :: 0 <= i < |rest| ==> rest[i] in rest;
      assert forall x :: x in ts <==> x == ts[0] || x in ts[1..];
      [ts[0]] + rest
  }

  /** `sorted` of a set of times: its ascending enumeration. */
  ghost predicate Enumerates(ts: seq<int>, s: set<int>) {
    Ascending(ts) && forall t :: t in ts <==> t in s
  }

  /** At each time, every symbol that has had a bar shows the latest one. */
  function TimestampSteps(data: BarData, times: seq<int>): (steps: seq<Step>)
    ensures |steps| == |times|
    ensures forall i :: 0 <= i < |times| ==> steps[i].timestamp == Some(times[i])
    ensures forall i, s :: 0 <= i < |times| ==>
              (s in steps[i].bars <==> s in data && exists j :: 0 <= j < |data[s]| && Ts(data[s][j]) <= times[i])
    ensures forall i, s :: 0 <= i < |times| && s in steps[i].bars ==> Some(steps[i].bars[s]) == Latest(data[s], times[i])
  {
    seq(|times|, i requires 0 <= i < |times| => Step(Some(times[i]), SnapshotAt(data, times[i])))
  }

  /** The positional fallback: the i-th bar of every symbol, as far as the shortest series goes. */
  function PositionalSteps(data: BarData, n: nat): (steps: seq<Step>)
    requires forall s :: s in data ==> n <= |data[s]|
    ensures |steps| == n
    ensures forall i :: 0 <= i < n ==> steps[i].timestamp == None && steps[i].bars.Keys == data.Keys
    ensures forall i, s :: 0 <= i < n && s in data ==> steps[i].bars[s] == data[s][i]
  {
    seq(n, i requires 0 <= i < n => Step(None, map s | s in data :: data[s][i]))
  }

  predicate IsShortest(data: BarData, n: nat) {
    && (forall s :: s in data ==> n <= |data[s]|)
    && (exists s :: s in data && |data[s]| == n)
  }

  ghost predicate StepsFor(data: BarData, steps: seq<Step>) {
    if Timestamped(data)
    then exists times :: Enumerates(times, AllTimes(data)) && steps == TimestampSteps(data, times)
    else exists n: nat :: IsShortest(data, n) && steps == PositionalSteps(data, n)
  }

  // ---------------------------------------------------------------- the run

  datatype Config = Config(capital: real, costs: Costs)

  /** The ledger after a step, the signals queued for the next one, and all the strategy was shown. */
  datatype Running = Running(ledger: Ledger, pending: seq<Signal>, seen: seq<Observation>)

  function RunStep(cfg: Config, r: Running, step: Step, idx: nat, strategy: Strategy): Running {
    var filled := ProcessAll(r.ledger, r.pending, step.bars, idx, cfg.costs);
    var equity := Equity(filled, step.bars);
    var marked := filled.(equity := filled.equity + [equity]);
    var seen := r.seen + [Observation(step.bars, Portfolio(marked.cash, equity, marked.positions, step.timestamp))];
    Running(marked, strategy(seen), seen)
  }

  function RunTo(cfg: Config, steps: seq<Step>, strategy: Strategy, n: nat): Running
    requires n <= |steps|
  {
    if n == 0 then Running(Opening(cfg.capital), [], [])
    else RunStep(cfg, RunTo(cfg, steps, strategy, n - 1), steps[n - 1], n - 1, strategy)
  }

  // ---------------------------------------------------------------- conservation over a run

  /** At every step of every run, whatever the strategy: the books balance. */
  lemma {:induction false} RunIsBalanced(cfg: Config, steps: seq<Step>, strategy: Strategy, n: nat)
    requires n <= |steps|
    ensures Balanced(RunTo(cfg, steps, strategy, n).ledger, cfg.capital)
    ensures |RunTo(cfg, steps, strategy, n).ledger.equity| == n
  {
    if n == 0 {
    } else {
      hide ProcessAll, Equity;
      RunIsBalanced(cfg, steps, strategy, n - 1);
      var r := RunTo(cfg, steps, strategy, n - 1);
      AllKeepBalance(r.ledger, r.pending, steps[n - 1].bars, n - 1, cfg.costs, cfg.capital);
      AllKeepEquity(r.ledger, r.pending, steps[n - 1].bars, n - 1, cfg.costs);
    }
  }

  lemma {:induction false} AllKeepEquity(l: Ledger, signals: seq<Signal>, bars: Snapshot, idx: nat, costs: Costs)
    ensures ProcessAll(l, signals, bars, idx, costs).equity == l.equity
  {
    hide SimulateFill;
    if signals == [] {
    } else {
      AllKeepEquity(l, signals[..|signals| - 1], bars, idx, costs);
    }
  }

  /** Once a symbol has a bar it keeps having one. */
  predicate BarsStay(steps: seq<Step>) {
    forall i, j :: 0 <= i < j < |steps| ==> steps[i].bars.Keys <= steps[j].bars.Keys
  }

  ghost predicate OrdersPositive(strategy: Strategy) {
    forall seen, i :: 0 <= i < |strategy(seen)| ==> strategy(seen)[i].quantity > 0.0
  }

  lemma WiderSnapshotPrices(ps: seq<OpenPosition>, bars: Snapshot, bars': Snapshot)
    requires AllPriced(ps, bars) && bars.Keys <= bars'.Keys
    ensures AllPriced(ps, bars')
  {
  }

  /** For a strategy that orders positive quantities, in every reachable state: each symbol is
      held on one side only, in positive quantities, oldest first; every held symbol is priced;
      trades close oldest entry first and never before they opened. */
  lemma {:induction false} RunIsOrderly(cfg: Config, steps: seq<Step>, strategy: Strategy, n: nat)
    requires 0 < n <= |steps| && BarsStay(steps) && OrdersPositive(strategy)
    ensures Orderly(RunTo(cfg, steps, strategy, n).ledger, n - 1)
    ensures AllPriced(RunTo(cfg, steps, strategy, n).ledger.positions, steps[n - 1].bars)
    ensures forall i :: 0 <= i < |RunTo(cfg, steps, strategy, n).pending| ==> RunTo(cfg, steps, strategy, n).pending[i].quantity > 0.0
  {
    hide ProcessAll, Equity, Orderly, AllPriced;
    var r := RunTo(cfg, steps, strategy, n - 1);
    if n == 1 {
      OpeningIsOrderly(cfg.capital, steps[0].bars);
    } else {
      RunIsOrderly(cfg, steps, strategy, n - 1);
      LaterKeepsOrder(r.ledger, n - 2, n - 1);
      assert steps[n - 2].bars.Keys <= steps[n - 1].bars.Keys;
      WiderSnapshotPrices(r.ledger.positions, steps[n - 2].bars, steps[n - 1].bars);
    }
    AllKeepOrder(r.ledger, r.pending, steps[n - 1].bars, n - 1, cfg.costs);
    OrderIgnoresEquity(ProcessAll(r.ledger, r.pending, steps[n - 1].bars, n - 1, cfg.costs),
                       RunTo(cfg, steps, strategy, n).ledger.equity, n - 1);
  }

  lemma OpeningIsOrderly(capital: real, bars: Snapshot)
    ensures Orderly(Opening(capital), 0) && AllPriced([], bars)
  {
  }

  lemma OrderIgnoresEquity(l: Ledger, equity: seq<real>, idx: nat)
    requires Orderly(l, idx)
    ensures Orderly(l.(equity := equity), idx)
  {
  }

  /** The equity recorded at each step is initial capital plus realised P&L minus opening
      commissions plus the unrealised gain of the open book. */
  lemma RecordedEquityDecomposes(cfg: Config, steps: seq<Step>, strategy: Strategy, n: nat)
    requires 0 < n <= |steps| && BarsStay(steps) && OrdersPositive(strategy)
    ensures var l := RunTo(cfg, steps, strategy, n).ledger;
            && |l.equity| == n
            && l.equity[n - 1] == cfg.capital + RealisedPnl(l.closed) - l.openingFees
                                  + UnrealisedGain(l.positions, steps[n - 1].bars)
  {
    hide ProcessAll, MarkValue, EntryCost, UnrealisedGain, RealisedPnl, Orderly, AllPriced;
    RunIsBalanced(cfg, steps, strategy, n);
    RunIsOrderly(cfg, steps, strategy, n);
    var l := RunTo(cfg, steps, strategy, n).ledger;
    EquityDecomposes(l, steps[n - 1].bars, cfg.capital);
    var r := RunTo(cfg, steps, strategy, n - 1);
    AllKeepEquity(r.ledger, r.pending, steps[n - 1].bars, n - 1, cfg.costs);
    RunIsBalanced(cfg, steps, strategy, n - 1);
  }

  // ---------------------------------------------------------------- no look-ahead

  lemma {:induction false} RunSeesOnlyItsSteps(cfg: Config, a: seq<Step>, b: seq<Step>, strategy: Strategy, n: nat)
    requires n <= |a| && n <= |b| && a[..n] == b[..n]
    ensures RunTo(cfg, a, strategy, n) == RunTo(cfg, b, strategy, n)
  {
    if n == 0 {
    } else {
      hide RunStep;
      assert a[..n - 1] == a[..n][..n - 1] && b[..n - 1] == b[..n][..n - 1];
      RunSeesOnlyItsSteps(cfg, a, b, strategy, n - 1);
      assert a[n - 1] == a[..n][n - 1] == b[..n][n - 1] == b[n - 1];
    }
  }

  /** The bars of a series up to a time, in loading order. */
  function UpTo(bs: seq<Bar>, t: int): seq<Bar> {
    if bs == [] then []
    else UpTo(bs[..|bs| - 1], t) + if Ts(bs[|bs| - 1]) <= t then [bs[|bs| - 1]] else []
  }

  ghost predicate AgreeUpTo(a: BarData, b: BarData, t: int) {
    a.Keys == b.Keys && forall s :: s in a ==> UpTo(a[s], t) == UpTo(b[s], t)
  }

  lemma {:induction false} LatestIgnoresTheFuture(bs: seq<Bar>, t: int, horizon: int)
    requires t <= horizon
    ensures Latest(bs, t) == Latest(UpTo(bs, horizon), t)
  {
    if bs == [] {
    } else {
      LatestIgnoresTheFuture(bs[..|bs| - 1], t, horizon);
      var kept := UpTo(bs[..|bs| - 1], horizon);
      if Ts(bs[|bs| - 1]) <= horizon {
        assert (kept + [bs[|bs| - 1]])[..|kept|] == kept;
      } else {
        assert kept + [] == kept;
      }
    }
  }

  predicate HasTime(bs: seq<Bar>, t: int) {
    exists i :: 0 <= i < |bs| && Ts(bs[i]) == t
  }

  lemma HasTimeAppend(bs: seq<Bar>, last: Bar, t: int)
    ensures HasTime(bs + [last], t) <==> HasTime(bs, t) || Ts(last) == t
  {
    if i :| 0 <= i < |bs| && Ts(bs[i]) == t {
      assert (bs + [last])[i] == bs[i];
    }
    assert (bs + [last])[|bs|] == last;
  }

  lemma {:induction false} TimesUpTo(bs: seq<Bar>, horizon: int, t: int)
    requires t <= horizon
    ensures HasTime(bs, t) <==> HasTime(UpTo(bs, horizon), t)
  {
    hide HasTime;
    if bs == [] {
    } else {
      var before, last := bs[..|bs| - 1], bs[|bs| - 1];
      TimesUpTo(before, horizon, t);
      assert bs == before + [last];
      HasTimeAppend(before, last, t);
      HasTimeAppend(UpTo(before, horizon), last, t);
      if Ts(last) > horizon {
        assert UpTo(before, horizon) + [] == UpTo(before, horizon);
      }
    }
  }

  lemma AgreeingSnapshots(a: BarData, b: BarData, horizon: int, t: int)
    requires AgreeUpTo(a, b, horizon) && t <= horizon
    ensures SnapshotAt(a, t) == SnapshotAt(b, t)
  {
    hide Latest, UpTo;
    forall s | s in a ensures Latest(a[s], t) == Latest(b[s], t) {
      LatestIgnoresTheFuture(a[s], t, horizon);
      LatestIgnoresTheFuture(b[s], t, horizon);
    }
  }

  lemma AgreeingTimes(a: BarData, b: BarData, horizon: int, t: int)
    requires AgreeUpTo(a, b, horizon) && t <= horizon && t in AllTimes(a)
    ensures t in AllTimes(b)
  {
    var s, i :| s in a && 0 <= i < |a[s]| && Ts(a[s][i]) == t;
    assert HasTime(a[s], t);
    TimesUpTo(a[s], horizon, t);
    TimesUpTo(b[s], horizon, t);
    assert HasTime(b[s], t);
    var j :| 0 <= j < |b[s]| && Ts(b[s][j]) == t;
    assert s in b;
  }

  /** How many of the ascending times lie at or before the horizon. */
  function Reached(times: seq<int>, horizon: int): (n: nat)
    requires Ascending(times)
    ensures n <= |times|
    ensures forall i :: 0 <= i < n ==> times[i] <= horizon
    ensures forall i :: n <= i < |times| ==> times[i] > horizon
  {
    if times == [] || times[|times| - 1] <= horizon then |times| else Reached(times[..|times| - 1], horizon)
  }

  lemma AgreeingPrefixes(a: BarData, b: BarData, ta: seq<int>, tb: seq<int>, horizon: int)
    requires AgreeUpTo(a, b, horizon) && Enumerates(ta, AllTimes(a)) && Enumerates(tb, AllTimes(b))
    ensures Reached(ta, horizon) == Reached(tb, horizon)
    ensures ta[..Reached(ta, horizon)] == tb[..Reached(tb, horizon)]
  {
    hide AgreeUpTo;
    AgreementIsMutual(a, b, horizon);
    var pa, pb := ta[..Reached(ta, horizon)], tb[..Reached(tb, horizon)];
    forall t ensures t in pa <==> t in ta && t <= horizon {
      if t in ta && t <= horizon {
        var i :| 0 <= i < |ta| && ta[i] == t;
        assert pa[i] == t;
      }
    }
    forall t ensures t in pb <==> t in tb && t <= horizon {
      if t in tb && t <= horizon {
        var i :| 0 <= i < |tb| && tb[i] == t;
        assert pb[i] == t;
      }
    }
    forall t ensures t in pa <==> t in pb {
      if t in pa { AgreeingTimes(a, b, horizon, t); }
      if t in pb { AgreeingTimes(b, a, horizon, t); }
    }
    SameMembersSameSequence(pa, pb);
  }

  lemma AgreementIsMutual(a: BarData, b: BarData, horizon: int)
    requires AgreeUpTo(a, b, horizon)
    ensures AgreeUpTo(b, a, horizon)
  {
  }

  /** Two sets of timestamped bars over the same symbols that agree up to a time give, for any
      deterministic strategy, the same number of steps up to that time and identical cash,
      positions, closed trades, equity history and queued signals after each of them, whatever
      comes later in either set. */
  lemma NoLookAhead(cfg: Config, a: BarData, b: BarData, ta: seq<int>, tb: seq<int>, strategy: Strategy, horizon: int, n: nat)
    requires AgreeUpTo(a, b, horizon) && Enumerates(ta, AllTimes(a)) && Enumerates(tb, AllTimes(b))
    requires n <= Reached(ta, horizon)
    ensures n <= Reached(tb, horizon)
    ensures RunTo(cfg, TimestampSteps(a, ta), strategy, n) == RunTo(cfg, TimestampSteps(b, tb), strategy, n)
  {
    hide AgreeUpTo, SnapshotAt, RunTo;
    AgreeingPrefixes(a, b, ta, tb, horizon);
    var sa, sb := TimestampSteps(a, ta), TimestampSteps(b, tb);
    forall i | 0 <= i < n ensures sa[i] == sb[i] {
      assert ta[i] == ta[..Reached(ta, horizon)][i] == tb[i];
      AgreeingSnapshots(a, b, horizon, ta[i]);
    }
    assert sa[..n] == sb[..n];
    RunSeesOnlyItsSteps(cfg, sa, sb, strategy, n);
  }

  /** The positional fallback looks ahead no further: agreeing on the first n bars of every
      symbol is enough for the first n steps. */
  lemma NoPositionalLookAhead(cfg: Config, a: BarData, b: BarData, na: nat, nb: nat, strategy: Strategy, n: nat)
    requires a.Keys == b.Keys && IsShortest(a, na) && IsShortest(b, nb) && n <= na && n <= nb
    requires forall s :: s in a ==> a[s][..n] == b[s][..n]
    ensures RunTo(cfg, PositionalSteps(a, na), strategy, n) == RunTo(cfg, PositionalSteps(b, nb), strategy, n)
  {
    hide RunTo;
    var sa, sb := PositionalSteps(a, na), PositionalSteps(b, nb);
    forall i | 0 <= i < n ensures sa[i] == sb[i] {
      forall s | s in a ensures a[s][i] == b[s][i] {
        assert a[s][i] == a[s][..n][i] == b[s][..n][i];
      }
    }
    assert sa[..n] == sb[..n];
    RunSeesOnlyItsSteps(cfg, sa, sb, strategy, n);
  }

  /** Positional alignment never loses one either: every step has every symbol. */
  lemma PositionalBarsStay(data: BarData, n: nat)
    requires IsShortest(data, n)
    ensures BarsStay(PositionalSteps(data, n))
  {
    var steps := PositionalSteps(data, n);
    assert forall i :: 0 <= i < |steps| ==> steps[i].bars.Keys == data.Keys;
  }

  /** Timestamp alignment never loses a bar. */
  lemma TimestampBarsStay(data: BarData, times: seq<int>)
    requires Ascending(times)
    ensures BarsStay(TimestampSteps(data, times))
  {
    var steps := TimestampSteps(data, times);
    forall i, j | 0 <= i < j < |steps| ensures steps[i].bars.Keys <= steps[j].bars.Keys {
      forall s | s in steps[i].bars ensures s in steps[j].bars {
        assert Ts(Latest(data[s], times[i]).value) <= times[i] < times[j];
      }
    }
  }

  /** So however the bars are aligned, the steps of a backtest never lose a symbol. */
  lemma StepsKeepBars(data: BarData, steps: seq<Step>)
    requires StepsFor(data, steps)
    ensures BarsStay(steps)
  {
    if Timestamped(data) {
      var times :| Enumerates(times, AllTimes(data)) && steps == TimestampSteps(data, times);
      TimestampBarsStay(data, times);
    } else {
      var n: nat :| IsShortest(data, n) && steps == PositionalSteps(data, n);
      PositionalBarsStay(data, n);
    }
  }

  /** A signal executes on a bar strictly later than the one its strategy saw exactly when its
      symbol has a bar between the two steps; otherwise it executes against that same bar. */
  lemma ExecutesOnLaterBarExactlyWhen(data: BarData, times: seq<int>, i: nat, s: string)
    requires Ascending(times) && 0 < i < |times| && s in SnapshotAt(data, times[i - 1])
    ensures s in SnapshotAt(data, times[i])
    ensures var seen, used := SnapshotAt(data, times[i - 1])[s], SnapshotAt(data, times[i])[s];
            && (Ts(used) > Ts(seen) <==> exists j :: 0 <= j < |data[s]| && times[i - 1] < Ts(data[s][j]) <= times[i])
            && (Ts(used) > Ts(seen) || used == seen)
  {
    var seen := Latest(data[s], times[i - 1]);
    var used := Latest(data[s], times[i]);
    assert times[i - 1] < times[i];
    assert Ts(seen.value) <= times[i];
    if exists j :: 0 <= j < |data[s]| && times[i - 1] < Ts(data[s][j]) <= times[i] {
    } else {
      LatestSkipsEmptyGap(data[s], times[i - 1], times[i]);
    }
  }

  /** Two symbols, of which the second has no bar at the second step: a signal on it decided at
      the first step executes against the very bar it was decided on. */
  lemma StaleBarIsTraded()
    ensures var first, second := Bar(1.0, 1.0, 1.0, 1.0, Some(1)), Bar(2.0, 2.0, 2.0, 2.0, Some(2));
            var data: BarData := map["A" := [first, second], "B" := [first]];
            && Enumerates([1, 2], AllTimes(data))
            && "B" in SnapshotAt(data, 1) && "B" in SnapshotAt(data, 2)
            && SnapshotAt(data, 2)["B"] == SnapshotAt(data, 1)["B"] == first
  {
    var first, second := Bar(1.0, 1.0, 1.0, 1.0, Some(1)), Bar(2.0, 2.0, 2.0, 2.0, Some(2));
    var data: BarData := map["A" := [first, second], "B" := [first]];
    assert data["A"][0] == first && data["A"][1] == second && data["B"][0] == first;
    forall t ensures t in [1, 2] <==> t in AllTimes(data) {
      if t in [1, 2] {
        assert Ts(data["A"][t - 1]) == t;
      }
    }
    assert Latest([first], 1) == Some(first) && Latest([first], 2) == Some(first);
  }

  lemma {:induction false} LatestSkipsEmptyGap(bs: seq<Bar>, t: int, t': int)
    requires t <= t' && forall j :: 0 <= j < |bs| ==> !(t < Ts(bs[j]) <= t')
    ensures Latest(bs, t) == Latest(bs, t')
  {
    if bs == [] {
    } else {
      LatestSkipsEmptyGap(bs[..|bs| - 1], t, t');
    }
  }
}
