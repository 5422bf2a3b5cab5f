/**
  The loops of `long_short_returns` in `services/backtesting/cross_section.py`.
  Library calls on whole vectors (argsort, dot, sums of absolute values) appear as the functions
  they compute.
 */
module BookBuilder {
  import opened Sequences
  import opened Wrappers
  import opened CrossSection
  import opened LongShort
  import opened LongShortRuns

  // ---------------------------------------------------------------- long_short_returns

  /** Offer the candidates in turn and stop as soon as the leg is full. */
  method FillLeg(leg: seq<nat>, candidates: seq<nat>, other: seq<nat>, k: nat) returns (r: seq<nat>)
    ensures r == FillUp(leg, candidates, other, k)
  {
    r := leg;
    var i := 0;
    while i < |candidates|
      invariant 0 <= i <= |candidates|
      invariant r == FillUp(leg, candidates[..i], other, k)
    {
      if |r| >= k {
        break;
      }
      assert candidates[..i + 1][..i] == candidates[..i];
      if candidates[i] !in r && candidates[i] !in other {
        r := r + [candidates[i]];
      }
      i := i + 1;
    }
    if i < |candidates| {
      FullLegIgnoresCandidates(r, candidates[i..], other, k);
    }
    assert candidates == candidates[..i] + candidates[i..];
    FillUpSplits(leg, candidates[..i], candidates[i..], other, k);
  }

  method NewLegs(prevLong: seq<nat>, prevShort: seq<nat>, order: seq<nat>, count: nat, cfg: Config)
      returns (longs: seq<nat>, shorts: seq<nat>)
    ensures Legs(longs, shorts) == LegsFor(Legs(prevLong, prevShort), order, count, cfg)
  {
    var k := LegSize(count, cfg.quantile);
    if cfg.exitQuantile == None {
      longs, shorts := Strongest(order, k), Weakest(order, k);
    } else {
      var keep := ZoneSize(count, k, cfg.exitQuantile.value);
      var longs0 := FirstK(Retained(prevLong, Strongest(order, keep)), k);
      var shorts0 := FirstK(Retained(prevShort, Weakest(order, keep)), k);
      longs := FillLeg(longs0, Reversed(order), shorts0, k);
      shorts := FillLeg(shorts0, order, longs, k);
    }
  }

  method LongShortReturns(ps: seq<Period>, n: nat, cfg: Config)
      returns (returned: array<Option<real>>, turnover: array<Option<real>>)
    requires PeriodsOk(ps, n)
    ensures fresh(returned) && fresh(turnover) && returned.Length == turnover.Length == |ps|
    ensures forall t :: 0 <= t < |ps| ==> Outcome(returned[t], turnover[t]) == Run(ps, n, cfg).1[t]
  {
    hide Run, LegsFor, Weights, Spread, Total, Change, Fill, BothLegs;
    returned := new Option<real>[|ps|](_ => None);
    turnover := new Option<real>[|ps|](_ => None);
    var previous := Fill(n, 0.0);
    var prevLong: seq<nat>, prevShort: seq<nat> := [], [];
    var t := 0;
    NothingRun(n, cfg);
    assert ps[..0] == [];
    while t < |ps|
      invariant 0 <= t <= |ps|
      invariant Run(ps[..t], n, cfg).0 == Book(Legs(prevLong, prevShort), previous)
      invariant forall u :: 0 <= u < t ==> Outcome(returned[u], turnover[u]) == Run(ps, n, cfg).1[u]
      invariant forall u :: t <= u < |ps| ==> returned[u] == None && turnover[u] == None
    {
      var p := ps[t];
      RunStep(ps, t, n, cfg);
      RunExtends(ps, t, n, cfg);
      var count := |UsableIdx(p.signal, p.forward, |p.signal|)|;
      if count < MIN_SYMBOLS_PER_PERIOD {
        previous := Fill(n, 0.0);
        prevLong, prevShort := [], [];
        t := t + 1;
        continue;
      }
      var longs, shorts := NewLegs(prevLong, prevShort, p.order, count, cfg);
      LegsStayInside(Run(ps[..t], n, cfg).0, p, n, cfg);
      var weights := Weights(Legs(longs, shorts), n);
      returned[t] := Some(Spread(weights, p.signal, p.forward));
      turnover[t] := Some(Total(Change(weights, previous)));
      previous := weights;
      prevLong, prevShort := longs, shorts;
      t := t + 1;
    }
  }

  lemma NothingRun(n: nat, cfg: Config)
    ensures Run([], n, cfg).0 == Flat(n)
  {
  }

  lemma LegsStayInside(prev: Book, p: Period, n: nat, cfg: Config)
    requires PeriodOk(p, n) && BookOk(prev, n, cfg) && Traded(p)
    ensures BothLegs(LegsFor(prev.legs, p.order, Count(p), cfg), n)
    ensures var legs := LegsFor(prev.legs, p.order, Count(p), cfg);
            Inside(legs.longs, n) && Inside(legs.shorts, n)
  {
    assert Rebalance(prev, p, n, cfg).0.legs == LegsFor(prev.legs, p.order, Count(p), cfg);
  }
}
