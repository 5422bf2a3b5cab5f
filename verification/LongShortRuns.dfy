/**
  The book builder run over a history of cross-sections: what every rebalance keeps, and
  what the exit buffer changes (`long_short_returns` in `services/backtesting/cross_section.py`).
 */
module LongShortRuns {
  import opened Arithmetic
  import opened Sequences
  import opened Wrappers
  import opened CrossSection
  import opened LongShort

  /** `order` is what argsort returns for the usable symbols of the period. */
  datatype Period = Period(signal: Row, forward: Row, order: seq<nat>)

  datatype Config = Config(quantile: real, exitQuantile: Option<real>)

  datatype Book = Book(legs: Legs, weights: Vector)

  datatype Outcome = Outcome(spread: Option<real>, turnover: Option<real>)

  const NOT_TRADED := Outcome(None, None)

  ghost predicate PeriodOk(p: Period, n: nat) {
    |p.signal| == n && |p.forward| == n && IsRanking(p.order, p.signal, p.forward)
  }

  ghost predicate PeriodsOk(ps: seq<Period>, n: nat) {
    forall t :: 0 <= t < |ps| ==> PeriodOk(ps[t], n)
  }

  function Count(p: Period): nat {
    |UsableIdx(p.signal, p.forward, |p.signal|)|
  }

  predicate Traded(p: Period) {
    Count(p) >= MIN_SYMBOLS_PER_PERIOD
  }

  function Flat(n: nat): Book {
    Book(Legs([], []), Fill(n, 0.0))
  }

  ghost predicate BookOk(book: Book, n: nat, cfg: Config) {
    && BothLegs(book.legs, n)
    && (cfg.exitQuantile.Some? ==> Disjoint(book.legs.longs, book.legs.shorts))
    && book.weights == Weights(book.legs, n)
  }

  lemma RankingCounts(p: Period, n: nat)
    requires PeriodOk(p, n)
    ensures |p.order| == Count(p) && Distinct(p.order) && Inside(p.order, n)
  {
    var idx := UsableIdx(p.signal, p.forward, n);
    DistinctSize(idx);
    DistinctSize(p.order);
    assert Members(idx) == Members(p.order);
    assert forall i :: 0 <= i < |p.order| ==> p.order[i] in p.order;
  }

  function LegsFor(prev: Legs, order: seq<nat>, count: nat, cfg: Config): Legs {
    var k := LegSize(count, cfg.quantile);
    match cfg.exitQuantile
    case None => PlainLegs(order, k)
    case Some(exit) => BufferedLegs(prev, order, k, ZoneSize(count, k, exit))
  }

  lemma PlainLegsWithin(order: seq<nat>, k: nat)
    requires Distinct(order)
    ensures var legs := PlainLegs(order, k);
            Distinct(legs.longs) && Distinct(legs.shorts) && Within(legs.longs, order) && Within(legs.shorts, order)
  {
  }

  /** Whatever the sizes, the new legs are duplicate-free and inside the usable set; with the
      buffer they are also disjoint. */
  lemma LegsForOk(prev: Legs, order: seq<nat>, count: nat, cfg: Config)
    requires Distinct(order) && (cfg.exitQuantile.Some? ==> LegsApart(prev))
    ensures var legs := LegsFor(prev, order, count, cfg);
            && Distinct(legs.longs) && Distinct(legs.shorts)
            && Within(legs.longs, order) && Within(legs.shorts, order)
            && (cfg.exitQuantile.Some? ==> Disjoint(legs.longs, legs.shorts))
  {
    var k := LegSize(count, cfg.quantile);
    match cfg.exitQuantile
    case None => PlainLegsWithin(order, k);
    case Some(exit) => BufferedLegsOk(prev, order, k, ZoneSize(count, k, exit));
  }

  /** One period: too thin a cross-section flattens the book, any other rebalances it. */
  function Rebalance(prev: Book, p: Period, n: nat, cfg: Config): (r: (Book, Outcome))
    requires PeriodOk(p, n) && BookOk(prev, n, cfg)
    ensures BookOk(r.0, n, cfg)
  {
    if !Traded(p) then (Flat(n), NOT_TRADED)
    else
      var legs := LegsFor(prev.legs, p.order, Count(p), cfg);
      RankingCounts(p, n);
      LegsForOk(prev.legs, p.order, Count(p), cfg);
      InsideOf(legs.longs, p.order, n);
      InsideOf(legs.shorts, p.order, n);
      var w := Weights(legs, n);
      (Book(legs, w), Outcome(Some(Spread(w, p.signal, p.forward)), Some(Total(Change(w, prev.weights)))))
  }

  lemma InsideOf(leg: seq<nat>, order: seq<nat>, n: nat)
    requires Within(leg, order) && Inside(order, n)
    ensures Inside(leg, n)
  {
    assert forall i :: 0 <= i < |leg| ==> leg[i] in leg;
  }

  function Run(ps: seq<Period>, n: nat, cfg: Config): (r: (Book, seq<Outcome>))
    requires PeriodsOk(ps, n)
    ensures BookOk(r.0, n, cfg) && |r.1| == |ps|
  {
    if ps == [] then (Flat(n), [])
    else
      var before := Run(ps[..|ps| - 1], n, cfg);
      var last := Rebalance(before.0, ps[|ps| - 1], n, cfg);
      (last.0, before.1 + [last.1])
  }

  // ---------------------------------------------------------------- one rebalance

  /** Two full legs make a neutral book with gross exposure two; two overlapping or missing
      legs do not. */
  lemma NeutralExactlyWhen(legs: Legs, n: nat)
    requires BothLegs(legs, n)
    ensures legs.longs != [] && legs.shorts != [] ==>
              Total(Weights(legs, n)) <= 0.0
              && (Total(Weights(legs, n)) == 0.0 <==> Disjoint(legs.longs, legs.shorts))
    ensures legs.longs != [] && legs.shorts != [] && Disjoint(legs.longs, legs.shorts) ==>
              Total(AbsOf(Weights(legs, n))) == 2.0
    ensures Total(AbsOf(Weights(legs, n))) <= 2.0
  {
    Exposure(legs, n);
    OverlapExactlyWhen(legs, n);
  }

  /** Turnover lies between zero and four whatever the quantiles. */
  lemma TurnoverIsBounded(prev: Book, p: Period, n: nat, cfg: Config)
    requires PeriodOk(p, n) && BookOk(prev, n, cfg) && Traded(p)
    ensures var o := Rebalance(prev, p, n, cfg).1;
            o.turnover.Some? && 0.0 <= o.turnover.value <= 4.0
  {
    var next := Rebalance(prev, p, n, cfg).0;
    NeutralExactlyWhen(prev.legs, n);
    NeutralExactlyWhen(next.legs, n);
    Triangle(next.weights, prev.weights);
  }

  /** Without the buffer the book is never net long, and neutral exactly when two legs fit into
      the cross-section. */
  lemma PlainBookIsNeutralExactlyWhen(prev: Book, p: Period, n: nat, quantile: real)
    requires PeriodOk(p, n) && BookOk(prev, n, Config(quantile, None)) && Traded(p)
    ensures Total(Rebalance(prev, p, n, Config(quantile, None)).0.weights) == 0.0
            <==> 2 * LegSize(Count(p), quantile) <= Count(p)
    ensures Total(Rebalance(prev, p, n, Config(quantile, None)).0.weights) <= 0.0
  {
    var k := LegSize(Count(p), quantile);
    RankingCounts(p, n);
    var legs := Rebalance(prev, p, n, Config(quantile, None)).0.legs;
    assert legs == PlainLegs(p.order, k);
    PlainLegsDisjointExactlyWhen(p.order, k);
    NeutralExactlyWhen(legs, n);
  }

  /** The previous shorts that are still usable. */
  function ShortsLeft(prev: Book, p: Period): set<nat> {
    Members(prev.legs.shorts) * Members(p.order)
  }

  lemma MembersHold(xs: seq<nat>)
    ensures xs == [] <==> Members(xs) == {}
  {
    if xs != [] {
      assert xs[0] in Members(xs);
    }
  }

  /** Which legs a period with the buffer ends up holding: both, if a leg is smaller than the
      cross-section; otherwise the previous shorts keep what is still theirs and the longs take
      the rest. */
  lemma BufferedLegsHeldExactlyWhen(prev: Legs, order: seq<nat>, k: nat, keep: nat)
    requires LegsApart(prev) && Distinct(order) && 0 < k <= keep && order != []
    ensures var legs, left := BufferedLegs(prev, order, k, keep), |Members(prev.shorts) * Members(order)|;
            legs.longs != [] && legs.shorts != [] <==> k < |order| || 0 < left < |order|
    ensures var legs := BufferedLegs(prev, order, k, keep); legs.longs != [] || legs.shorts != []
  {
    hide BufferedLegs;
    var legs, left := BufferedLegs(prev, order, k, keep), Members(prev.shorts) * Members(order);
    if k < |order| {
      BufferedLegsAreHeld(prev, order, k, keep);
    } else {
      OversizedLegs(prev, order, k, keep);
      MembersHold(legs.longs);
      MembersHold(legs.shorts);
      DistinctSize(order);
      MembersHold(order);
      SubsetSize(left, Members(order));
      var rest := Members(order) - left;
      assert Members(order) == rest + left;
      assert |left| == 0 <==> left == {};
    }
  }

  /** With the buffer the legs never overlap, and the book is neutral exactly when a leg is
      smaller than the cross-section, or some of the previous shorts, but not the whole
      cross-section, are still usable. */
  lemma BufferedBookIsNeutralExactlyWhen(prev: Book, p: Period, n: nat, quantile: real, exit: real)
    requires PeriodOk(p, n) && BookOk(prev, n, Config(quantile, Some(exit))) && Traded(p)
    ensures var book := Rebalance(prev, p, n, Config(quantile, Some(exit))).0;
            && (Total(book.weights) == 0.0 <==>
                  LegSize(Count(p), quantile) < Count(p) || 0 < |ShortsLeft(prev, p)| < Count(p))
            && (Total(book.weights) == 0.0 ==> Total(AbsOf(book.weights)) == 2.0)
  {
    var k, cfg := LegSize(Count(p), quantile), Config(quantile, Some(exit));
    var legs := Rebalance(prev, p, n, cfg).0.legs;
    Rebalanced(prev, p, n, cfg);
    RankingCounts(p, n);
    BufferedLegsHeldExactlyWhen(prev.legs, p.order, k, ZoneSize(Count(p), k, exit));
    hide Rebalance, LegsFor, BufferedLegs, LegSize, Weights, Total, IsRanking, Count, Overlap;
    Exposure(legs, n);
    OverlapExactlyWhen(legs, n);
  }

  /** The failing input of the buffered builder: at quantile one nobody is left to be sold
      short, and the first book is all long. */
  lemma WholeQuantileIsNotNeutral(exit: real)
    ensures PeriodOk(Ladder(20), 20) && BookOk(Flat(20), 20, Config(1.0, Some(exit)))
    ensures Total(Rebalance(Flat(20), Ladder(20), 20, Config(1.0, Some(exit))).0.weights) != 0.0
  {
    LadderIsPeriod(20);
    FlatIsOk(20, Config(1.0, Some(exit)));
    assert LegSize(20, 1.0) == 20;
    assert ShortsLeft(Flat(20), Ladder(20)) == {};
    hide Rebalance, Ladder, Count, PeriodOk, BookOk, LegSize;
    BufferedBookIsNeutralExactlyWhen(Flat(20), Ladder(20), 20, 1.0, exit);
  }

  lemma FlatIsOk(n: nat, cfg: Config)
    ensures BookOk(Flat(n), n, cfg)
  {
    assert Run([], n, cfg).0 == Flat(n);
  }

  /** The promise of a market-neutral spread fails at quantile one half: with 23 usable symbols
      each leg takes 12 and the book is net short. */
  lemma HalfQuantileIsNotNeutral(prev: Book, p: Period, n: nat)
    requires PeriodOk(p, n) && BookOk(prev, n, Config(0.5, None)) && Count(p) == 23
    ensures Total(Rebalance(prev, p, n, Config(0.5, None)).0.weights) < 0.0
  {
    HalfOf23();
    PlainBookIsNeutralExactlyWhen(prev, p, n, 0.5);
  }

  /** Such a period exists: 23 symbols, ranked by their number. */
  function Ladder(n: nat): Period {
    Period(seq(n, i => Some(i as real)), seq(n, _ => Some(0.0)), seq(n, i => i))
  }

  lemma LadderIsPeriod(n: nat)
    ensures PeriodOk(Ladder(n), n) && Count(Ladder(n)) == n
  {
    var p := Ladder(n);
    assert forall i :: 0 <= i < n ==> p.order[i] == i;
    forall s: nat | s < n ensures s in p.order {
      assert p.order[s] == s;
    }
    assert PeriodOk(p, n);
    RankingCounts(p, n);
  }

  lemma HalfOf23()
    ensures LegSize(23, 0.5) == 12
  {
  }

  ghost predicate Balanced(book: Book, o: Outcome, p: Period, n: nat, cfg: Config)
    requires BookOk(book, n, cfg)
  {
    var k := LegSize(Count(p), cfg.quantile);
    var f := Masked(p.signal, p.forward, n);
    && LegsOk(book.legs, p.order, k)
    && Total(book.weights) == 0.0
    && Total(AbsOf(book.weights)) == 2.0
    && o.spread == Some(Mean(book.legs.longs, f) - Mean(book.legs.shorts, f))
    && o.turnover.Some? && 0.0 <= o.turnover.value <= 4.0
  }

  lemma LegsForFit(prev: Legs, order: seq<nat>, count: nat, cfg: Config)
    requires Distinct(order) && (cfg.exitQuantile.Some? ==> LegsApart(prev))
    requires 2 * LegSize(count, cfg.quantile) <= |order|
    ensures LegsOk(LegsFor(prev, order, count, cfg), order, LegSize(count, cfg.quantile))
    ensures LegSize(count, cfg.quantile) > 0
  {
    var k := LegSize(count, cfg.quantile);
    match cfg.exitQuantile
    case None => PlainLegsOk(order, k);
    case Some(exit) => BufferedLegsOk(prev, order, k, ZoneSize(count, k, exit));
  }

  /** The main fact about a rebalance: k longs, k shorts, no symbol twice, nothing unusable,
      net zero, gross two, and the return is the difference of the two means. */
  lemma RebalanceIsBalanced(prev: Book, p: Period, n: nat, cfg: Config)
    requires PeriodOk(p, n) && BookOk(prev, n, cfg) && Traded(p)
    requires 2 * LegSize(Count(p), cfg.quantile) <= Count(p)
    ensures var r := Rebalance(prev, p, n, cfg); Balanced(r.0, r.1, p, n, cfg)
  {
    hide Rebalance, LegsFor, LegSize, Weights, Total, Masked, Mean, Spread, IsRanking, LegsOk, Count;
    var legs := LegsFor(prev.legs, p.order, Count(p), cfg);
    RankingCounts(p, n);
    TurnoverIsBounded(prev, p, n, cfg);
    Rebalanced(prev, p, n, cfg);
    LegsForFit(prev.legs, p.order, Count(p), cfg);
    FullLegsBalance(legs, p, n, LegSize(Count(p), cfg.quantile));
  }

  lemma Rebalanced(prev: Book, p: Period, n: nat, cfg: Config)
    requires PeriodOk(p, n) && BookOk(prev, n, cfg) && Traded(p)
    ensures var r := Rebalance(prev, p, n, cfg);
            && r.0.legs == LegsFor(prev.legs, p.order, Count(p), cfg)
            && r.1.spread == Some(Spread(Weights(r.0.legs, n), p.signal, p.forward))
  {
  }

  lemma FullLegsBalance(legs: Legs, p: Period, n: nat, k: nat)
    requires BothLegs(legs, n) && LegsOk(legs, p.order, k) && k > 0
    ensures Total(Weights(legs, n)) == 0.0 && Total(AbsOf(Weights(legs, n))) == 2.0
    ensures var f := Masked(p.signal, p.forward, n);
            Spread(Weights(legs, n), p.signal, p.forward) == Mean(legs.longs, f) - Mean(legs.shorts, f)
  {
    hide Weights, Total, Masked, Mean, Spread;
    NeutralExactlyWhen(legs, n);
    SpreadIsMeanDifference(legs, n, p.signal, p.forward);
  }

  lemma ChangeFromZeros(w: Vector)
    ensures Change(w, Fill(|w|, 0.0)) == AbsOf(w)
  {
  }

  /** After a reset the whole book is bought anew: turnover two. */
  lemma TurnoverAfterReset(p: Period, n: nat, cfg: Config)
    requires PeriodOk(p, n) && Traded(p) && BookOk(Flat(n), n, cfg)
    requires 2 * LegSize(Count(p), cfg.quantile) <= Count(p)
    ensures Rebalance(Flat(n), p, n, cfg).1.turnover == Some(2.0)
  {
    RebalanceIsBalanced(Flat(n), p, n, cfg);
    ChangeFromZeros(Rebalance(Flat(n), p, n, cfg).0.weights);
  }

  /** A move common to every symbol changes neither the legs, the turnover nor the return. */
  lemma MarketMoveChangesNothing(prev: Book, p: Period, n: nat, cfg: Config, c: real)
    requires PeriodOk(p, n) && BookOk(prev, n, cfg)
    requires 2 * LegSize(Count(p), cfg.quantile) <= Count(p)
    ensures PeriodOk(p.(forward := Shifted(p.forward, c)), n)
    ensures Rebalance(prev, p.(forward := Shifted(p.forward, c)), n, cfg) == Rebalance(prev, p, n, cfg)
  {
    var moved := p.(forward := Shifted(p.forward, c));
    assert forall s: nat :: Usable(p.signal, moved.forward, s) <==> Usable(p.signal, p.forward, s);
    RankingCounts(p, n);
    RankingCounts(moved, n);
    if Traded(p) {
      RebalanceIsBalanced(prev, p, n, cfg);
      MarketMoveEarnsNothing(Rebalance(prev, p, n, cfg).0.legs, n, p.signal, p.forward, c);
    }
  }

  // ---------------------------------------------------------------- whole runs

  lemma {:induction false} RunExtends(ps: seq<Period>, t: nat, n: nat, cfg: Config)
    requires PeriodsOk(ps, n) && t < |ps|
    ensures Run(ps, n, cfg).1[t] == Rebalance(Run(ps[..t], n, cfg).0, ps[t], n, cfg).1
  {
    hide Rebalance, BookOk, PeriodOk;
    var last := |ps| - 1;
    if t < last {
      assert ps[..last][..t] == ps[..t];
      RunExtends(ps[..last], t, n, cfg);
      assert Run(ps, n, cfg).1[t] == Run(ps[..last], n, cfg).1[t];
    }
  }

  lemma RunStep(ps: seq<Period>, t: nat, n: nat, cfg: Config)
    requires PeriodsOk(ps, n) && t < |ps|
    ensures Run(ps[..t + 1], n, cfg).0 == Rebalance(Run(ps[..t], n, cfg).0, ps[t], n, cfg).0
  {
    assert ps[..t + 1][..t] == ps[..t];
  }

  /** Two legs fit into the cross-section of the period. */
  predicate LegsFit(p: Period, quantile: real) {
    2 * LegSize(Count(p), quantile) <= Count(p)
  }

  /** In every run, whatever the other periods look like, a rebalance into which two legs fit is
      balanced, and the first one after a reset turns over exactly two.  (Below quantile one half
      two legs always fit, `LegsAlwaysFitExactlyWhen`.) */
  lemma EveryRebalanceIsBalanced(ps: seq<Period>, n: nat, cfg: Config, t: nat)
    requires PeriodsOk(ps, n) && t < |ps| && (Traded(ps[t]) ==> LegsFit(ps[t], cfg.quantile))
    ensures Traded(ps[t]) ==> Balanced(Run(ps[..t + 1], n, cfg).0, Run(ps, n, cfg).1[t], ps[t], n, cfg)
    ensures Traded(ps[t]) && (t == 0 || !Traded(ps[t - 1])) ==> Run(ps, n, cfg).1[t].turnover == Some(2.0)
    ensures !Traded(ps[t]) ==> Run(ps, n, cfg).1[t] == NOT_TRADED && Run(ps[..t + 1], n, cfg).0 == Flat(n)
  {
    RunExtends(ps, t, n, cfg);
    RunStep(ps, t, n, cfg);
    if t > 0 {
      RunStep(ps, t - 1, n, cfg);
    }
    if Traded(ps[t]) {
      RebalanceIsBalanced(Run(ps[..t], n, cfg).0, ps[t], n, cfg);
      if t == 0 || !Traded(ps[t - 1]) {
        TurnoverAfterReset(ps[t], n, cfg);
      }
    }
  }

  // ---------------------------------------------------------------- a buffer no wider than the leg

  lemma SameMembersSameWeights(a: Legs, b: Legs, n: nat)
    requires BothLegs(a, n) && BothLegs(b, n)
    requires Members(a.longs) == Members(b.longs) && Members(a.shorts) == Members(b.shorts)
    ensures Weights(a, n) == Weights(b, n)
  {
    DistinctSize(a.longs);
    DistinctSize(b.longs);
    DistinctSize(a.shorts);
    DistinctSize(b.shorts);
    assert forall s :: s in a.longs <==> s in Members(a.longs);
    assert forall s :: s in b.longs <==> s in Members(b.longs);
    assert forall s :: s in a.shorts <==> s in Members(a.shorts);
    assert forall s :: s in b.shorts <==> s in Members(b.shorts);
    hide Members, Put;
  }

  lemma NarrowZone(count: nat, quantile: real, exit: real)
    requires exit <= quantile
    ensures ZoneSize(count, LegSize(count, quantile), exit) == LegSize(count, quantile)
  {
    assert count as real * exit <= count as real * quantile;
    RoundIsMonotone(count as real * exit, count as real * quantile);
  }

  /** With an exit quantile no wider than the entry quantile the buffered builder earns and
      trades, period by period, exactly what the plain one does. */
  lemma {:induction false} NarrowBufferIsNoBuffer(ps: seq<Period>, n: nat, quantile: real, exit: real)
    requires PeriodsOk(ps, n) && exit <= quantile
    requires forall t :: 0 <= t < |ps| && Traded(ps[t]) ==> LegsFit(ps[t], quantile)
    ensures Run(ps, n, Config(quantile, Some(exit))).1 == Run(ps, n, Config(quantile, None)).1
    ensures Run(ps, n, Config(quantile, Some(exit))).0.weights == Run(ps, n, Config(quantile, None)).0.weights
  {
    if ps == [] {
    } else {
      var before, p := ps[..|ps| - 1], ps[|ps| - 1];
      NarrowBufferIsNoBuffer(before, n, quantile, exit);
      NarrowBufferStep(Run(before, n, Config(quantile, Some(exit))).0,
                       Run(before, n, Config(quantile, None)).0, p, n, quantile, exit);
    }
  }

  lemma NarrowBufferStep(buffered: Book, plain: Book, p: Period, n: nat, quantile: real, exit: real)
    requires PeriodOk(p, n) && exit <= quantile && (Traded(p) ==> LegsFit(p, quantile))
    requires BookOk(buffered, n, Config(quantile, Some(exit))) && BookOk(plain, n, Config(quantile, None))
    requires buffered.weights == plain.weights
    ensures var a := Rebalance(buffered, p, n, Config(quantile, Some(exit)));
            var b := Rebalance(plain, p, n, Config(quantile, None));
            a.1 == b.1 && a.0.weights == b.0.weights
  {
    if Traded(p) {
      var k := LegSize(Count(p), quantile);
      RankingCounts(p, n);
      NarrowZone(Count(p), quantile, exit);
      NoBufferMeansPlain(buffered.legs, p.order, k);
      var a := Rebalance(buffered, p, n, Config(quantile, Some(exit))).0;
      var b := Rebalance(plain, p, n, Config(quantile, None)).0;
      SameMembersSameWeights(a.legs, b.legs, n);
    }
  }
}
