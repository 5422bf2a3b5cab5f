/**
  What the turnover of a rebalance measures: the weight that moves between two books
  (`long_short_returns` in `services/backtesting/cross_section.py`).
 */
module Turnover {
  import opened Arithmetic
  import opened Sequences
  import opened Wrappers
  import opened CrossSection
  import opened LongShort
  import opened LongShortRuns

  // ---------------------------------------------------------------- no turnover, same book

  lemma {:induction false} NoChangeExactlyWhenSame(a: Vector, b: Vector)
    requires |a| == |b|
    ensures Total(Change(a, b)) >= 0.0
    ensures Total(Change(a, b)) == 0.0 <==> a == b
  {
    if a == [] {
    } else {
      var m := |a| - 1;
      NoChangeExactlyWhenSame(a[..m], b[..m]);
      assert Change(a, b)[..m] == Change(a[..m], b[..m]);
      assert a == a[..m] + [a[m]] && b == b[..m] + [b[m]];
    }
  }

  // ---------------------------------------------------------------- counting symbols

  /** The symbols below n that are in one leg and not in another. */
  function Only(leg: seq<nat>, other: seq<nat>, n: nat): nat {
    if n == 0 then 0 else Only(leg, other, n - 1) + if n - 1 in leg && n - 1 !in other then 1 else 0
  }

  function Both(leg: seq<nat>, other: seq<nat>, n: nat): nat {
    if n == 0 then 0 else Both(leg, other, n - 1) + if n - 1 in leg && n - 1 in other then 1 else 0
  }

  lemma {:induction false} CountsAreSizes(leg: seq<nat>, other: seq<nat>, n: nat)
    ensures Only(leg, other, n) == |set s | s in leg && s !in other && s < n|
    ensures Both(leg, other, n) == |set s | s in leg && s in other && s < n|
  {
    var only, both := set s | s in leg && s !in other && s < n, set s | s in leg && s in other && s < n;
    if n == 0 {
      assert only == {} && both == {};
    } else {
      CountsAreSizes(leg, other, n - 1);
      var only', both' := set s | s in leg && s !in other && s < n - 1, set s | s in leg && s in other && s < n - 1;
      assert only == if n - 1 in leg && n - 1 !in other then only' + {n - 1} else only';
      assert both == if n - 1 in leg && n - 1 in other then both' + {n - 1} else both';
    }
  }

  // ---------------------------------------------------------------- one leg

  function LegWeight(leg: seq<nat>, s: nat): real {
    if s in leg then Share(leg) else 0.0
  }

  function LegChange(leg: seq<nat>, leg': seq<nat>, s: nat): real {
    Abs(LegWeight(leg', s) - LegWeight(leg, s))
  }

  /** What leaves one leg, what enters it, and the rescaling of what stays. */
  function LegTurnover(leg: seq<nat>, leg': seq<nat>, n: nat): real {
    Times(Only(leg, leg', n) as real, Share(leg)) + Times(Only(leg', leg, n) as real, Share(leg'))
    + Times(Both(leg, leg', n) as real, Abs(Share(leg') - Share(leg)))
  }

  lemma OneMoreTime(m: nat, x: real)
    ensures Times((m + 1) as real, x) == Times(m as real, x) + x
  {
  }

  lemma LegTurnoverStep(leg: seq<nat>, leg': seq<nat>, n: nat)
    ensures LegTurnover(leg, leg', n + 1) == LegTurnover(leg, leg', n) + LegChange(leg, leg', n)
  {
    ShareSign(leg);
    ShareSign(leg');
    OneMoreTime(Only(leg, leg', n), Share(leg));
    OneMoreTime(Only(leg', leg, n), Share(leg'));
    OneMoreTime(Both(leg, leg', n), Abs(Share(leg') - Share(leg)));
    hide Times, Share;
  }

  lemma NoLegTurnover(leg: seq<nat>, leg': seq<nat>)
    ensures LegTurnover(leg, leg', 0) == 0.0
  {
  }

  // ---------------------------------------------------------------- both legs

  lemma WeightOf(legs: Legs, n: nat, s: nat)
    requires BothLegs(legs, n) && Disjoint(legs.longs, legs.shorts) && s < n
    ensures Weights(legs, n)[s] == LegWeight(legs.longs, s) - LegWeight(legs.shorts, s)
  {
    hide Share;
  }

  lemma ChangeOfWeight(legs: Legs, legs': Legs, n: nat, s: nat)
    requires BothLegs(legs, n) && Disjoint(legs.longs, legs.shorts)
    requires BothLegs(legs', n) && Disjoint(legs'.longs, legs'.shorts) && s < n
    ensures Change(Weights(legs', n), Weights(legs, n))[s]
            == LegChange(legs.longs, legs'.longs, s) + LegChange(legs.shorts, legs'.shorts, s)
  {
    WeightOf(legs, n, s);
    WeightOf(legs', n, s);
    ShareSign(legs.longs);
    ShareSign(legs.shorts);
    ShareSign(legs'.longs);
    ShareSign(legs'.shorts);
    hide Weights, Share;
  }

  lemma {:induction false} TurnoverUpTo(legs: Legs, legs': Legs, n: nat, m: nat)
    requires BothLegs(legs, n) && Disjoint(legs.longs, legs.shorts)
    requires BothLegs(legs', n) && Disjoint(legs'.longs, legs'.shorts) && m <= n
    ensures Total(Change(Weights(legs', n), Weights(legs, n))[..m])
            == LegTurnover(legs.longs, legs'.longs, m) + LegTurnover(legs.shorts, legs'.shorts, m)
  {
    hide LegTurnover, LegChange, Weights;
    var v := Change(Weights(legs', n), Weights(legs, n));
    if m == 0 {
      NoLegTurnover(legs.longs, legs'.longs);
      NoLegTurnover(legs.shorts, legs'.shorts);
    } else {
      TurnoverUpTo(legs, legs', n, m - 1);
      assert v[..m][..m - 1] == v[..m - 1];
      ChangeOfWeight(legs, legs', n, m - 1);
      LegTurnoverStep(legs.longs, legs'.longs, m - 1);
      LegTurnoverStep(legs.shorts, legs'.shorts, m - 1);
    }
  }

  /** Any two books whose legs do not overlap, of whatever sizes: the turnover is what leaves and
      enters each leg at that leg's share, and the rescaling of what stays in it. */
  lemma TurnoverOfLegs(legs: Legs, legs': Legs, n: nat)
    requires BothLegs(legs, n) && Disjoint(legs.longs, legs.shorts)
    requires BothLegs(legs', n) && Disjoint(legs'.longs, legs'.shorts)
    ensures Total(Change(Weights(legs', n), Weights(legs, n)))
            == LegTurnover(legs.longs, legs'.longs, n) + LegTurnover(legs.shorts, legs'.shorts, n)
  {
    var v := Change(Weights(legs', n), Weights(legs, n));
    assert v[..n] == v;
    TurnoverUpTo(legs, legs', n, n);
  }

  // ---------------------------------------------------------------- full legs

  function HeldBy(legs: Legs): set<nat> {
    Members(legs.longs) + Members(legs.shorts)
  }

  /** The symbols that are long in one book and short in the other. */
  function Switched(legs: Legs, legs': Legs): set<nat> {
    Members(legs.longs) * Members(legs'.shorts) + Members(legs.shorts) * Members(legs'.longs)
  }

  /** Symbols bought into or sold out of the book count once, symbols that switch sides twice. */
  function Moves(legs: Legs, legs': Legs): nat {
    |HeldBy(legs') - HeldBy(legs)| + |HeldBy(legs) - HeldBy(legs')| + 2 * |Switched(legs, legs')|
  }

  lemma OnlyIsDifference(leg: seq<nat>, other: seq<nat>, n: nat)
    requires Inside(leg, n)
    ensures Only(leg, other, n) == |Members(leg) - Members(other)|
  {
    CountsAreSizes(leg, other, n);
    assert forall s :: s in leg ==> s < n;
    assert (set s | s in leg && s !in other && s < n) == Members(leg) - Members(other);
  }

  lemma SizeOfUnion<T>(a: set<T>, b: set<T>)
    requires a !! b
    ensures |a + b| == |a| + |b|
  {
  }

  lemma LegMovesAreMoves(legs: Legs, legs': Legs, n: nat)
    requires BothLegs(legs, n) && Disjoint(legs.longs, legs.shorts)
    requires BothLegs(legs', n) && Disjoint(legs'.longs, legs'.shorts)
    ensures Only(legs.longs, legs'.longs, n) + Only(legs'.longs, legs.longs, n)
            + Only(legs.shorts, legs'.shorts, n) + Only(legs'.shorts, legs.shorts, n) == Moves(legs, legs')
  {
    OnlyIsDifference(legs.longs, legs'.longs, n);
    OnlyIsDifference(legs'.longs, legs.longs, n);
    OnlyIsDifference(legs.shorts, legs'.shorts, n);
    OnlyIsDifference(legs'.shorts, legs.shorts, n);
    MovesOfSets(Members(legs.longs), Members(legs.shorts), Members(legs'.longs), Members(legs'.shorts));
  }

  lemma MovesOfSets(l: set<nat>, s: set<nat>, l': set<nat>, s': set<nat>)
    requires l !! s && l' !! s'
    ensures |l - l'| + |l' - l| + |s - s'| + |s' - s|
            == |(l' + s') - (l + s)| + |(l + s) - (l' + s')| + 2 * |l * s' + s * l'|
  {
    assert l - l' == (l - l' - s') + l * s';
    assert s - s' == (s - s' - l') + s * l';
    assert l' - l == (l' - l - s) + s * l';
    assert s' - s == (s' - s - l) + l * s';
    assert (l + s) - (l' + s') == (l - l' - s') + (s - s' - l');
    assert (l' + s') - (l + s) == (l' - l - s) + (s' - s - l);
    SizeOfUnion(l * s', s * l');
  }

  lemma EqualShares(leg: seq<nat>, leg': seq<nat>, n: nat, k: nat)
    requires |leg| == |leg'| == k && k > 0
    ensures LegTurnover(leg, leg', n) * k as real == (Only(leg, leg', n) + Only(leg', leg, n)) as real
  {
    hide *;
    var out, enter, share := Only(leg, leg', n), Only(leg', leg, n), 1.0 / k as real;
    ShareOfSize(leg, k);
    ShareOfSize(leg', k);
    LegTurnoverIs(leg, leg', n);
    SharesOf(out, k);
    SharesOf(enter, k);
    NothingRescaled(Both(leg, leg', n), share);
    SumTimes(Times(out as real, share), Times(enter as real, share), k, out, enter);
  }

  lemma ShareOfSize(leg: seq<nat>, k: nat)
    requires |leg| == k && k > 0
    ensures Share(leg) == 1.0 / k as real
  {
  }

  lemma LegTurnoverIs(leg: seq<nat>, leg': seq<nat>, n: nat)
    ensures LegTurnover(leg, leg', n)
            == Times(Only(leg, leg', n) as real, Share(leg)) + Times(Only(leg', leg, n) as real, Share(leg'))
               + Times(Both(leg, leg', n) as real, Abs(Share(leg') - Share(leg)))
  {
    hide Times, Share, Only, Both;
  }

  lemma SharesOf(count: nat, k: nat)
    requires k > 0
    ensures Times(count as real, 1.0 / k as real) * k as real == count as real
  {
    var share := 1.0 / k as real;
    assert share * k as real == 1.0;
    assert count as real * share * k as real == count as real * (share * k as real);
  }

  lemma NothingRescaled(count: nat, share: real)
    ensures Times(count as real, Abs(share - share)) == 0.0
  {
  }

  /** Two books with k symbols in each leg: the turnover is one k-th for every symbol that enters
      or leaves the book and two k-ths for every one that switches sides. */
  lemma TurnoverCountsMoves(legs: Legs, legs': Legs, n: nat, k: nat)
    requires BothLegs(legs, n) && Disjoint(legs.longs, legs.shorts)
    requires BothLegs(legs', n) && Disjoint(legs'.longs, legs'.shorts)
    requires |legs.longs| == |legs.shorts| == |legs'.longs| == |legs'.shorts| == k && k > 0
    ensures Total(Change(Weights(legs', n), Weights(legs, n))) * k as real == Moves(legs, legs') as real
  {
    hide *;
    TurnoverOfLegs(legs, legs', n);
    EqualShares(legs.longs, legs'.longs, n, k);
    EqualShares(legs.shorts, legs'.shorts, n, k);
    LegMovesAreMoves(legs, legs', n);
    SumTimes(LegTurnover(legs.longs, legs'.longs, n), LegTurnover(legs.shorts, legs'.shorts, n), k,
             Only(legs.longs, legs'.longs, n) + Only(legs'.longs, legs.longs, n),
             Only(legs.shorts, legs'.shorts, n) + Only(legs'.shorts, legs.shorts, n));
  }

  lemma SumTimes(x: real, y: real, k: nat, a: nat, b: nat)
    requires x * k as real == a as real && y * k as real == b as real
    ensures (x + y) * k as real == (a + b) as real
  {
  }

  // ---------------------------------------------------------------- over a run

  /** The book after t periods of a run. */
  function BookAt(ps: seq<Period>, n: nat, cfg: Config, t: nat): (book: Book)
    requires PeriodsOk(ps, n) && t <= |ps|
    ensures BothLegs(book.legs, n) && book.weights == Weights(book.legs, n)
  {
    Run(ps[..t], n, cfg).0
  }

  lemma TurnoverAt(ps: seq<Period>, n: nat, cfg: Config, t: nat)
    requires PeriodsOk(ps, n) && t < |ps|
    ensures Run(ps, n, cfg).1[t].turnover.Some? <==> Traded(ps[t])
    ensures Traded(ps[t]) ==>
              Run(ps, n, cfg).1[t].turnover == Some(Total(Change(BookAt(ps, n, cfg, t + 1).weights, BookAt(ps, n, cfg, t).weights)))
  {
    RunExtends(ps, t, n, cfg);
    RunStep(ps, t, n, cfg);
    hide Run, LegsFor, Spread, BookOk;
  }

  /** In every run a traded period turns nothing over exactly when it leaves the weights as the
      period before left them. */
  lemma NoTurnoverExactlyWhenSameWeights(ps: seq<Period>, n: nat, cfg: Config, t: nat)
    requires PeriodsOk(ps, n) && t < |ps| && Traded(ps[t])
    ensures Run(ps, n, cfg).1[t].turnover == Some(0.0) <==> BookAt(ps, n, cfg, t + 1).weights == BookAt(ps, n, cfg, t).weights
  {
    TurnoverAt(ps, n, cfg, t);
    NoChangeExactlyWhenSame(BookAt(ps, n, cfg, t + 1).weights, BookAt(ps, n, cfg, t).weights);
  }

  /** In every run, between two full books of k symbols a leg, turnover counts the moves. */
  lemma RunTurnoverCountsMoves(ps: seq<Period>, n: nat, cfg: Config, t: nat, k: nat)
    requires PeriodsOk(ps, n) && t < |ps| && Traded(ps[t]) && k > 0
    requires var before, after := BookAt(ps, n, cfg, t).legs, BookAt(ps, n, cfg, t + 1).legs;
             && Disjoint(before.longs, before.shorts) && Disjoint(after.longs, after.shorts)
             && |before.longs| == |before.shorts| == |after.longs| == |after.shorts| == k
    ensures Run(ps, n, cfg).1[t].turnover.Some?
    ensures Run(ps, n, cfg).1[t].turnover.value * k as real == Moves(BookAt(ps, n, cfg, t).legs, BookAt(ps, n, cfg, t + 1).legs) as real
  {
    hide *;
    TurnoverAt(ps, n, cfg, t);
    TurnoverCountsMoves(BookAt(ps, n, cfg, t).legs, BookAt(ps, n, cfg, t + 1).legs, n, k);
  }

  /** In every run of disjoint legs of any sizes, the first book included. */
  lemma RunTurnoverOfLegs(ps: seq<Period>, n: nat, cfg: Config, t: nat)
    requires PeriodsOk(ps, n) && t < |ps| && Traded(ps[t])
    requires var before, after := BookAt(ps, n, cfg, t).legs, BookAt(ps, n, cfg, t + 1).legs;
             Disjoint(before.longs, before.shorts) && Disjoint(after.longs, after.shorts)
    ensures var before, after := BookAt(ps, n, cfg, t).legs, BookAt(ps, n, cfg, t + 1).legs;
            Run(ps, n, cfg).1[t].turnover
            == Some(LegTurnover(before.longs, after.longs, n) + LegTurnover(before.shorts, after.shorts, n))
  {
    hide *;
    TurnoverAt(ps, n, cfg, t);
    TurnoverOfLegs(BookAt(ps, n, cfg, t).legs, BookAt(ps, n, cfg, t + 1).legs, n);
  }

  lemma FullBook(ps: seq<Period>, n: nat, cfg: Config, t: nat)
    requires PeriodsOk(ps, n) && t < |ps| && Traded(ps[t]) && LegsFit(ps[t], cfg.quantile)
    ensures var legs, k := BookAt(ps, n, cfg, t + 1).legs, LegSize(Count(ps[t]), cfg.quantile);
            k > 0 && Disjoint(legs.longs, legs.shorts) && |legs.longs| == |legs.shorts| == k
  {
    hide Run, Weights, Total, Masked, Mean, Count, IsRanking;
    EveryRebalanceIsBalanced(ps, n, cfg, t);
  }

  /** So in every run, with or without the buffer, two consecutive traded periods whose legs fit
      and are of one size k turn over one k-th for each symbol that enters or leaves the book and
      two k-ths for each that switches sides. */
  lemma ConsecutiveRebalancesCountMoves(ps: seq<Period>, n: nat, cfg: Config, t: nat)
    requires PeriodsOk(ps, n) && 0 < t < |ps| && Traded(ps[t - 1]) && Traded(ps[t])
    requires LegsFit(ps[t - 1], cfg.quantile) && LegsFit(ps[t], cfg.quantile)
    requires LegSize(Count(ps[t - 1]), cfg.quantile) == LegSize(Count(ps[t]), cfg.quantile)
    ensures Run(ps, n, cfg).1[t].turnover.Some?
    ensures Run(ps, n, cfg).1[t].turnover.value * LegSize(Count(ps[t]), cfg.quantile) as real
            == Moves(BookAt(ps, n, cfg, t).legs, BookAt(ps, n, cfg, t + 1).legs) as real
  {
    hide *;
    FullBook(ps, n, cfg, t - 1);
    FullBook(ps, n, cfg, t);
    RunTurnoverCountsMoves(ps, n, cfg, t, LegSize(Count(ps[t]), cfg.quantile));
  }
}
