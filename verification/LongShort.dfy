/**
  Weights, returns and turnover of the long/short book over a whole history of cross-sections
  (`long_short_returns` in `services/backtesting/cross_section.py`).  Sums are exact reals.
 */
module LongShort {
  import opened Arithmetic
  import opened Sequences
  import opened Wrappers
  import opened CrossSection

  // ---------------------------------------------------------------- vectors over the symbols

  type Vector = seq<real>

  function Total(v: Vector): real {
    if v == [] then 0.0 else Total(v[..|v| - 1]) + v[|v| - 1]
  }

  function Fill(n: nat, x: real): (r: Vector)
    ensures |r| == n && forall i :: 0 <= i < n ==> r[i] == x
  {
    seq(n, i => x)
  }

  function AbsOf(v: Vector): (r: Vector)
    ensures |r| == |v| && forall i :: 0 <= i < |v| ==> r[i] == Abs(v[i])
  {
    seq(|v|, i requires 0 <= i < |v| => Abs(v[i]))
  }

  function Change(a: Vector, b: Vector): (r: Vector)
    requires |a| == |b|
    ensures |r| == |a| && forall i :: 0 <= i < |a| ==> r[i] == Abs(a[i] - b[i])
  {
    seq(|a|, i requires 0 <= i < |a| => Abs(a[i] - b[i]))
  }

  function Times(x: real, y: real): real {
    x * y
  }

  function Products(a: Vector, b: Vector): (r: Vector)
    requires |a| == |b|
    ensures |r| == |a| && forall i :: 0 <= i < |a| ==> r[i] == Times(a[i], b[i])
  {
    seq(|a|, i requires 0 <= i < |a| => Times(a[i], b[i]))
  }

  predicate Inside(leg: seq<nat>, n: nat) {
    forall i :: 0 <= i < |leg| ==> leg[i] < n
  }

  /** Overwrite the entries named by a leg, one member at a time. */
  function Put(u: Vector, leg: seq<nat>, v: Vector): (r: Vector)
    requires |u| == |v| && Inside(leg, |u|)
    ensures |r| == |u| && forall s: nat :: s < |u| ==> r[s] == if s in leg then v[s] else u[s]
  {
    if leg == [] then u
    else
      var before, s := leg[..|leg| - 1], leg[|leg| - 1];
      assert leg == before + [s];
      assert forall x :: x in leg <==> x in before || x == s;
      Put(u, before, v)[s := v[s]]
  }

  function LegTotal(leg: seq<nat>, v: Vector): real
    requires Inside(leg, |v|)
  {
    if leg == [] then 0.0 else LegTotal(leg[..|leg| - 1], v) + v[leg[|leg| - 1]]
  }

  lemma {:induction false} TotalOfUpdate(v: Vector, s: nat, x: real)
    requires s < |v|
    ensures Total(v[s := x]) == Total(v) - v[s] + x
  {
    var m := |v| - 1;
    if s == m {
      assert v[s := x][..m] == v[..m];
    } else {
      assert v[s := x][..m] == v[..m][s := x];
      TotalOfUpdate(v[..m], s, x);
    }
  }

  lemma {:induction false} TotalOfPut(u: Vector, leg: seq<nat>, v: Vector)
    requires |u| == |v| && Inside(leg, |u|) && Distinct(leg)
    ensures Total(Put(u, leg, v)) == Total(u) + LegTotal(leg, v) - LegTotal(leg, u)
  {
    if leg == [] {
    } else {
      var before, s := leg[..|leg| - 1], leg[|leg| - 1];
      TotalOfPut(u, before, v);
      assert s !in before;
      TotalOfUpdate(Put(u, before, v), s, v[s]);
    }
  }

  lemma {:induction false} LegTotalOfMultiple(leg: seq<nat>, v: Vector, f: Vector, x: real)
    requires |v| == |f| && Inside(leg, |v|)
    requires forall i :: 0 <= i < |leg| ==> v[leg[i]] == Times(x, f[leg[i]])
    ensures LegTotal(leg, v) == Times(x, LegTotal(leg, f))
  {
    if leg == [] {
    } else {
      LegTotalOfMultiple(leg[..|leg| - 1], v, f, x);
    }
  }

  lemma {:induction false} LegTotalOfConstant(leg: seq<nat>, v: Vector, x: real)
    requires Inside(leg, |v|) && forall i :: 0 <= i < |leg| ==> v[leg[i]] == x
    ensures LegTotal(leg, v) == Times(|leg| as real, x)
  {
    if leg == [] {
    } else {
      LegTotalOfConstant(leg[..|leg| - 1], v, x);
    }
  }

  lemma {:induction false} LegTotalSign(leg: seq<nat>, v: Vector)
    requires Inside(leg, |v|) && forall i :: 0 <= i < |leg| ==> v[leg[i]] >= 0.0
    ensures LegTotal(leg, v) >= 0.0
    ensures LegTotal(leg, v) == 0.0 <==> forall i :: 0 <= i < |leg| ==> v[leg[i]] == 0.0
  {
    if leg == [] {
    } else {
      var before, s := leg[..|leg| - 1], leg[|leg| - 1];
      LegTotalSign(before, v);
      assert leg == before + [s];
    }
  }

  lemma {:induction false} TotalOfZeros(n: nat)
    ensures Total(Fill(n, 0.0)) == 0.0
  {
    if n == 0 {
    } else {
      TotalOfZeros(n - 1);
      assert Fill(n, 0.0)[..n - 1] == Fill(n - 1, 0.0);
    }
  }

  lemma {:induction false} Triangle(a: Vector, b: Vector)
    requires |a| == |b|
    ensures 0.0 <= Total(Change(a, b)) <= Total(AbsOf(a)) + Total(AbsOf(b))
  {
    if a == [] {
    } else {
      var m := |a| - 1;
      Triangle(a[..m], b[..m]);
      assert Change(a, b)[..m] == Change(a[..m], b[..m]);
      assert AbsOf(a)[..m] == AbsOf(a[..m]) && AbsOf(b)[..m] == AbsOf(b[..m]);
    }
  }

  // ---------------------------------------------------------------- weights

  function Share(leg: seq<nat>): real {
    if leg == [] then 0.0 else 1.0 / |leg| as real
  }

  function LongWeights(legs: Legs, n: nat): (w: Vector)
    requires Inside(legs.longs, n)
    ensures |w| == n
  {
    Put(Fill(n, 0.0), legs.longs, Fill(n, Share(legs.longs)))
  }

  /** Longs share +1, then shorts share -1; a symbol in both ends up short. */
  function Weights(legs: Legs, n: nat): (w: Vector)
    requires Inside(legs.longs, n) && Inside(legs.shorts, n)
    ensures |w| == n
  {
    Put(LongWeights(legs, n), legs.shorts, Fill(n, -Share(legs.shorts)))
  }

  function Held(leg: seq<nat>): real {
    if leg == [] then 0.0 else 1.0
  }

  lemma SharesAddUp(leg: seq<nat>)
    ensures Times(|leg| as real, Share(leg)) == Held(leg)
  {
  }

  ghost predicate BothLegs(legs: Legs, n: nat) {
    Distinct(legs.longs) && Distinct(legs.shorts) && Inside(legs.longs, n) && Inside(legs.shorts, n)
  }

  lemma ShareSign(leg: seq<nat>)
    ensures Share(leg) >= 0.0
  {
  }

  /** What the shorts take away from the long side. */
  function Overlap(legs: Legs, n: nat): real
    requires Inside(legs.longs, n) && Inside(legs.shorts, n)
  {
    LegTotal(legs.shorts, LongWeights(legs, n))
  }

  lemma OverlapExactlyWhen(legs: Legs, n: nat)
    requires BothLegs(legs, n)
    ensures Overlap(legs, n) >= 0.0
    ensures Overlap(legs, n) == 0.0 <==> Disjoint(legs.longs, legs.shorts)
  {
    var w := LongWeights(legs, n);
    assert forall s :: s in legs.longs ==> Share(legs.longs) > 0.0;
    LegTotalSign(legs.shorts, w);
    assert forall s :: s in legs.shorts ==> (w[s] == 0.0 <==> s !in legs.longs);
  }

  /** Putting a constant on a leg moves the total by its size times the constant. */
  lemma TotalOfConstantPut(u: Vector, leg: seq<nat>, x: real)
    requires Distinct(leg) && Inside(leg, |u|)
    ensures Total(Put(u, leg, Fill(|u|, x))) == Total(u) + Times(|leg| as real, x) - LegTotal(leg, u)
  {
    TotalOfPut(u, leg, Fill(|u|, x));
    LegTotalOfConstant(leg, Fill(|u|, x), x);
  }

  lemma LongSide(legs: Legs, n: nat)
    requires BothLegs(legs, n)
    ensures Total(LongWeights(legs, n)) == Held(legs.longs)
    ensures forall s :: 0 <= s < n ==> LongWeights(legs, n)[s] >= 0.0
  {
    hide Put, Total, LegTotal, Times, Fill, Products, AbsOf;
    TotalOfConstantPut(Fill(n, 0.0), legs.longs, Share(legs.longs));
    TotalOfZeros(n);
    LegTotalSign(legs.longs, Fill(n, 0.0));
    SharesAddUp(legs.longs);
  }

  /** Net and gross exposure of any pair of legs. */
  lemma Exposure(legs: Legs, n: nat)
    requires BothLegs(legs, n)
    ensures Total(Weights(legs, n)) == Held(legs.longs) - Held(legs.shorts) - Overlap(legs, n)
    ensures Total(AbsOf(Weights(legs, n))) == Held(legs.longs) + Held(legs.shorts) - Overlap(legs, n)
  {
    hide Put, Total, LegTotal, Times, Fill, Products, AbsOf, Share;
    ShareSign(legs.shorts);
    LongSide(legs, n);
    SharesAddUp(legs.shorts);
    ExposureOf(LongWeights(legs, n), legs.shorts, Share(legs.shorts));
  }

  lemma ExposureOf(w: Vector, leg: seq<nat>, share: real)
    requires Distinct(leg) && Inside(leg, |w|) && share >= 0.0
    requires forall s :: 0 <= s < |w| ==> w[s] >= 0.0
    ensures Total(Put(w, leg, Fill(|w|, -share))) == Total(w) - Times(|leg| as real, share) - LegTotal(leg, w)
    ensures Total(AbsOf(Put(w, leg, Fill(|w|, -share)))) == Total(w) + Times(|leg| as real, share) - LegTotal(leg, w)
  {
    hide Put, Total, LegTotal, Times, Fill, Products, AbsOf;
    TotalOfConstantPut(w, leg, -share);
    TotalOfConstantPut(w, leg, share);
    NegatedProduct(|leg| as real, share);
    assert AbsOf(Put(w, leg, Fill(|w|, -share))) == Put(w, leg, Fill(|w|, share));
  }

  lemma NegatedProduct(a: real, b: real)
    ensures Times(a, -b) == -Times(a, b)
  {
  }

  function Masked(signal: Row, forward: Row, n: nat): (r: Vector)
    ensures |r| == n
    ensures forall s: nat :: s < n ==> r[s] == if Usable(signal, forward, s) then forward[s].value else 0.0
  {
    seq(n, s requires 0 <= s < n => if Usable(signal, forward, s) then forward[s].value else 0.0)
  }

  /** The dot product of the weights with the usable forward returns. */
  function Spread(w: Vector, signal: Row, forward: Row): real {
    Total(Products(w, Masked(signal, forward, |w|)))
  }

  function Mean(leg: seq<nat>, f: Vector): real
    requires Inside(leg, |f|)
  {
    if leg == [] then 0.0 else LegTotal(leg, f) / |leg| as real
  }

  lemma MeanIsShareOfTotal(leg: seq<nat>, f: Vector)
    requires Inside(leg, |f|)
    ensures Times(Share(leg), LegTotal(leg, f)) == Mean(leg, f)
  {
  }

  /** Overwriting a leg that stood at zero adds x times the leg's total of f. */
  lemma TotalOfScaledPut(u: Vector, leg: seq<nat>, f: Vector, x: real)
    requires |u| == |f| && Distinct(leg) && Inside(leg, |u|)
    requires forall i :: 0 <= i < |leg| ==> u[leg[i]] == 0.0
    ensures Total(Put(u, leg, Products(Fill(|u|, x), f))) == Total(u) + Times(x, LegTotal(leg, f))
  {
    hide Put, Total, LegTotal, Times, Fill, Products, AbsOf;
    var v := Products(Fill(|u|, x), f);
    TotalOfPut(u, leg, v);
    LegTotalOfMultiple(leg, v, f, x);
    LegTotalSign(leg, u);
  }

  lemma ProductsOfPut(u: Vector, leg: seq<nat>, v: Vector, f: Vector)
    requires |u| == |v| == |f| && Inside(leg, |u|)
    ensures Products(Put(u, leg, v), f) == Put(Products(u, f), leg, Products(v, f))
  {
    hide Put, Times, Products;
    var a, b := Products(Put(u, leg, v), f), Put(Products(u, f), leg, Products(v, f));
    assert forall s: nat :: s < |u| ==> a[s] == b[s];
  }

  lemma ProductsOfZeros(f: Vector)
    ensures Products(Fill(|f|, 0.0), f) == Fill(|f|, 0.0)
  {
  }

  /** Giving a leg that carried no weight the weight x moves the dot product by x times the
      leg's total. */
  lemma DotOfPut(w: Vector, leg: seq<nat>, f: Vector, x: real)
    requires |w| == |f| && Distinct(leg) && Inside(leg, |w|)
    requires forall i :: 0 <= i < |leg| ==> w[leg[i]] == 0.0
    ensures Total(Products(Put(w, leg, Fill(|w|, x)), f)) == Total(Products(w, f)) + Times(x, LegTotal(leg, f))
  {
    var p := Products(w, f);
    assert forall i :: 0 <= i < |leg| ==> p[leg[i]] == 0.0;
    hide Put, Total, LegTotal, Times, Fill, Products;
    ProductsOfPut(w, leg, Fill(|w|, x), f);
    TotalOfScaledPut(p, leg, f, x);
  }

  /** A dollar-neutral book earns the mean of its longs less the mean of its shorts. */
  lemma SpreadIsMeanDifference(legs: Legs, n: nat, signal: Row, forward: Row)
    requires BothLegs(legs, n) && Disjoint(legs.longs, legs.shorts)
    ensures Spread(Weights(legs, n), signal, forward)
            == Mean(legs.longs, Masked(signal, forward, n)) - Mean(legs.shorts, Masked(signal, forward, n))
  {
    hide Put, Total, LegTotal, Masked, Fill, Products, Mean, Share, Times;
    var f := Masked(signal, forward, n);
    ProductsOfZeros(f);
    TotalOfZeros(n);
    DotOfPut(Fill(n, 0.0), legs.longs, f, Share(legs.longs));
    DotOfPut(LongWeights(legs, n), legs.shorts, f, -Share(legs.shorts));
    MeanIsShareOfTotal(legs.longs, f);
    MeanIsShareOfTotal(legs.shorts, f);
    NegatedFactor(Share(legs.shorts), LegTotal(legs.shorts, f));
  }

  lemma NegatedFactor(a: real, b: real)
    ensures Times(-a, b) == -Times(a, b)
  {
  }

  // ---------------------------------------------------------------- a shifted market

  /** The same forward returns with c added to every one that exists. */
  function Shifted(forward: Row, c: real): (r: Row)
    ensures |r| == |forward|
    ensures forall s :: 0 <= s < |r| ==>
      r[s] == if forward[s].Some? then Some(forward[s].value + c) else None
  {
    seq(|forward|, s requires 0 <= s < |forward| =>
      if forward[s].Some? then Some(forward[s].value + c) else None)
  }

  lemma {:induction false} LegTotalShifts(leg: seq<nat>, f: Vector, g: Vector, c: real)
    requires |f| == |g| && Inside(leg, |f|) && forall i :: 0 <= i < |leg| ==> g[leg[i]] == f[leg[i]] + c
    ensures LegTotal(leg, g) == LegTotal(leg, f) + Times(|leg| as real, c)
  {
    if leg == [] {
    } else {
      LegTotalShifts(leg[..|leg| - 1], f, g, c);
    }
  }

  lemma MeanShifts(leg: seq<nat>, f: Vector, g: Vector, c: real)
    requires |f| == |g| && leg != [] && Inside(leg, |f|) && forall i :: 0 <= i < |leg| ==> g[leg[i]] == f[leg[i]] + c
    ensures Mean(leg, g) == Mean(leg, f) + c
  {
    LegTotalShifts(leg, f, g, c);
    var size := |leg| as real;
    assert (LegTotal(leg, f) + Times(size, c)) / size == LegTotal(leg, f) / size + c;
  }

  /** A move common to the whole market earns a neutral book nothing. */
  lemma MarketMoveEarnsNothing(legs: Legs, n: nat, signal: Row, forward: Row, c: real)
    requires BothLegs(legs, n) && Disjoint(legs.longs, legs.shorts)
    requires legs.longs != [] && legs.shorts != []
    requires forall s :: s in legs.longs || s in legs.shorts ==> Usable(signal, forward, s)
    ensures Spread(Weights(legs, n), signal, Shifted(forward, c)) == Spread(Weights(legs, n), signal, forward)
  {
    SpreadIsMeanDifference(legs, n, signal, forward);
    SpreadIsMeanDifference(legs, n, signal, Shifted(forward, c));
    var f, g := Masked(signal, forward, n), Masked(signal, Shifted(forward, c), n);
    MeanShifts(legs.longs, f, g, c);
    MeanShifts(legs.shorts, f, g, c);
  }
}
