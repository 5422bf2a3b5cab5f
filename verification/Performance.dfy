/**
  Drawdown and losing streaks (`backtesting/performance.py`).  Equity and profits are exact reals.
 */
module Performance {

  // ---------------------------------------------------------------- drawdown

  function RunningMax(equity: seq<real>, i: nat): real
    requires i < |equity|
  {
    if i == 0 || RunningMax(equity, i - 1) < equity[i] then equity[i] else RunningMax(equity, i - 1)
  }

  /** A zero maximum is replaced by one before dividing. */
  function Drawdown(equity: seq<real>, i: nat): real
    requires i < |equity|
  {
    var peak := RunningMax(equity, i);
    (equity[i] - peak) / (if peak == 0.0 then 1.0 else peak)
  }

  /** The first index below n with the deepest drawdown. */
  function Trough(equity: seq<real>, n: nat): (t: nat)
    requires 0 < n <= |equity|
    ensures t < n
  {
    if n == 1 then 0
    else
      var t := Trough(equity, n - 1);
      if Drawdown(equity, n - 1) < Drawdown(equity, t) then n - 1 else t
  }

  /** The first index below n with the highest equity. */
  function Peak(equity: seq<real>, n: nat): (p: nat)
    requires 0 < n <= |equity|
    ensures p < n
  {
    if n == 1 then 0
    else
      var p := Peak(equity, n - 1);
      if equity[n - 1] > equity[p] then n - 1 else p
  }

  function MaxDrawdown(equity: seq<real>): (real, nat, nat) {
    if |equity| < 2 then (0.0, 0, 0)
    else
      var trough := Trough(equity, |equity|);
      (Drawdown(equity, trough), Peak(equity, trough + 1), trough)
  }

  lemma {:induction false} RunningMaxIsMax(equity: seq<real>, i: nat)
    requires i < |equity|
    ensures forall j :: 0 <= j <= i ==> equity[j] <= RunningMax(equity, i)
    ensures RunningMax(equity, i) == equity[Peak(equity, i + 1)]
    ensures forall j :: 0 <= j < Peak(equity, i + 1) ==> equity[j] < RunningMax(equity, i)
  {
    if i == 0 {
    } else {
      RunningMaxIsMax(equity, i - 1);
    }
  }

  lemma {:induction false} TroughIsDeepest(equity: seq<real>, n: nat)
    requires 0 < n <= |equity|
    ensures forall j :: 0 <= j < n ==> Drawdown(equity, Trough(equity, n)) <= Drawdown(equity, j)
    ensures forall j :: 0 <= j < Trough(equity, n) ==> Drawdown(equity, Trough(equity, n)) < Drawdown(equity, j)
  {
    if n > 1 {
      TroughIsDeepest(equity, n - 1);
    }
  }

  /** The relative change from i to a later j. */
  function Change(equity: seq<real>, i: nat, j: nat): real
    requires i <= j < |equity| && equity[i] != 0.0
  {
    equity[j] / equity[i] - 1.0
  }

  lemma DivideByLarger(a: real, p: real, q: real)
    requires a >= 0.0 && 0.0 < p <= q
    ensures 0.0 <= a / q <= a / p
    ensures a > 0.0 ==> a / q > 0.0
  {
    var x, y := a / p, a / q;
    assert x * p == a && y * q == a;
    assert y >= 0.0;
    assert y * p <= y * q;
    assert y > x ==> y * p > x * p;
  }

  lemma QuotientAdds(a: real, b: real, c: real)
    requires c > 0.0
    ensures (a + b) / c == a / c + b / c
  {
  }

  lemma Ratio(a: real, b: real)
    requires b > 0.0
    ensures (a - b) / b == a / b - 1.0 && b / b == 1.0
  {
    assert a == (a - b) + b;
    QuotientAdds(a - b, b, b);
  }

  lemma QuotientSign(a: real, b: real)
    requires b > 0.0
    ensures a / b > 0.0 <==> a > 0.0
    ensures a / b >= 0.0 <==> a >= 0.0
  {
    var x := a / b;
    assert x * b == a;
  }

  /** On a curve that starts positive the drawdown of a point is its fall from the highest point
      so far, and less than a full loss exactly when the point is positive. */
  lemma DrawdownIsFallFromPeak(equity: seq<real>, j: nat)
    requires j < |equity| && equity[0] > 0.0
    ensures equity[Peak(equity, j + 1)] > 0.0
    ensures Drawdown(equity, j) == Change(equity, Peak(equity, j + 1), j) <= 0.0
    ensures Drawdown(equity, j) > -1.0 <==> equity[j] > 0.0
    ensures Drawdown(equity, j) >= -1.0 <==> equity[j] >= 0.0
  {
    RunningMaxIsMax(equity, j);
    var peak := RunningMax(equity, j);
    Ratio(equity[j], peak);
    QuotientSign(equity[j], peak);
    QuotientSign(peak - equity[j], peak);
    Ratio(peak - equity[j], peak);
    assert (equity[j] - peak) / peak == -((peak - equity[j]) / peak) by {
      QuotientAdds(equity[j] - peak, peak - equity[j], peak);
    }
  }

  lemma DrawdownIsWorstChange(equity: seq<real>, i: nat, j: nat)
    requires i <= j < |equity| && equity[0] > 0.0 && equity[i] > 0.0 && equity[j] >= 0.0
    ensures Drawdown(equity, j) <= Change(equity, i, j)
  {
    DrawdownIsFallFromPeak(equity, j);
    RunningMaxIsMax(equity, j);
    DivideByLarger(equity[j], equity[i], RunningMax(equity, j));
  }

  /** On a curve that starts positive and never falls below zero, the running-maximum form finds
      the worst relative fall between any two points in order, and reports where it starts and
      ends. */
  lemma DrawdownIsTheWorstFall(equity: seq<real>)
    requires |equity| >= 2 && equity[0] > 0.0 && forall k :: 0 <= k < |equity| ==> equity[k] >= 0.0
    ensures var (dd, peak, trough) := MaxDrawdown(equity);
            && peak <= trough < |equity| && equity[peak] > 0.0
            && dd == Change(equity, peak, trough)
            && -1.0 <= dd <= 0.0
            && forall i, j :: 0 <= i <= j < |equity| && equity[i] > 0.0 ==> dd <= Change(equity, i, j)
  {
    var trough := Trough(equity, |equity|);
    TroughIsDeepest(equity, |equity|);
    DrawdownIsFallFromPeak(equity, trough);
    forall i, j | 0 <= i <= j < |equity| && equity[i] > 0.0
      ensures MaxDrawdown(equity).0 <= Change(equity, i, j)
    {
      DrawdownIsWorstChange(equity, i, j);
    }
  }

  /** While the highest equity so far is zero, the drawdown is the loss itself. */
  lemma ZeroPeakReportsTheLoss(equity: seq<real>, j: nat, k: nat)
    requires j <= k < |equity| && equity[j] == 0.0 && forall i :: 0 <= i <= k ==> equity[i] <= 0.0
    ensures Drawdown(equity, k) == equity[k]
  {
    RunningMaxIsMax(equity, k);
    assert equity[j] <= RunningMax(equity, k) && RunningMax(equity, k) == equity[Peak(equity, k + 1)];
  }

  /** The size of the drawdown tells how low a curve that starts positive ever went: at most a
      full loss exactly when it never fell below zero, less than one exactly when it stayed
      positive. */
  lemma DepthTellsTheLow(equity: seq<real>)
    requires |equity| >= 2 && equity[0] > 0.0
    ensures MaxDrawdown(equity).0 >= -1.0 <==> forall k :: 0 <= k < |equity| ==> equity[k] >= 0.0
    ensures MaxDrawdown(equity).0 > -1.0 <==> forall k :: 0 <= k < |equity| ==> equity[k] > 0.0
  {
    var trough := Trough(equity, |equity|);
    TroughIsDeepest(equity, |equity|);
    forall k | 0 <= k < |equity|
      ensures Drawdown(equity, k) > -1.0 <==> equity[k] > 0.0
      ensures Drawdown(equity, k) >= -1.0 <==> equity[k] >= 0.0
    {
      DrawdownIsFallFromPeak(equity, k);
    }
  }

  /** Below zero the fall from the running maximum is no longer the worst one: from 1 over 2 to
      -1 the curve loses twice what it had at 1, and the form reports one and a half. */
  lemma WorstFallIsMissedBelowZero()
    ensures var equity := [1.0, 2.0, -1.0]; MaxDrawdown(equity).0 == -1.5 && Change(equity, 0, 2) == -2.0
  {
    var equity := [1.0, 2.0, -1.0];
    assert RunningMax(equity, 0) == 1.0 && RunningMax(equity, 1) == 2.0 && RunningMax(equity, 2) == 2.0;
    assert Drawdown(equity, 0) == 0.0 && Drawdown(equity, 1) == 0.0 && Drawdown(equity, 2) == -1.5;
    assert Trough(equity, 1) == 0 && Trough(equity, 2) == 0 && Trough(equity, 3) == 2;
  }

  // ---------------------------------------------------------------- losing streaks

  ghost predicate Losing(pnls: seq<real>, from: nat, length: nat) {
    from + length <= |pnls| && forall k :: from <= k < from + length ==> pnls[k] < 0.0
  }

  /** The length of the longest run of consecutive losing trades. */
  method MaxConsecutiveLosses(pnls: seq<real>) returns (maxStreak: nat)
    ensures exists from: nat :: Losing(pnls, from, maxStreak)
    ensures forall from: nat, length: nat :: Losing(pnls, from, length) ==> length <= maxStreak
  {
    maxStreak := 0;
    assert Losing(pnls, 0, maxStreak);
    var currentStreak: nat := 0;
    var i := 0;
    while i < |pnls|
      invariant 0 <= i <= |pnls|
      invariant currentStreak <= i && Losing(pnls, i - currentStreak, currentStreak)
      invariant currentStreak < i ==> pnls[i - currentStreak - 1] >= 0.0
      invariant currentStreak <= maxStreak
      invariant exists from: nat :: Losing(pnls, from, maxStreak)
      invariant forall from: nat, length: nat :: from + length <= i && Losing(pnls, from, length) ==> length <= maxStreak
    {
      if pnls[i] < 0.0 {
        currentStreak := currentStreak + 1;
        assert Losing(pnls, i + 1 - currentStreak, currentStreak);
        maxStreak := if maxStreak < currentStreak then currentStreak else maxStreak;
        assert currentStreak < i + 1 ==> pnls[i - currentStreak] >= 0.0;
      } else {
        currentStreak := 0;
      }
      i := i + 1;
    }
  }
}
