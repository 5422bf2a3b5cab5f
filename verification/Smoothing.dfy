/** The causal smoother of `services/backtesting/cross_section.py`: `smooth_signal`, column by column. */
module Smoothing {
  import opened Wrappers
  import opened CrossSection

  function Alpha(span: int): (a: real)
    requires span > 1
    ensures 0.0 < a < 1.0
  {
    2.0 / (span as real + 1.0)
  }

  /** One column's state after a stretch of inputs: seeded by the first finite input, averaged
      with every later one, untouched by gaps. */
  function Smooth(xs: Row, alpha: real): Option<real> {
    if xs == [] then None
    else
      Update(Smooth(xs[..|xs| - 1], alpha), xs[|xs| - 1], alpha)
  }

  function Update(state: Option<real>, x: Option<real>, alpha: real): Option<real> {
    if x == None then state
    else if state == None then x
    else Some(Blend(alpha, x.value, state.value))
  }

  function Blend(alpha: real, x: real, y: real): real {
    alpha * x + (1.0 - alpha) * y
  }

  ghost predicate Rectangular(signal: seq<Row>, n: nat) {
    forall t :: 0 <= t < |signal| ==> |signal[t]| == n
  }

  function Column(signal: seq<Row>, n: nat, s: nat): (r: Row)
    requires Rectangular(signal, n) && s < n
    ensures |r| == |signal| && forall t :: 0 <= t < |signal| ==> r[t] == signal[t][s]
  {
    seq(|signal|, t requires 0 <= t < |signal| => signal[t][s])
  }

  function SmoothCell(signal: seq<Row>, n: nat, span: int, t: nat, s: nat): Option<real>
    requires Rectangular(signal, n) && t < |signal| && s < n && span > 1
  {
    Smooth(Column(signal, n, s)[..t + 1], Alpha(span))
  }

  method AbsorbRow(state: array<Option<real>>, row: Row, alpha: real)
    requires |row| == state.Length
    modifies state
    ensures forall s :: 0 <= s < |row| ==> state[s] == Update(old(state[s]), row[s], alpha)
  {
    var s := 0;
    while s < |row|
      invariant 0 <= s <= |row|
      invariant forall c :: 0 <= c < s ==> state[c] == Update(old(state[c]), row[c], alpha)
      invariant forall c :: s <= c < |row| ==> state[c] == old(state[c])
    {
      if row[s] != None {
        if state[s] == None {
          state[s] := row[s];
        } else {
          state[s] := Some(Blend(alpha, row[s].value, state[s].value));
        }
      }
      s := s + 1;
    }
  }

  ghost predicate SmoothRow(row: Row, signal: seq<Row>, n: nat, span: int, t: nat)
    requires Rectangular(signal, n) && t < |signal| && span > 1
  {
    |row| == n && forall s: nat :: s < n ==> row[s] == SmoothCell(signal, n, span, t, s)
  }

  ghost predicate StateAfter(state: Row, signal: seq<Row>, n: nat, span: int, t: nat)
    requires Rectangular(signal, n) && t <= |signal| && span > 1
  {
    |state| == n && forall s: nat :: s < n ==> state[s] == Smooth(Column(signal, n, s)[..t], Alpha(span))
  }

  lemma RowAbsorbed(before: Row, after: Row, signal: seq<Row>, n: nat, span: int, t: nat)
    requires Rectangular(signal, n) && t < |signal| && span > 1 && StateAfter(before, signal, n, span, t)
    requires |after| == n && forall s :: 0 <= s < n ==> after[s] == Update(before[s], signal[t][s], Alpha(span))
    ensures StateAfter(after, signal, n, span, t + 1) && SmoothRow(after, signal, n, span, t)
  {
    hide Smooth, Update, Alpha;
    forall s: nat | s < n ensures after[s] == SmoothCell(signal, n, span, t, s) {
      SmoothStep(Column(signal, n, s), t, Alpha(span));
    }
  }

  method SmoothSignal(signal: seq<Row>, n: nat, span: int) returns (out: seq<Row>)
    requires Rectangular(signal, n)
    ensures span <= 1 ==> out == signal
    ensures span > 1 ==> |out| == |signal| && forall t: nat :: t < |signal| ==> SmoothRow(out[t], signal, n, span, t)
  {
    if span <= 1 {
      return signal;
    }
    var alpha := Alpha(span);
    out := [];
    var state := new Option<real>[n](_ => None);
    var t := 0;
    assert StateAfter(state[..], signal, n, span, 0);
    hide SmoothRow, StateAfter, Update, Alpha;
    while t < |signal|
      invariant 0 <= t <= |signal| && |out| == t
      invariant StateAfter(state[..], signal, n, span, t)
      invariant forall u: nat :: u < t ==> SmoothRow(out[u], signal, n, span, u)
    {
      ghost var before := state[..];
      AbsorbRow(state, signal[t], alpha);
      RowAbsorbed(before, state[..], signal, n, span, t);
      out := out + [state[..]];
      t := t + 1;
    }
  }

  lemma SmoothStep(xs: Row, t: nat, alpha: real)
    requires t < |xs|
    ensures Smooth(xs[..t + 1], alpha) == Update(Smooth(xs[..t], alpha), xs[t], alpha)
  {
    assert xs[..t + 1][..t] == xs[..t];
  }

  /** Each row moves a column's value towards it by the share 2 / (span + 1): the value is the
      average of the row's, with weight 2, and the one before, with weight span - 1. */
  lemma EachRowCountsTwice(signal: seq<Row>, n: nat, span: int, t: nat, s: nat)
    requires Rectangular(signal, n) && 0 < t < |signal| && s < n && span > 1
    ensures var before, after := SmoothCell(signal, n, span, t - 1, s), SmoothCell(signal, n, span, t, s);
            match (signal[t][s], before)
            case (None, _) => after == before
            case (Some(x), None) => after == Some(x)
            case (Some(x), Some(y)) => after.Some? && after.value * (span as real + 1.0) == 2.0 * x + (span as real - 1.0) * y
  {
    SmoothStep(Column(signal, n, s), t, Alpha(span));
    if signal[t][s].Some? && SmoothCell(signal, n, span, t - 1, s).Some? {
      BlendOfSpan(span, signal[t][s].value, SmoothCell(signal, n, span, t - 1, s).value);
    }
  }

  lemma BlendOfSpan(span: int, x: real, y: real)
    requires span > 1
    ensures Blend(Alpha(span), x, y) * (span as real + 1.0) == 2.0 * x + (span as real - 1.0) * y
  {
    var whole, a := span as real + 1.0, Alpha(span);
    assert a * whole == 2.0;
    assert (a * x + (1.0 - a) * y) * whole == (a * whole) * x + (whole - a * whole) * y;
  }

  /** Two signals that agree up to and including row t give the same cell there, whatever
      follows. */
  lemma SmoothingIsCausal(a: seq<Row>, b: seq<Row>, n: nat, span: int, t: nat, s: nat)
    requires Rectangular(a, n) && Rectangular(b, n) && t < |a| && t < |b| && s < n && span > 1
    requires a[..t + 1] == b[..t + 1]
    ensures SmoothCell(a, n, span, t, s) == SmoothCell(b, n, span, t, s)
  {
    assert forall u :: 0 <= u <= t ==> a[u] == a[..t + 1][u] == b[u];
    assert Column(a, n, s)[..t + 1] == Column(b, n, s)[..t + 1];
  }

  ghost predicate Seen(xs: Row, i: nat) {
    i < |xs| && xs[i].Some?
  }

  lemma {:induction false} FiniteExactlyWhenSeen(xs: Row, alpha: real)
    ensures Smooth(xs, alpha).Some? <==> exists i: nat :: Seen(xs, i)
  {
    if xs == [] {
    } else {
      var last := |xs| - 1;
      var before := xs[..last];
      FiniteExactlyWhenSeen(before, alpha);
      assert forall i: nat :: Seen(before, i) ==> Seen(xs, i);
      assert forall i: nat :: Seen(xs, i) ==> Seen(before, i) || i == last;
      assert xs[last].Some? ==> Seen(xs, last);
    }
  }

  /** Once a column has produced a value it never loses it again. */
  lemma StaysFinite(xs: Row, t: nat, u: nat, alpha: real)
    requires t <= u <= |xs| && Smooth(xs[..t], alpha).Some?
    ensures Smooth(xs[..u], alpha).Some?
  {
    FiniteExactlyWhenSeen(xs[..t], alpha);
    FiniteExactlyWhenSeen(xs[..u], alpha);
    var i: nat :| Seen(xs[..t], i);
    assert Seen(xs[..u], i);
  }

  lemma BlendBetween(alpha: real, x: real, y: real, lo: real, hi: real)
    requires 0.0 < alpha < 1.0 && lo <= x <= hi && lo <= y <= hi
    ensures lo <= Blend(alpha, x, y) <= hi
  {
    ProductAtLeastZero(alpha, x - lo);
    ProductAtLeastZero(1.0 - alpha, y - lo);
    ProductAtLeastZero(alpha, hi - x);
    ProductAtLeastZero(1.0 - alpha, hi - y);
    assert Blend(alpha, x, y) - lo == alpha * (x - lo) + (1.0 - alpha) * (y - lo);
    assert hi - Blend(alpha, x, y) == alpha * (hi - x) + (1.0 - alpha) * (hi - y);
  }

  lemma ProductAtLeastZero(a: real, b: real)
    requires a >= 0.0 && b >= 0.0
    ensures a * b >= 0.0
  {
  }

  /** The smoothed value lies between two finite inputs the column has already had. */
  lemma {:induction false} SmoothedLiesBetweenInputs(xs: Row, alpha: real) returns (i: nat, j: nat)
    requires 0.0 < alpha < 1.0 && Smooth(xs, alpha).Some?
    ensures Seen(xs, i) && Seen(xs, j)
    ensures xs[i].value <= Smooth(xs, alpha).value <= xs[j].value
  {
    var last := |xs| - 1;
    var before := xs[..last];
    if Smooth(before, alpha).Some? {
      i, j := SmoothedLiesBetweenInputs(before, alpha);
      if xs[last].Some? {
        var x, y := xs[last].value, Smooth(before, alpha).value;
        var lo := if x <= xs[i].value then x else xs[i].value;
        var hi := if x >= xs[j].value then x else xs[j].value;
        BlendBetween(alpha, x, y, lo, hi);
        i := if x <= xs[i].value then last else i;
        j := if x >= xs[j].value then last else j;
      }
    } else {
      i, j := last, last;
    }
  }
}
