/**
  The long/short book of `services/backtesting/cross_section.py`: leg selection with and
  without the exit buffer, the weights, returns and turnover of every rebalance, and the
  causal smoother.  A missing or infinite cell is None.
 */
module CrossSection {
  import opened Arithmetic
  import opened Sequences
  import opened Wrappers

  type Row = seq<Option<real>>

  const MIN_SYMBOLS_PER_PERIOD := 20

  // ---------------------------------------------------------------- one cross-section

  predicate Usable(signal: Row, forward: Row, s: nat) {
    s < |signal| && s < |forward| && signal[s].Some? && forward[s].Some?
  }

  function UsableIdx(signal: Row, forward: Row, n: nat): (idx: seq<nat>)
    ensures forall s: nat :: s in idx <==> s < n && Usable(signal, forward, s)
    ensures Distinct(idx)
  {
    if n == 0 then []
    else
      var rest := UsableIdx(signal, forward, n - 1);
      assert forall i :: 0 <= i < |rest| ==> rest[i] in rest;
      if Usable(signal, forward, n - 1) then rest + [n - 1] else rest
  }

  predicate Disjoint(xs: seq<nat>, ys: seq<nat>) {
    forall s :: s in xs ==> s !in ys
  }

  predicate Within(xs: seq<nat>, ys: seq<nat>) {
    forall s :: s in xs ==> s in ys
  }

  /** What argsort returns: the usable symbols from the weakest signal to the strongest, ties
      in any order. */
  ghost predicate IsRanking(order: seq<nat>, signal: Row, forward: Row) {
    && Distinct(order)
    && (forall s :: s in order <==> Usable(signal, forward, s))
    && (forall i, j :: 0 <= i < j < |order| && order[i] < |signal| && order[j] < |signal|
                       && signal[order[i]].Some? && signal[order[j]].Some? ==>
          signal[order[i]].value <= signal[order[j]].value)
  }

  function LegSize(count: nat, quantile: real): nat {
    var r := RoundHalfEven(count as real * quantile);
    if r < 1 then 1 else r
  }

  function ZoneSize(count: nat, k: nat, exitQuantile: real): nat {
    var r := RoundHalfEven(count as real * exitQuantile);
    if r < k then k else r
  }

  /** A leg is the share of the cross-section, rounded to the nearest number, and never empty; the
      exit zone likewise, and never narrower than the leg. */
  lemma SizesAreShares(count: nat, quantile: real, k: nat, exitQuantile: real)
    ensures var share, size := count as real * quantile, LegSize(count, quantile);
            && size >= 1
            && (share >= 1.0 ==> share - 0.5 <= size as real <= share + 0.5)
            && (share < 1.0 ==> size == 1)
    ensures var share, size := count as real * exitQuantile, ZoneSize(count, k, exitQuantile);
            && size >= k
            && (share >= k as real ==> share - 0.5 <= size as real <= share + 0.5)
            && (share < k as real ==> size == k)
  {
    RoundIsNearestEven(count as real * quantile);
    RoundIsNearestEven(count as real * exitQuantile);
  }

  function Weakest(order: seq<nat>, k: nat): seq<nat> {
    if k >= |order| then order else order[..k]
  }

  function Strongest(order: seq<nat>, k: nat): seq<nat> {
    if k >= |order| then order else order[|order| - k..]
  }

  function Retained(prev: seq<nat>, zone: seq<nat>): seq<nat> {
    if prev == [] then []
    else Retained(prev[..|prev| - 1], zone) + if prev[|prev| - 1] in zone then [prev[|prev| - 1]] else []
  }

  function FirstK(xs: seq<nat>, k: nat): seq<nat> {
    if |xs| <= k then xs else xs[..k]
  }

  /** Candidates join a leg in turn until it has k members, skipping anything already in a leg. */
  function FillUp(leg: seq<nat>, candidates: seq<nat>, other: seq<nat>, k: nat): seq<nat> {
    if candidates == [] then leg
    else
      var before := FillUp(leg, candidates[..|candidates| - 1], other, k);
      var c := candidates[|candidates| - 1];
      if |before| >= k || c in before || c in other then before else before + [c]
  }

  datatype Legs = Legs(longs: seq<nat>, shorts: seq<nat>)

  function PlainLegs(order: seq<nat>, k: nat): Legs {
    Legs(Strongest(order, k), Weakest(order, k))
  }

  function BufferedLegs(prev: Legs, order: seq<nat>, k: nat, keep: nat): Legs {
    var longs0 := FirstK(Retained(prev.longs, Strongest(order, keep)), k);
    var shorts0 := FirstK(Retained(prev.shorts, Weakest(order, keep)), k);
    var longs := FillUp(longs0, Reversed(order), shorts0, k);
    Legs(longs, FillUp(shorts0, order, longs, k))
  }

  // ---------------------------------------------------------------- legs

  ghost predicate LegsApart(legs: Legs) {
    Distinct(legs.longs) && Distinct(legs.shorts) && Disjoint(legs.longs, legs.shorts)
  }

  ghost predicate LegsOk(legs: Legs, order: seq<nat>, k: nat) {
    && LegsApart(legs)
    && Within(legs.longs, order) && Within(legs.shorts, order)
    && |legs.longs| == k && |legs.shorts| == k
  }

  lemma PlainLegsOk(order: seq<nat>, k: nat)
    requires Distinct(order) && 2 * k <= |order|
    ensures LegsOk(PlainLegs(order, k), order, k)
  {
    var n := |order|;
    var longs, shorts := Strongest(order, k), Weakest(order, k);
    if k < n {
      assert forall i :: 0 <= i < k ==> longs[i] == order[n - k + i] && shorts[i] == order[i];
    }
  }

  /** Without the buffer the legs are disjoint exactly when two of them fit. */
  lemma PlainLegsDisjointExactlyWhen(order: seq<nat>, k: nat)
    requires Distinct(order) && 0 < k && order != []
    ensures Disjoint(PlainLegs(order, k).longs, PlainLegs(order, k).shorts) <==> 2 * k <= |order|
  {
    var n := |order|;
    if 2 * k <= n {
      PlainLegsOk(order, k);
    } else {
      var longs, shorts := Strongest(order, k), Weakest(order, k);
      var m := if k >= n then 0 else n - k;
      assert longs[0] == order[m] == shorts[m];
      assert longs[0] in longs && longs[0] in shorts;
    }
  }

  lemma {:induction false} RetainedIsSubsequence(prev: seq<nat>, zone: seq<nat>)
    requires Distinct(prev)
    ensures var r := Retained(prev, zone);
            && Distinct(r) && |r| <= |prev|
            && (forall s :: s in r <==> s in prev && s in zone)
  {
    if prev == [] {
    } else {
      var before := prev[..|prev| - 1];
      RetainedIsSubsequence(before, zone);
      assert prev == before + [prev[|prev| - 1]];
      assert prev[|prev| - 1] !in before;
    }
  }

  lemma FirstKKeeps(xs: seq<nat>, k: nat)
    requires Distinct(xs)
    ensures Distinct(FirstK(xs, k)) && |FirstK(xs, k)| <= k && Within(FirstK(xs, k), xs)
  {
  }

  lemma {:induction false} FillUpKeeps(leg: seq<nat>, candidates: seq<nat>, other: seq<nat>, k: nat)
    requires Distinct(leg) && Disjoint(leg, other) && |leg| <= k
    ensures var r := FillUp(leg, candidates, other, k);
            && Distinct(r) && Disjoint(r, other) && leg <= r && |r| <= k
            && (forall s :: s in r ==> s in leg || s in candidates)
            && (|r| < k ==> forall s :: s in candidates ==> s in r || s in other)
  {
    if candidates == [] {
    } else {
      var before := candidates[..|candidates| - 1];
      FillUpKeeps(leg, before, other, k);
      assert candidates == before + [candidates[|candidates| - 1]];
    }
  }

  /** A leg cannot stop short while two legs fit into the order. */
  lemma FillUpFills(leg: seq<nat>, candidates: seq<nat>, order: seq<nat>, other: seq<nat>, k: nat)
    requires Distinct(order) && Distinct(leg) && Distinct(other) && Disjoint(leg, other)
    requires |leg| <= k && |other| <= k && 2 * k <= |order|
    requires forall s :: s in candidates <==> s in order
    ensures |FillUp(leg, candidates, other, k)| == k
  {
    FillUpKeeps(leg, candidates, other, k);
    var r := FillUp(leg, candidates, other, k);
    DistinctSize(order);
    DistinctSize(r);
    DistinctSize(other);
    assert |Members(r) + Members(other)| <= |Members(r)| + |Members(other)|;
    if |r| < k {
      SubsetSize(Members(order), Members(r) + Members(other));
    }
  }

  /** Even when two legs do not fit, one that is shorter than the order leaves room for the other. */
  lemma FillUpFindsOne(leg: seq<nat>, candidates: seq<nat>, order: seq<nat>, other: seq<nat>, k: nat)
    requires Distinct(order) && Distinct(leg) && Distinct(other) && Disjoint(leg, other)
    requires |leg| <= k && |other| <= k < |order| && 0 < k
    requires forall s :: s in candidates <==> s in order
    ensures FillUp(leg, candidates, other, k) != []
  {
    FillUpKeeps(leg, candidates, other, k);
    DistinctSize(order);
    DistinctSize(other);
    if FillUp(leg, candidates, other, k) == [] {
      SubsetSize(Members(order), Members(other));
    }
  }

  /** The incumbents that survive the exit zone and the size cut. */
  lemma IncumbentsApart(prev: Legs, order: seq<nat>, k: nat, keep: nat)
    requires LegsApart(prev)
    ensures var longs0 := FirstK(Retained(prev.longs, Strongest(order, keep)), k);
            var shorts0 := FirstK(Retained(prev.shorts, Weakest(order, keep)), k);
            && Distinct(longs0) && Distinct(shorts0) && Disjoint(longs0, shorts0)
            && |longs0| <= k && |shorts0| <= k
            && Within(longs0, order) && Within(shorts0, order)
  {
    RetainedIsSubsequence(prev.longs, Strongest(order, keep));
    RetainedIsSubsequence(prev.shorts, Weakest(order, keep));
    FirstKKeeps(Retained(prev.longs, Strongest(order, keep)), k);
    FirstKKeeps(Retained(prev.shorts, Weakest(order, keep)), k);
  }

  /** With the buffer, legs stay duplicate-free, disjoint and inside the usable set whatever
      the sizes, and have exactly k members each whenever two legs fit. */
  lemma BufferedLegsOk(prev: Legs, order: seq<nat>, k: nat, keep: nat)
    requires LegsApart(prev) && Distinct(order)
    ensures LegsApart(BufferedLegs(prev, order, k, keep))
    ensures Within(BufferedLegs(prev, order, k, keep).longs, order)
    ensures Within(BufferedLegs(prev, order, k, keep).shorts, order)
    ensures 2 * k <= |order| ==> LegsOk(BufferedLegs(prev, order, k, keep), order, k)
  {
    hide FillUp, Retained, FirstK;
    var longs0 := FirstK(Retained(prev.longs, Strongest(order, keep)), k);
    var shorts0 := FirstK(Retained(prev.shorts, Weakest(order, keep)), k);
    IncumbentsApart(prev, order, k, keep);
    ReversedMembers(order);
    FillUpKeeps(longs0, Reversed(order), shorts0, k);
    var longs := FillUp(longs0, Reversed(order), shorts0, k);
    FillUpKeeps(shorts0, order, longs, k);
    if 2 * k <= |order| {
      FillUpFills(longs0, Reversed(order), order, shorts0, k);
      FillUpFills(shorts0, order, order, longs, k);
    }
  }

  /** With the buffer both legs are held as soon as one leg is smaller than the cross-section. */
  lemma BufferedLegsAreHeld(prev: Legs, order: seq<nat>, k: nat, keep: nat)
    requires LegsApart(prev) && Distinct(order) && 0 < k < |order|
    ensures BufferedLegs(prev, order, k, keep).longs != [] && BufferedLegs(prev, order, k, keep).shorts != []
  {
    hide FillUp, Retained, FirstK;
    var longs0 := FirstK(Retained(prev.longs, Strongest(order, keep)), k);
    var shorts0 := FirstK(Retained(prev.shorts, Weakest(order, keep)), k);
    IncumbentsApart(prev, order, k, keep);
    ReversedMembers(order);
    FillUpKeeps(longs0, Reversed(order), shorts0, k);
    FillUpFindsOne(longs0, Reversed(order), order, shorts0, k);
    FillUpFindsOne(shorts0, order, order, FillUp(longs0, Reversed(order), shorts0, k), k);
  }

  /** A leg that may take the whole order takes all of it that the other leg leaves. */
  lemma FillUpTakesTheRest(leg: seq<nat>, candidates: seq<nat>, order: seq<nat>, other: seq<nat>, k: nat)
    requires Distinct(order) && Distinct(leg) && Disjoint(leg, other) && Within(leg, order)
    requires |leg| <= k && k >= |order| && forall s :: s in candidates <==> s in order
    ensures Members(FillUp(leg, candidates, other, k)) == Members(order) - Members(other)
  {
    FillUpKeeps(leg, candidates, other, k);
    var r := FillUp(leg, candidates, other, k);
    if |r| == k {
      DistinctSize(r);
      DistinctSize(order);
      SubsetSize(Members(r), Members(order));
      assert forall s :: s in order <==> s in Members(order);
      assert forall s :: s in r <==> s in Members(r);
    }
  }

  /** When one leg could take the whole cross-section, the shorts are the previous shorts still
      usable and the longs are everything else. */
  lemma OversizedLegs(prev: Legs, order: seq<nat>, k: nat, keep: nat)
    requires LegsApart(prev) && Distinct(order) && |order| <= k <= keep
    ensures var shorts := Members(prev.shorts) * Members(order);
            && Members(BufferedLegs(prev, order, k, keep).longs) == Members(order) - shorts
            && Members(BufferedLegs(prev, order, k, keep).shorts) == shorts
  {
    hide FillUp, Retained;
    RetainedIsSubsequence(prev.longs, order);
    RetainedIsSubsequence(prev.shorts, order);
    AllRetainedFit(prev.longs, order);
    AllRetainedFit(prev.shorts, order);
    var longs0, shorts0 := Retained(prev.longs, order), Retained(prev.shorts, order);
    assert Members(shorts0) == Members(prev.shorts) * Members(order);
    ReversedMembers(order);
    FillUpTakesTheRest(longs0, Reversed(order), order, shorts0, k);
    var longs := FillUp(longs0, Reversed(order), shorts0, k);
    FillUpKeeps(longs0, Reversed(order), shorts0, k);
    assert forall s :: s in shorts0 ==> s !in longs;
    FillUpTakesTheRest(shorts0, order, order, longs, k);
    assert Members(order) - (Members(order) - Members(shorts0)) == Members(shorts0);
  }

  lemma AllRetainedFit(prev: seq<nat>, order: seq<nat>)
    requires Distinct(prev) && Distinct(order)
    ensures |Retained(prev, order)| <= |order|
  {
    RetainedIsSubsequence(prev, order);
    DistinctSize(Retained(prev, order));
    DistinctSize(order);
    SubsetSize(Members(Retained(prev, order)), Members(order));
  }

  /** An incumbent still in its exit zone keeps its place unless the zone holds more than k
      incumbents of its leg. */
  lemma IncumbentsStay(prev: Legs, order: seq<nat>, k: nat, keep: nat, s: nat)
    requires LegsApart(prev) && Distinct(order)
    ensures s in prev.longs && s in Strongest(order, keep) ==>
              s in BufferedLegs(prev, order, k, keep).longs || |Retained(prev.longs, Strongest(order, keep))| > k
    ensures s in prev.shorts && s in Weakest(order, keep) ==>
              s in BufferedLegs(prev, order, k, keep).shorts || |Retained(prev.shorts, Weakest(order, keep))| > k
  {
    var longs0 := FirstK(Retained(prev.longs, Strongest(order, keep)), k);
    var shorts0 := FirstK(Retained(prev.shorts, Weakest(order, keep)), k);
    RetainedIsSubsequence(prev.longs, Strongest(order, keep));
    RetainedIsSubsequence(prev.shorts, Weakest(order, keep));
    IncumbentsApart(prev, order, k, keep);
    hide FillUp, Retained;
    FillUpKeeps(longs0, Reversed(order), shorts0, k);
    var longs := FillUp(longs0, Reversed(order), shorts0, k);
    FillUpKeeps(shorts0, order, longs, k);
    assert forall x :: x in longs0 ==> x in longs;
    assert forall x :: x in shorts0 ==> x in FillUp(shorts0, order, longs, k);
  }

  // ---------------------------------------------------------------- who stays and who enters

  lemma {:induction false} RetainedInOrder(prev: seq<nat>, zone: seq<nat>, i: nat)
    requires i < |prev| && prev[i] in zone
    ensures var at := |Retained(prev[..i], zone)|; at < |Retained(prev, zone)| && Retained(prev, zone)[at] == prev[i]
  {
    var n := |prev| - 1;
    if i < n {
      RetainedInOrder(prev[..n], zone, i);
      assert prev[..n][..i] == prev[..i];
    }
  }

  lemma {:induction false} RetainedGrows(prev: seq<nat>, zone: seq<nat>, i: nat, j: nat)
    requires i < j <= |prev| && prev[i] in zone
    ensures |Retained(prev[..i], zone)| < |Retained(prev[..j], zone)|
  {
    RetainedInOrder(prev[..j], zone, i);
    assert prev[..j][..i] == prev[..i];
  }

  /** The cut to k members takes the incumbents furthest back in the previous leg. */
  lemma FirstKeepTheirPlace(prev: seq<nat>, zone: seq<nat>, k: nat, i: nat, j: nat)
    requires Distinct(prev) && i < j < |prev| && prev[i] in zone && prev[j] in zone
    ensures prev[j] in FirstK(Retained(prev, zone), k) ==> prev[i] in FirstK(Retained(prev, zone), k)
  {
    var kept, a, b := Retained(prev, zone), |Retained(prev[..i], zone)|, |Retained(prev[..j], zone)|;
    RetainedIsSubsequence(prev, zone);
    RetainedInOrder(prev, zone, i);
    RetainedInOrder(prev, zone, j);
    RetainedGrows(prev, zone, i, j);
    hide Retained;
    if prev[j] in FirstK(kept, k) {
      var c :| 0 <= c < |FirstK(kept, k)| && FirstK(kept, k)[c] == prev[j];
      assert c == b;
      assert FirstK(kept, k)[a] == prev[i];
    }
  }

  lemma FirstKOf(xs: seq<nat>, k: nat)
    ensures |xs| <= k ==> FirstK(xs, k) == xs
    ensures |xs| > k ==> |FirstK(xs, k)| == k
  {
  }

  /** If some incumbent in its zone stays, so does every incumbent in the zone that came before it. */
  lemma IncumbentsLeaveFromTheBack(prev: Legs, order: seq<nat>, k: nat, keep: nat, i: nat, j: nat)
    requires LegsApart(prev) && Distinct(order) && i < j
    ensures j < |prev.longs| && prev.longs[i] in Strongest(order, keep) && prev.longs[j] in Strongest(order, keep) ==>
              var longs := BufferedLegs(prev, order, k, keep).longs; prev.longs[j] in longs ==> prev.longs[i] in longs
    ensures j < |prev.shorts| && prev.shorts[i] in Weakest(order, keep) && prev.shorts[j] in Weakest(order, keep) ==>
              var shorts := BufferedLegs(prev, order, k, keep).shorts; prev.shorts[j] in shorts ==> prev.shorts[i] in shorts
  {
    var longKept, shortKept := Retained(prev.longs, Strongest(order, keep)), Retained(prev.shorts, Weakest(order, keep));
    FirstKOf(longKept, k);
    FirstKOf(shortKept, k);
    var legs := BufferedLegs(prev, order, k, keep);
    hide FillUp, Retained, FirstK, Strongest, Weakest;
    if j < |prev.longs| && prev.longs[i] in Strongest(order, keep) && prev.longs[j] in Strongest(order, keep) {
      IncumbentsStay(prev, order, k, keep, prev.longs[i]);
      FirstKeepTheirPlace(prev.longs, Strongest(order, keep), k, i, j);
      if |longKept| > k {
        FullLegIgnoresCandidates(FirstK(longKept, k), Reversed(order), FirstK(shortKept, k), k);
      }
    }
    if j < |prev.shorts| && prev.shorts[i] in Weakest(order, keep) && prev.shorts[j] in Weakest(order, keep) {
      IncumbentsStay(prev, order, k, keep, prev.shorts[i]);
      FirstKeepTheirPlace(prev.shorts, Weakest(order, keep), k, i, j);
      if |shortKept| > k {
        FullLegIgnoresCandidates(FirstK(shortKept, k), order, legs.longs, k);
      }
    }
  }

  /** A candidate joins only after every earlier one has joined a leg. */
  lemma {:induction false} FillUpPrefers(leg: seq<nat>, candidates: seq<nat>, other: seq<nat>, k: nat, a: nat, b: nat)
    requires Distinct(leg) && Disjoint(leg, other) && |leg| <= k && Distinct(candidates) && a < b < |candidates|
    requires candidates[b] in FillUp(leg, candidates, other, k) && candidates[b] !in leg
    ensures candidates[a] in FillUp(leg, candidates, other, k) || candidates[a] in other
  {
    var n := |candidates| - 1;
    FillUpKeeps(leg, candidates[..n], other, k);
    assert candidates[..n][a] == candidates[a];
    if b < n {
      assert candidates[..n][b] == candidates[b];
      FillUpPrefers(leg, candidates[..n], other, k, a, b);
    } else {
      assert candidates[n] !in candidates[..n];
    }
  }

  /** New members are the best on offer: a symbol enters the long leg only when every stronger one
      is in a leg, the short leg only when every weaker one is. */
  lemma EntrantsAreBest(prev: Legs, order: seq<nat>, k: nat, keep: nat, i: nat, j: nat)
    requires LegsApart(prev) && Distinct(order) && i < j < |order|
    ensures var legs := BufferedLegs(prev, order, k, keep);
            && (order[i] in legs.longs && !(order[i] in prev.longs && order[i] in Strongest(order, keep)) ==>
                  order[j] in legs.longs || order[j] in legs.shorts)
            && (order[j] in legs.shorts && !(order[j] in prev.shorts && order[j] in Weakest(order, keep)) ==>
                  order[i] in legs.shorts || order[i] in legs.longs)
  {
    RetainedIsSubsequence(prev.longs, Strongest(order, keep));
    RetainedIsSubsequence(prev.shorts, Weakest(order, keep));
    FirstKKeeps(Retained(prev.longs, Strongest(order, keep)), k);
    FirstKKeeps(Retained(prev.shorts, Weakest(order, keep)), k);
    IncumbentsApart(prev, order, k, keep);
    var longs0 := FirstK(Retained(prev.longs, Strongest(order, keep)), k);
    var shorts0 := FirstK(Retained(prev.shorts, Weakest(order, keep)), k);
    var legs := BufferedLegs(prev, order, k, keep);
    hide FillUp, Retained, FirstK, Strongest, Weakest, BufferedLegs;
    EntrantsOf(longs0, shorts0, legs, order, k, i, j);
  }

  lemma EntrantsOf(longs0: seq<nat>, shorts0: seq<nat>, legs: Legs, order: seq<nat>, k: nat, i: nat, j: nat)
    requires Distinct(order) && i < j < |order| && Distinct(longs0) && Distinct(shorts0) && Disjoint(longs0, shorts0)
    requires |longs0| <= k && |shorts0| <= k
    requires legs.longs == FillUp(longs0, Reversed(order), shorts0, k) && legs.shorts == FillUp(shorts0, order, legs.longs, k)
    ensures order[i] in legs.longs && order[i] !in longs0 ==> order[j] in legs.longs || order[j] in legs.shorts
    ensures order[j] in legs.shorts && order[j] !in shorts0 ==> order[i] in legs.shorts || order[i] in legs.longs
  {
    hide FillUp;
    FillUpKeeps(longs0, Reversed(order), shorts0, k);
    FillUpKeeps(shorts0, order, legs.longs, k);
    assert forall s :: s in shorts0 ==> s in legs.shorts;
    var n := |order|;
    assert Reversed(order)[n - 1 - j] == order[j] && Reversed(order)[n - 1 - i] == order[i];
    if order[i] in legs.longs && order[i] !in longs0 {
      FillUpPrefers(longs0, Reversed(order), shorts0, k, n - 1 - j, n - 1 - i);
    }
    if order[j] in legs.shorts && order[j] !in shorts0 {
      FillUpPrefers(shorts0, order, legs.longs, k, i, j);
    }
  }

  // ---------------------------------------------------------------- the buffer refines the plain builder

  lemma {:induction false} FillUpSplits(leg: seq<nat>, a: seq<nat>, b: seq<nat>, other: seq<nat>, k: nat)
    ensures FillUp(leg, a + b, other, k) == FillUp(FillUp(leg, a, other, k), b, other, k)
  {
    if b == [] {
      assert a + b == a;
    } else {
      assert (a + b)[..|a + b| - 1] == a + b[..|b| - 1];
      FillUpSplits(leg, a, b[..|b| - 1], other, k);
    }
  }

  lemma {:induction false} FullLegIgnoresCandidates(leg: seq<nat>, candidates: seq<nat>, other: seq<nat>, k: nat)
    requires |leg| >= k
    ensures FillUp(leg, candidates, other, k) == leg
  {
    if candidates == [] {
    } else {
      FullLegIgnoresCandidates(leg, candidates[..|candidates| - 1], other, k);
    }
  }

  /** Filling from a leg's own zone of size k, offered first, ends with exactly that zone. */
  lemma FillsToItsZone(leg: seq<nat>, zone: seq<nat>, rest: seq<nat>, other: seq<nat>, k: nat)
    requires Distinct(leg) && |leg| <= k && Within(leg, zone)
    requires Distinct(zone) && |zone| == k && Disjoint(zone, other)
    ensures Members(FillUp(leg, zone + rest, other, k)) == Members(zone)
  {
    hide FillUp;
    assert Disjoint(leg, other);
    FillUpSplits(leg, zone, rest, other, k);
    FillUpKeeps(leg, zone, other, k);
    var r := FillUp(leg, zone, other, k);
    DistinctSize(zone);
    DistinctSize(r);
    if |r| < k {
      assert Members(zone) <= Members(r);
      SubsetSize(Members(zone), Members(r));
    }
    FullLegIgnoresCandidates(r, rest, other, k);
    SubsetSize(Members(r), Members(zone));
  }

  /** With an exit zone no wider than the leg, hysteresis changes nothing: whatever the previous
      legs were, the buffered legs are the plain ones. */
  lemma NoBufferMeansPlain(prev: Legs, order: seq<nat>, k: nat)
    requires LegsApart(prev) && Distinct(order) && 2 * k <= |order|
    ensures Members(BufferedLegs(prev, order, k, k).longs) == Members(PlainLegs(order, k).longs)
    ensures Members(BufferedLegs(prev, order, k, k).shorts) == Members(PlainLegs(order, k).shorts)
  {
    hide FillUp, Retained, FirstK;
    var n := |order|;
    var top, bottom := Strongest(order, k), Weakest(order, k);
    PlainLegsOk(order, k);
    RetainedIsSubsequence(prev.longs, top);
    RetainedIsSubsequence(prev.shorts, bottom);
    FirstKKeeps(Retained(prev.longs, top), k);
    FirstKKeeps(Retained(prev.shorts, bottom), k);
    var longs0 := FirstK(Retained(prev.longs, top), k);
    var shorts0 := FirstK(Retained(prev.shorts, bottom), k);
    var topDown := Reversed(top);
    ReversedMembers(top);
    assert Reversed(order) == topDown + Reversed(order[..n - k]);
    FillsToItsZone(longs0, topDown, Reversed(order[..n - k]), shorts0, k);
    var longs := FillUp(longs0, Reversed(order), shorts0, k);
    assert Members(topDown) == Members(top);
    assert forall s :: s in longs <==> s in Members(longs);
    assert forall s :: s in top <==> s in Members(top);
    assert order == bottom + order[k..];
    FillsToItsZone(shorts0, bottom, order[k..], longs, k);
  }

  // ---------------------------------------------------------------- leg sizes

  lemma RoundBelowHalf(x: real, m: int)
    requires x < m as real + 0.5
    ensures RoundHalfEven(x) <= m
  {
  }

  lemma FitsBelowHalf(count: nat, quantile: real)
    requires quantile < 0.5 && 2 <= count
    ensures 2 * LegSize(count, quantile) <= count
  {
    var x := count as real * quantile;
    assert x < count as real * 0.5;
    var m := count / 2;
    assert count as real * 0.5 <= m as real + 0.5;
    RoundBelowHalf(x, m);
  }

  /** The largest quantile for which two legs fit into every admissible cross-section is just
      under a half: at a half, 23 symbols already ask for two legs of 12. */
  lemma LegsAlwaysFitExactlyWhen(quantile: real)
    ensures (forall count: nat :: MIN_SYMBOLS_PER_PERIOD <= count ==> 2 * LegSize(count, quantile) <= count)
            <==> quantile < 0.5
  {
    if quantile < 0.5 {
      forall count: nat | MIN_SYMBOLS_PER_PERIOD <= count ensures 2 * LegSize(count, quantile) <= count {
        FitsBelowHalf(count, quantile);
      }
    } else {
      assert 23.0 * quantile >= 11.5;
      assert LegSize(23, quantile) >= 12;
    }
  }

  /** Each long is at least as strong as every usable symbol left out of the long leg, and each
      short at least as weak as every usable symbol left out of the short leg. */
  lemma PlainLegsAreExtremes(order: seq<nat>, signal: Row, forward: Row, k: nat, picked: nat, other: nat)
    requires IsRanking(order, signal, forward) && Usable(signal, forward, picked) && Usable(signal, forward, other)
    ensures picked in PlainLegs(order, k).longs && other !in PlainLegs(order, k).longs ==>
              signal[other].value <= signal[picked].value
    ensures picked in PlainLegs(order, k).shorts && other !in PlainLegs(order, k).shorts ==>
              signal[picked].value <= signal[other].value
  {
    assert picked in order && other in order;
    var i :| 0 <= i < |order| && order[i] == picked;
    var j :| 0 <= j < |order| && order[j] == other;
    hide Strongest, Weakest;
  }
}
