/**
  What a restart rebuilds after a crash: the last checkpoint plus the fills stamped after it,
  against the account that never crashed.
 */
module Restart {
  import opened Wrappers
  import opened PaperBroker
  import opened BrokerState

  // ---------------------------------------------------------------- sums over fills

  /** The sum of a weight over fills. */
  function Total(fills: seq<Fill>, weight: Fill -> real): real {
    if fills == [] then 0.0 else Total(fills[..|fills| - 1], weight) + weight(fills[|fills| - 1])
  }

  /** What a fill adds to the position of one symbol. */
  function Bought(symbol: string): Fill -> real {
    (f: Fill) => if f.symbol != symbol then 0.0 else if f.buy then f.quantity else -f.quantity
  }

  /** The money a fill costs, without its commission. */
  function Outlay(): Fill -> real {
    (f: Fill) => if f.buy then f.quantity * f.price else -(f.quantity * f.price)
  }

  lemma {:induction false} TotalSplits(a: seq<Fill>, b: seq<Fill>, weight: Fill -> real)
    ensures Total(a + b, weight) == Total(a, weight) + Total(b, weight)
  {
    if b == [] {
      assert a + b == a;
    } else {
      assert (a + b)[..|a + b| - 1] == a + b[..|b| - 1];
      TotalSplits(a, b[..|b| - 1], weight);
    }
  }

  lemma TotalWithout(fills: seq<Fill>, k: nat, weight: Fill -> real)
    requires k < |fills|
    ensures Total(fills, weight) == Total(fills[..k] + fills[k + 1..], weight) + weight(fills[k])
    ensures multiset(fills[..k] + fills[k + 1..]) == multiset(fills) - multiset{fills[k]}
  {
    hide Total;
    assert fills == fills[..k] + [fills[k]] + fills[k + 1..];
    TotalSplits(fills[..k] + [fills[k]], fills[k + 1..], weight);
    TotalSplits(fills[..k], [fills[k]], weight);
    TotalSplits(fills[..k], fills[k + 1..], weight);
    TotalOfOne(fills[k], weight);
  }

  lemma TotalOfOne(f: Fill, weight: Fill -> real)
    ensures Total([f], weight) == weight(f)
  {
    assert [f][..0] == [];
  }

  /** The order of the fills does not matter to a sum. */
  lemma {:induction false} TotalOfPermutation(a: seq<Fill>, b: seq<Fill>, weight: Fill -> real)
    requires multiset(a) == multiset(b)
    ensures Total(a, weight) == Total(b, weight)
  {
    if a == [] {
      assert |b| == |multiset(b)| == 0;
    } else {
      var last := a[|a| - 1];
      assert a == a[..|a| - 1] + [last];
      assert last in multiset(b);
      var k :| 0 <= k < |b| && b[k] == last;
      TotalWithout(b, k, weight);
      TotalOfPermutation(a[..|a| - 1], b[..k] + b[k + 1..], weight);
    }
  }

  lemma FillMoves(a: Account, f: Fill, symbol: string)
    ensures Or(ApplyToBook(a, f).positions, symbol) == Or(a.positions, symbol) + Bought(symbol)(f)
    ensures ApplyToBook(a, f).cash == a.cash - Outlay()(f) - f.commission
  {
    hide NewAverage, Realised;
    PositionAfter(a, f, symbol);
    assert Signed(f) * f.price == if f.buy then f.quantity * f.price else -(f.quantity * f.price);
  }

  lemma ReplayMoves(a: Account, f: Fill, symbol: string)
    ensures Or(ApplyToBook(a, Replayed(f)).positions, symbol) == Or(a.positions, symbol) + Bought(symbol)(f)
    ensures ApplyToBook(a, Replayed(f)).cash == a.cash - Outlay()(f)
  {
    FillMoves(a, Replayed(f), symbol);
    hide ApplyToBook, Or;
  }

  /** Quantities and cash are sums: the order of the fills cannot change them. */
  lemma {:induction false} AppliedTotals(a: Account, fills: seq<Fill>, symbol: string)
    ensures Or(Applied(a, fills).positions, symbol) == Or(a.positions, symbol) + Total(fills, Bought(symbol))
    ensures Applied(a, fills).cash == a.cash - Total(fills, Outlay()) - Commissions(fills)
  {
    if fills == [] {
    } else {
      var before, last := fills[..|fills| - 1], fills[|fills| - 1];
      AppliedTotals(a, before, symbol);
      FillMoves(Applied(a, before), last, symbol);
      hide ApplyToBook, Or, Bought, Outlay;
    }
  }

  lemma {:induction false} ReplayTotals(a: Account, fills: seq<Fill>, symbol: string)
    ensures Or(Replay(a, fills).positions, symbol) == Or(a.positions, symbol) + Total(fills, Bought(symbol))
    ensures Replay(a, fills).cash == a.cash - Total(fills, Outlay())
  {
    if fills == [] {
    } else {
      var before, last := fills[..|fills| - 1], fills[|fills| - 1];
      ReplayTotals(a, before, symbol);
      ReplayMoves(Replay(a, before), last, symbol);
      hide ApplyToBook, Or, Bought, Outlay;
    }
  }

  // ---------------------------------------------------------------- when a fill was applied, when it was stamped

  function When(b: bool, f: Fill): seq<Fill> {
    if b then [f] else []
  }

  lemma TotalWhen(fills: seq<Fill>, b: bool, f: Fill, weight: Fill -> real)
    ensures Total(fills + When(b, f), weight) == Total(fills, weight) + if b then weight(f) else 0.0
  {
    if b {
      assert (fills + [f])[..|fills|] == fills;
    } else {
      assert fills + [] == fills;
    }
  }

  /** The rows applied after the checkpoint (or before it) and stamped after it (or not). */
  function Part(rows: seq<FillRow>, later: seq<bool>, since: int, appliedLater: bool, stampedLater: bool): seq<Fill>
    requires |rows| == |later|
  {
    if rows == [] then []
    else
      var n := |rows| - 1;
      Part(rows[..n], later[..n], since, appliedLater, stampedLater)
      + When(later[n] == appliedLater && (rows[n].filledAt > since) == stampedLater, rows[n].fill)
  }

  function AppliedLater(rows: seq<FillRow>, later: seq<bool>): seq<Fill>
    requires |rows| == |later|
  {
    if rows == [] then []
    else
      var n := |rows| - 1;
      AppliedLater(rows[..n], later[..n]) + When(later[n], rows[n].fill)
  }

  lemma {:induction false} AppliedLaterTotals(rows: seq<FillRow>, later: seq<bool>, since: int, weight: Fill -> real)
    requires |rows| == |later|
    ensures Total(AppliedLater(rows, later), weight)
            == Total(Part(rows, later, since, true, true), weight) + Total(Part(rows, later, since, true, false), weight)
  {
    if rows == [] {
    } else {
      var n := |rows| - 1;
      AppliedLaterTotals(rows[..n], later[..n], since, weight);
      var late, f := rows[n].filledAt > since, rows[n].fill;
      hide When, Total;
      TotalWhen(AppliedLater(rows[..n], later[..n]), later[n], f, weight);
      TotalWhen(Part(rows[..n], later[..n], since, true, true), later[n] && late, f, weight);
      TotalWhen(Part(rows[..n], later[..n], since, true, false), later[n] && !late, f, weight);
    }
  }

  lemma {:induction false} OtherModesAreSkipped(rows: seq<FillRow>, mode: string, since: int)
    ensures FillsAfter(rows, mode, since) == FillsAfter(OfMode(rows, mode), mode, since)
    ensures forall i :: 0 <= i < |OfMode(rows, mode)| ==> OfMode(rows, mode)[i].mode == mode
  {
    if rows == [] {
    } else {
      var before, r := rows[..|rows| - 1], rows[|rows| - 1];
      OtherModesAreSkipped(before, mode, since);
      var mine := OfMode(before, mode);
      if r.mode == mode {
        assert (mine + [r])[..|mine|] == mine;
      } else {
        assert mine + [] == mine && FillsAfter(before, mode, since) + [] == FillsAfter(before, mode, since);
      }
    }
  }

  lemma {:induction false} ReplayedTotals(mine: seq<FillRow>, mode: string, later: seq<bool>, since: int, weight: Fill -> real)
    requires |mine| == |later| && forall i :: 0 <= i < |mine| ==> mine[i].mode == mode
    ensures Total(FillsAfter(mine, mode, since), weight)
            == Total(Part(mine, later, since, true, true), weight) + Total(Part(mine, later, since, false, true), weight)
  {
    if mine == [] {
    } else {
      var n := |mine| - 1;
      ReplayedTotals(mine[..n], mode, later[..n], since, weight);
      var late, f := mine[n].filledAt > since, mine[n].fill;
      assert FillsAfter(mine, mode, since) == FillsAfter(mine[..n], mode, since) + When(late, f);
      hide When, Total, FillsAfter;
      TotalWhen(FillsAfter(mine[..n], mode, since), late, f, weight);
      TotalWhen(Part(mine[..n], later[..n], since, true, true), later[n] && late, f, weight);
      TotalWhen(Part(mine[..n], later[..n], since, false, true), !later[n] && late, f, weight);
    }
  }

  // ---------------------------------------------------------------- the restart

  /** A checkpoint of an account, with the tables as the crash left them. */
  datatype Crash = Crash(account: Account, report: seq<Holding>, before: seq<Row>, table: seq<Row>, snapshot: Snapshot,
                         writtenAt: int, snapshots: seq<Snapshot>, fills: seq<FillRow>, mode: string)

  /** The tables hold a checkpoint of that account, and it is the latest one of its mode. */
  ghost predicate Checkpointed(c: Crash) {
    && BookOk(c.account) && IsReportOf(c.report, c.account) && OneOpenRow(c.before, c.mode)
    && IsCheckpoint(c.before, c.table, HeldOf(c.report), c.mode, c.writtenAt)
    && IsSnapshotOf(c.snapshot, c.account, c.report, c.mode)
    && Latest(c.snapshots, c.mode) == Some(c.snapshot)
  }

  function Rebuilt(c: Crash, boot: Account): Account {
    Restoration(c.snapshots, c.table, c.fills, c.mode, boot).1
  }

  /** The fills of this mode that a restart replays. */
  function ReplayedBy(c: Crash): seq<Fill> {
    FillsAfter(c.fills, c.mode, c.snapshot.time)
  }

  lemma RebuiltReplays(c: Crash, boot: Account)
    requires Checkpointed(c)
    ensures Restoration(c.snapshots, c.table, c.fills, c.mode, boot).0 == Restored
    ensures exists r :: SameBook(r, c.account) && Rebuilt(c, boot) == Replay(r, ReplayedBy(c))
  {
    RestoreIsExact(c.account, c.report, c.before, c.table, c.snapshot, c.mode, c.writtenAt, boot);
    var r := RestoreState(boot, c.snapshot.cash, ReadBook(c.table, c.mode), c.snapshot.realized);
    assert SameBook(r, c.account) && Rebuilt(c, boot) == Replay(r, ReplayedBy(c));
  }

  /** Stamps that say what happened: after the checkpoint exactly when applied after it, the
      first `n` rows of the mode being the ones applied before it. */
  ghost predicate StampsAgree(c: Crash, n: nat) {
    var mine := OfMode(c.fills, c.mode);
    n <= |mine| && forall i :: 0 <= i < |mine| ==> (mine[i].filledAt > c.snapshot.time <==> i >= n)
  }

  function FillsOf(rows: seq<FillRow>): (r: seq<Fill>)
    ensures |r| == |rows| && forall i :: 0 <= i < |rows| ==> r[i] == rows[i].fill
  {
    seq(|rows|, i requires 0 <= i < |rows| => rows[i].fill)
  }

  lemma FillsOfMore(rows: seq<FillRow>, r: FillRow)
    ensures FillsOf(rows + [r]) == FillsOf(rows) + [r.fill]
  {
  }

  lemma {:induction false} ReplaysTheRest(rows: seq<FillRow>, mode: string, since: int, n: nat)
    requires var mine := OfMode(rows, mode);
             n <= |mine| && forall i :: 0 <= i < |mine| ==> (mine[i].filledAt > since <==> i >= n)
    ensures FillsAfter(rows, mode, since) == FillsOf(OfMode(rows, mode)[n..])
  {
    hide FillsOf;
    if rows == [] {
    } else {
      var before, r := rows[..|rows| - 1], rows[|rows| - 1];
      var mine := OfMode(before, mode);
      if r.mode == mode {
        assert OfMode(rows, mode) == mine + [r];
        assert forall i :: 0 <= i < |mine| ==> (mine + [r])[i] == mine[i];
        if n <= |mine| {
          assert (mine + [r])[|mine|] == r;
          ReplaysTheRest(before, mode, since, n);
          FillsOfMore(mine[n..], r);
          assert (mine + [r])[n..] == mine[n..] + [r];
        } else {
          assert (mine + [r])[|mine|] == r;
          ReplaysTheRest(before, mode, since, |mine|);
        }
      } else {
        assert OfMode(rows, mode) == mine;
        ReplaysTheRest(before, mode, since, n);
      }
    }
  }

  /** When the stamps agree with what happened, a restart rebuilds the account that never
      crashed, cost basis included, except that the commissions of the replayed fills are given
      back. */
  lemma RestartLosesOnlyCommissions(c: Crash, n: nat, boot: Account)
    requires Checkpointed(c) && StampsAgree(c, n)
    ensures var later := FillsOf(OfMode(c.fills, c.mode)[n..]);
            var r, uncrashed := Rebuilt(c, boot), Applied(c.account, later);
            && SamePositions(r, uncrashed)
            && r.cash == uncrashed.cash + Commissions(later)
            && r.realized == uncrashed.realized + Commissions(later)
            && (SameBook(r, uncrashed) <==> Commissions(later) == 0.0)
  {
    hide Checkpointed;
    RebuiltReplays(c, boot);
    ReplaysTheRest(c.fills, c.mode, c.snapshot.time, n);
    var start :| SameBook(start, c.account) && Rebuilt(c, boot) == Replay(start, ReplayedBy(c));
    ReplayOmitsCommissions(start, c.account, ReplayedBy(c));
  }

  // ---------------------------------------------------------------- whatever the stamps say

  /** Which rows of the mode were applied after the checkpoint; the fills applied after it, in
      the order they were; and those of them the tables never got. */
  datatype History = History(later: seq<bool>, applied: seq<Fill>, unwritten: seq<Fill>)

  ghost predicate HistoryOf(h: History, c: Crash) {
    && |h.later| == |OfMode(c.fills, c.mode)|
    && multiset(h.applied) == multiset(AppliedLater(OfMode(c.fills, c.mode), h.later)) + multiset(h.unwritten)
  }

  /** Applied after the checkpoint and not replayed: stamped no later than it, or never written. */
  function Missed(h: History, c: Crash): seq<Fill>
    requires |h.later| == |OfMode(c.fills, c.mode)|
  {
    Part(OfMode(c.fills, c.mode), h.later, c.snapshot.time, true, false) + h.unwritten
  }

  /** In the checkpoint and replayed again: applied before it, stamped after it. */
  function Doubled(h: History, c: Crash): seq<Fill>
    requires |h.later| == |OfMode(c.fills, c.mode)|
  {
    Part(OfMode(c.fills, c.mode), h.later, c.snapshot.time, false, true)
  }

  lemma ReplayedAgainstApplied(h: History, c: Crash, weight: Fill -> real)
    requires HistoryOf(h, c)
    ensures Total(ReplayedBy(c), weight)
            == Total(h.applied, weight) - Total(Missed(h, c), weight) + Total(Doubled(h, c), weight)
  {
    hide Part, AppliedLater, Total;
    var mine, t := OfMode(c.fills, c.mode), c.snapshot.time;
    OtherModesAreSkipped(c.fills, c.mode, t);
    ReplayedTotals(mine, c.mode, h.later, t, weight);
    AppliedLaterTotals(mine, h.later, t, weight);
    TotalSplits(AppliedLater(mine, h.later), h.unwritten, weight);
    TotalOfPermutation(h.applied, AppliedLater(mine, h.later) + h.unwritten, weight);
    TotalSplits(Part(mine, h.later, t, true, false), h.unwritten, weight);
  }

  ghost predicate SameQuantities(a: Account, b: Account) {
    forall s :: Or(a.positions, s) == Or(b.positions, s)
  }

  /** Whatever the stamps say and whatever order the fills came in: the rebuilt position in each
      symbol is the uncrashed one without the missed fills and with the doubled ones once more,
      and so is the cash, with the commissions given back.  The positions agree exactly when
      missed and doubled fills cancel out in every symbol. */
  lemma RestartMisstatesByMissedAndDoubled(h: History, c: Crash, boot: Account)
    requires Checkpointed(c) && HistoryOf(h, c)
    ensures var r, uncrashed := Rebuilt(c, boot), Applied(c.account, h.applied);
            && (forall s :: Or(r.positions, s)
                  == Or(uncrashed.positions, s) - Total(Missed(h, c), Bought(s)) + Total(Doubled(h, c), Bought(s)))
            && r.cash == uncrashed.cash + Commissions(h.applied) + Total(Missed(h, c), Outlay()) - Total(Doubled(h, c), Outlay())
            && (SameQuantities(r, uncrashed) <==>
                  forall s :: Total(Missed(h, c), Bought(s)) == Total(Doubled(h, c), Bought(s)))
  {
    hide Checkpointed, Total, Missed, Doubled, Rebuilt, ReplayedBy, Applied, Replay, Or, AppliedLater;
    var r, uncrashed := Rebuilt(c, boot), Applied(c.account, h.applied);
    RebuiltReplays(c, boot);
    var start :| SameBook(start, c.account) && r == Replay(start, ReplayedBy(c));
    forall s ensures Or(r.positions, s)
               == Or(uncrashed.positions, s) - Total(Missed(h, c), Bought(s)) + Total(Doubled(h, c), Bought(s))
    {
      AppliedTotals(c.account, h.applied, s);
      ReplayTotals(start, ReplayedBy(c), s);
      ReplayedAgainstApplied(h, c, Bought(s));
    }
    AppliedTotals(c.account, h.applied, "");
    ReplayTotals(start, ReplayedBy(c), "");
    ReplayedAgainstApplied(h, c, Outlay());
  }

  /** The failing input: a fill in the checkpoint whose row is stamped after it, as the event
      that writes the row always comes later than the fill, is applied a second time. */
  lemma LateStampIsAppliedTwice(c: Crash, start: Account, f: Fill, stamp: int, boot: Account)
    requires Checkpointed(c) && c.account == ApplyToBook(start, f)
    requires c.fills != [] && c.fills[|c.fills| - 1] == FillRow(c.mode, stamp, f) && stamp > c.snapshot.time
    requires forall i :: 0 <= i < |c.fills| - 1 ==> c.fills[i].filledAt <= c.snapshot.time
    ensures Or(Rebuilt(c, boot).positions, f.symbol) == Or(start.positions, f.symbol) + Signed(f) + Signed(f)
    ensures Rebuilt(c, boot).cash == start.cash - Outlay()(f) - Outlay()(f) - f.commission
  {
    hide Checkpointed, Rebuilt, Replay, ReplayedBy, ApplyToBook, Total;
    ReplaysOneRow(c, f, stamp);
    RebuiltReplays(c, boot);
    var r :| SameBook(r, c.account) && Rebuilt(c, boot) == Replay(r, [f]);
    ReplayTotals(r, [f], f.symbol);
    TotalOfOne(f, Bought(f.symbol));
    TotalOfOne(f, Outlay());
    FillMoves(start, f, f.symbol);
  }

  lemma ReplaysOneRow(c: Crash, f: Fill, stamp: int)
    requires c.fills != [] && c.fills[|c.fills| - 1] == FillRow(c.mode, stamp, f) && stamp > c.snapshot.time
    requires forall i :: 0 <= i < |c.fills| - 1 ==> c.fills[i].filledAt <= c.snapshot.time
    ensures ReplayedBy(c) == [f]
  {
    OldRowsStay(c.fills[..|c.fills| - 1], c.mode, c.snapshot.time);
  }

  lemma {:induction false} OldRowsStay(rows: seq<FillRow>, mode: string, since: int)
    requires forall i :: 0 <= i < |rows| ==> rows[i].filledAt <= since
    ensures FillsAfter(rows, mode, since) == []
  {
    if rows == [] {
    } else {
      OldRowsStay(rows[..|rows| - 1], mode, since);
    }
  }
}
