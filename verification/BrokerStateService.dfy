/**
  The state store of `services/persistence/broker_state.py` over in-memory tables, and the broker
  calls it drives.
 */
module BrokerStateService {
  import opened Sequences
  import opened Wrappers

  import opened PaperBroker
  import opened BrokerState

  /** The old rows with the first i of them processed. */
  ghost predicate Progress(current: seq<Row>, before: seq<Row>, held: Held, mode: string, now: int, i: nat)
    requires i <= |before|
  {
    && |current| == |before|
    && (forall j :: 0 <= j < i ==> current[j] == Touched(before[j], held, mode, now))
    && (forall j :: i <= j < |before| ==> current[j] == before[j])
  }

  /** One new row for each of the named symbols. */
  ghost predicate AreNewRows(added: seq<Row>, held: Held, names: set<string>, mode: string, now: int)
    requires names <= held.Keys
  {
    && (forall i :: 0 <= i < |added| ==> added[i].symbol in names && added[i] == Opened(held[added[i].symbol], mode, now))
    && (forall i, j :: 0 <= i < j < |added| ==> added[i].symbol != added[j].symbol)
    && (forall s :: s in names ==> exists i :: 0 <= i < |added| && added[i].symbol == s)
  }

  lemma NoNewRows(held: Held, mode: string, now: int)
    ensures AreNewRows([], held, {}, mode, now)
  {
  }

  lemma OneNewRow(added: seq<Row>, held: Held, names: set<string>, mode: string, now: int, s: string)
    requires HeldOk(held) && names <= held.Keys && s in held && s !in names && AreNewRows(added, held, names, mode, now)
    ensures AreNewRows(added + [Opened(held[s], mode, now)], held, names + {s}, mode, now)
  {
    var all := added + [Opened(held[s], mode, now)];
    assert all[|added|].symbol == s;
    assert forall i :: 0 <= i < |added| ==> all[i] == added[i];
  }

  lemma RowsMakeCheckpoint(before: seq<Row>, middle: seq<Row>, after: seq<Row>, held: Held, seen: set<string>, mode: string, now: int)
    requires Progress(middle, before, held, mode, now, |before|)
    requires forall s :: s in seen <==> s in held && HasOpen(before, mode, s)
    requires |middle| <= |after| && after[..|middle|] == middle
    requires AreNewRows(after[|middle|..], held, held.Keys - seen, mode, now)
    ensures IsCheckpoint(before, after, held, mode, now)
  {
    var n, added := |before|, after[|middle|..];
    hide HasOpen, Touched, Opened, AreNewRows;
    assert forall i :: 0 <= i < n ==> after[i] == after[..n][i] == middle[i];
    NewRowsInPlace(after, n, held, held.Keys - seen, mode, now);
    assert forall s :: s in held.Keys - seen <==> s in held && !HasOpen(before, mode, s);
  }

  /** The new rows, numbered by their place in the whole table. */
  lemma NewRowsInPlace(after: seq<Row>, n: nat, held: Held, names: set<string>, mode: string, now: int)
    requires n <= |after| && names <= held.Keys && AreNewRows(after[n..], held, names, mode, now)
    ensures forall i :: n <= i < |after| ==> after[i].symbol in names && after[i] == Opened(held[after[i].symbol], mode, now)
    ensures forall i, j :: n <= i < j < |after| ==> after[i].symbol != after[j].symbol
    ensures forall s :: s in names ==> exists i :: n <= i < |after| && after[i].symbol == s
  {
    hide Opened;
    var added := after[n..];
    assert forall i :: n <= i < |after| ==> after[i] == added[i - n];
    forall s | s in names ensures exists i :: n <= i < |after| && after[i].symbol == s {
      var i :| 0 <= i < |added| && added[i].symbol == s;
      assert after[n + i].symbol == s;
    }
  }

  lemma {:induction false} HeldIsNonZero(report: seq<Holding>)
    ensures HeldOk(HeldOf(report))
  {
    if report == [] {
    } else {
      HeldIsNonZero(report[..|report| - 1]);
    }
  }

  class BrokerStateStore {
    const tradingMode: string
    var table: seq<Row>
    var snapshots: seq<Snapshot>
    var fills: seq<FillRow>

    constructor (tradingMode: string)
      ensures this.tradingMode == tradingMode && table == [] && snapshots == [] && fills == []
    {
      this.tradingMode := tradingMode;
      table, snapshots, fills := [], [], [];
    }

    /** Mark or close the open rows of this mode; the symbols that had one are returned. */
    method UpdateOpenRows(held: Held, now: int) returns (seen: set<string>)
      modifies this`table
      ensures Progress(table, old(table), held, tradingMode, now, |old(table)|)
      ensures forall s :: s in seen <==> s in held && HasOpen(old(table), tradingMode, s)
    {
      seen := {};
      var i := 0;
      while i < |table|
        invariant 0 <= i <= |table| == |old(table)|
        invariant Progress(table, old(table), held, tradingMode, now, i)
        invariant forall s :: s in seen ==> s in held && HasOpen(old(table), tradingMode, s)
        invariant forall s, j: nat :: j < i && OpenAt(old(table), tradingMode, j, s) && s in held ==> s in seen
      {
        var row := table[i];
        if IsOpen(row, tradingMode) {
          assert OpenAt(old(table), tradingMode, i, row.symbol);
          if row.symbol !in held {
            table := table[i := row.(closedAt := Some(now), updatedAt := now)];
          } else {
            seen := seen + {row.symbol};
            table := table[i := Marked(row, held[row.symbol], now)];
          }
        }
        i := i + 1;
      }
    }

    /** Open a row for every held symbol that had none. */
    method AddRows(held: Held, seen: set<string>, now: int)
      requires HeldOk(held)
      modifies this`table
      ensures |old(table)| <= |table| && table[..|old(table)|] == old(table)
      ensures AreNewRows(table[|old(table)|..], held, held.Keys - seen, tradingMode, now)
    {
      hide AreNewRows, Opened, HeldOk;
      var symbols := held.Keys - seen;
      ghost var all, added: seq<Row> := symbols, [];
      NoNewRows(held, tradingMode, now);
      assert all - symbols == {};
      while symbols != {}
        invariant symbols <= all
        invariant table == old(table) + added
        invariant AreNewRows(added, held, all - symbols, tradingMode, now)
        decreases |symbols|
      {
        var s :| s in symbols;
        OneNewRow(added, held, all - symbols, tradingMode, now, s);
        assert all - (symbols - {s}) == (all - symbols) + {s};
        symbols := symbols - {s};
        var row := Opened(held[s], tradingMode, now);
        AppendTwice(old(table), added, [row]);
        table := table + [row];
        added := added + [row];
      }
      assert all - symbols == all;
    }

    method Checkpoint(report: seq<Holding>, now: int)
      modifies this`table
      ensures IsCheckpoint(old(table), table, HeldOf(report), tradingMode, now)
    {
      var held := HeldOf(report);
      HeldIsNonZero(report);
      var seen := UpdateOpenRows(held, now);
      ghost var middle := table;
      AddRows(held, seen, now);
      RowsMakeCheckpoint(old(table), middle, table, held, seen, tradingMode, now);
    }

    /** One snapshot and, when the book was fetched, its checkpoint. */
    method WriteOnce(equity: real, cash: real, realized: real, positionCount: nat, report: Option<seq<Holding>>, now: int)
      modifies this`table, this`snapshots
      ensures snapshots == old(snapshots) + [Snapshot(now, tradingMode, equity, cash, realized, positionCount)]
      ensures match report
              case Some(hs) => IsCheckpoint(old(table), table, HeldOf(hs), tradingMode, now)
              case None => table == old(table)
    {
      snapshots := snapshots + [Snapshot(now, tradingMode, equity, cash, realized, positionCount)];
      if report.Some? {
        Checkpoint(report.value, now);
      }
    }

    /** One tick of the snapshot writer.  The simulated broker answers both reads without
        suspending, so nothing comes between them: snapshot and book are one account state. */
    method Tick(broker: PaperBroker, equity: real, now: int)
      modifies this`table, this`snapshots
      ensures exists report, s ::
                && IsReportOf(report, broker.Contents())
                && IsCheckpoint(old(table), table, HeldOf(report), tradingMode, now)
                && snapshots == old(snapshots) + [s] && IsSnapshotOf(s, broker.Contents(), report, tradingMode)
                && s.time == now && s.equity == equity
    {
      var cash, realized := broker.GetAccount();
      var report := broker.GetPositions();
      WriteOnce(equity, cash, realized, |report|, Some(report), now);
      ghost var s := snapshots[|snapshots| - 1];
      assert snapshots == old(snapshots) + [s] && IsSnapshotOf(s, broker.Contents(), report, tradingMode);
    }

    method ReadOpenBook() returns (b: Book)
      ensures b == ReadBook(table, tradingMode)
    {
      b := Book(map[], map[], map[]);
      var i := 0;
      assert table[..0] == [];
      while i < |table|
        invariant 0 <= i <= |table|
        invariant b == ReadBook(table[..i], tradingMode)
      {
        assert table[..i + 1][..i] == table[..i];
        if IsOpen(table[i], tradingMode) {
          b := ReadRow(b, table[i]);
        }
        i := i + 1;
      }
      assert table[..i] == table;
    }

    method ReplayFillsAfter(broker: PaperBroker, since: int)
      modifies broker
      ensures broker.Contents() == Replay(old(broker.Contents()), FillsAfter(fills, tradingMode, since))
    {
      var i := 0;
      ghost var done: seq<Fill> := [];
      assert fills[..0] == [];
      while i < |fills|
        invariant 0 <= i <= |fills|
        invariant done == FillsAfter(fills[..i], tradingMode, since)
        invariant broker.Contents() == Replay(old(broker.Contents()), done)
      {
        assert fills[..i + 1][..i] == fills[..i];
        var r := fills[i];
        if r.mode == tradingMode && r.filledAt > since {
          broker.ApplyFill(Replayed(r.fill));
          assert (done + [r.fill])[..|done|] == done;
          done := done + [r.fill];
        }
        i := i + 1;
      }
      assert fills[..i] == fills;
    }

    method Restore(broker: PaperBroker) returns (outcome: Outcome)
      modifies broker
      ensures (outcome, broker.Contents()) == Restoration(snapshots, table, fills, tradingMode, old(broker.Contents()))
    {
      var latest := Latest(snapshots, tradingMode);
      if latest == None {
        return Fresh;
      }
      var s := latest.value;
      var start := broker.Contents();
      if !AnyOpen(table, tradingMode) && s.positionCount > 0 {
        SetState(broker, RestoreState(start, s.equity, Book(map[], map[], map[]), s.realized));
        return Rebased;
      }
      var b := ReadOpenBook();
      SetState(broker, RestoreState(start, s.cash, b, s.realized));
      ReplayFillsAfter(broker, s.time);
      outcome := Restored;
    }

    method SetState(broker: PaperBroker, a: Account)
      modifies broker
      ensures broker.Contents() == a
    {
      broker.cash, broker.positions, broker.avgEntry := a.cash, a.positions, a.avgEntry;
      broker.lastPrices, broker.realizedPnl := a.lastPrices, a.realized;
    }
  }
}
