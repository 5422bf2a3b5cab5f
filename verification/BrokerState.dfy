/**
  Checkpoint and restore of the simulated account (`services/persistence/broker_state.py`).
  Tables are sequences of rows; the fills table is read in filled_at order.
 */
module BrokerState {
  import opened Arithmetic
  import opened Wrappers
  import opened PaperBroker

  datatype Row = Row(symbol: string, mode: string, long: bool, quantity: real, avgEntry: real,
                     currentPrice: Option<real>, closedAt: Option<int>, updatedAt: int)

  datatype Snapshot = Snapshot(time: int, mode: string, equity: real, cash: real, realized: real, positionCount: nat)

  datatype FillRow = FillRow(mode: string, filledAt: int, fill: Fill)

  type Held = map<string, Holding>

  // ---------------------------------------------------------------- checkpoint

  predicate IsOpen(row: Row, mode: string) {
    row.closedAt == None && row.mode == mode
  }

  function NonZero(x: real): Option<real> {
    if x == 0.0 then None else Some(x)
  }

  function Marked(row: Row, h: Holding, now: int): Row {
    row.(long := h.quantity > 0.0, quantity := Abs(h.quantity), avgEntry := h.avgEntry,
         currentPrice := NonZero(h.currentPrice), updatedAt := now)
  }

  function Opened(h: Holding, mode: string, now: int): Row {
    Row(h.symbol, mode, h.quantity > 0.0, Abs(h.quantity), h.avgEntry, NonZero(h.currentPrice), None, now)
  }

  function Touched(row: Row, held: Held, mode: string, now: int): Row {
    if !IsOpen(row, mode) then row
    else if row.symbol in held then Marked(row, held[row.symbol], now)
    else row.(closedAt := Some(now), updatedAt := now)
  }

  function HeldOf(report: seq<Holding>): Held {
    if report == [] then map[]
    else
      var h := report[|report| - 1];
      if h.quantity != 0.0 then HeldOf(report[..|report| - 1])[h.symbol := h] else HeldOf(report[..|report| - 1])
  }

  ghost predicate HeldOk(held: Held) {
    forall s :: s in held ==> held[s].symbol == s && held[s].quantity != 0.0
  }

  ghost predicate OpenAt(table: seq<Row>, mode: string, i: nat, s: string) {
    i < |table| && IsOpen(table[i], mode) && table[i].symbol == s
  }

  ghost predicate HasOpen(table: seq<Row>, mode: string, s: string) {
    exists i: nat :: OpenAt(table, mode, i, s)
  }

  /** What a checkpoint does to the table: old rows are marked, closed or left alone, and held
      symbols without an open row get one. */
  ghost predicate IsCheckpoint(before: seq<Row>, after: seq<Row>, held: Held, mode: string, now: int) {
    && |before| <= |after|
    && (forall i :: 0 <= i < |before| ==> after[i] == Touched(before[i], held, mode, now))
    && (forall i :: |before| <= i < |after| ==>
          after[i].symbol in held && after[i] == Opened(held[after[i].symbol], mode, now) && !HasOpen(before, mode, after[i].symbol))
    && (forall i, j :: |before| <= i < j < |after| ==> after[i].symbol != after[j].symbol)
    && (forall s :: s in held && !HasOpen(before, mode, s) ==> exists i :: |before| <= i < |after| && after[i].symbol == s)
  }

  /** At most one open row per symbol of a mode. */
  ghost predicate OneOpenRow(table: seq<Row>, mode: string) {
    forall s, i: nat, j: nat :: OpenAt(table, mode, i, s) && OpenAt(table, mode, j, s) ==> i == j
  }

  function SignedQuantity(row: Row): real {
    if row.long then row.quantity else -row.quantity
  }

  /** The open rows of a mode are exactly the held book. */
  ghost predicate WritesBook(table: seq<Row>, mode: string, held: Held) {
    && (forall s :: s in held <==> HasOpen(table, mode, s))
    && (forall s, i: nat :: OpenAt(table, mode, i, s) && s in held ==>
          && SignedQuantity(table[i]) == held[s].quantity
          && table[i].avgEntry == held[s].avgEntry
          && table[i].currentPrice == NonZero(held[s].currentPrice))
  }

  lemma OpenAfter(before: seq<Row>, after: seq<Row>, held: Held, mode: string, now: int, m: string, i: nat, s: string)
    requires IsCheckpoint(before, after, held, mode, now) && HeldOk(held) && OpenAt(after, m, i, s)
    ensures m == mode ==> s in held
    ensures i < |before| ==> OpenAt(before, m, i, s)
    ensures i >= |before| ==> m == mode && !HasOpen(before, mode, s)
  {
    if i < |before| {
      assert after[i] == Touched(before[i], held, mode, now);
    }
  }

  /** A checkpoint never gives any mode a second open row for a symbol. */
  lemma CheckpointKeepsOneRow(before: seq<Row>, after: seq<Row>, held: Held, mode: string, now: int, m: string)
    requires IsCheckpoint(before, after, held, mode, now) && HeldOk(held) && OneOpenRow(before, m)
    ensures OneOpenRow(after, m)
  {
    forall s, i: nat, j: nat | OpenAt(after, m, i, s) && OpenAt(after, m, j, s) ensures i == j {
      OpenAfter(before, after, held, mode, now, m, i, s);
      OpenAfter(before, after, held, mode, now, m, j, s);
    }
  }

  /** It leaves exactly the held, non-zero book open. */
  lemma CheckpointWritesBook(before: seq<Row>, after: seq<Row>, held: Held, mode: string, now: int)
    requires IsCheckpoint(before, after, held, mode, now) && HeldOk(held)
    ensures WritesBook(after, mode, held)
  {
    HeldAreOpen(before, after, held, mode, now);
    OpenAreMarked(before, after, held, mode, now);
    forall s | HasOpen(after, mode, s) ensures s in held {
      var i: nat :| OpenAt(after, mode, i, s);
      OpenAfter(before, after, held, mode, now, mode, i, s);
    }
  }

  lemma HeldAreOpen(before: seq<Row>, after: seq<Row>, held: Held, mode: string, now: int)
    requires IsCheckpoint(before, after, held, mode, now) && HeldOk(held)
    ensures forall s :: s in held ==> HasOpen(after, mode, s)
  {
    forall s | s in held ensures HasOpen(after, mode, s) {
      if HasOpen(before, mode, s) {
        var i: nat :| OpenAt(before, mode, i, s);
        assert OpenAt(after, mode, i, s);
      } else {
        var i :| |before| <= i < |after| && after[i].symbol == s;
        assert OpenAt(after, mode, i, s);
      }
    }
  }

  lemma OpenAreMarked(before: seq<Row>, after: seq<Row>, held: Held, mode: string, now: int)
    requires IsCheckpoint(before, after, held, mode, now) && HeldOk(held)
    ensures forall s, i: nat :: OpenAt(after, mode, i, s) && s in held ==>
              && SignedQuantity(after[i]) == held[s].quantity && after[i].avgEntry == held[s].avgEntry
              && after[i].currentPrice == NonZero(held[s].currentPrice)
  {
    hide HasOpen;
  }

  /** It never reopens or edits a closed row and never touches another mode. */
  lemma CheckpointLeavesTheRest(before: seq<Row>, after: seq<Row>, held: Held, mode: string, now: int, i: nat)
    requires IsCheckpoint(before, after, held, mode, now) && i < |before|
    ensures before[i].closedAt.Some? || before[i].mode != mode ==> after[i] == before[i]
    ensures after[i].closedAt == None ==> before[i].closedAt == None
    ensures IsOpen(before[i], mode) && before[i].symbol !in held ==> after[i].closedAt == Some(now)
    ensures IsOpen(before[i], mode) ==> after[i].updatedAt == now && after[i].symbol == before[i].symbol
  {
  }

  // ---------------------------------------------------------------- restore

  datatype Book = Book(positions: map<string, real>, avgEntry: map<string, real>, lastPrices: map<string, real>)

  function PriceOf(row: Row): real {
    if row.currentPrice.Some? && row.currentPrice.value != 0.0 then row.currentPrice.value else row.avgEntry
  }

  function Put(m: map<string, real>, s: string, x: real): map<string, real> {
    if x != 0.0 then m[s := x] else m
  }

  function ReadRow(b: Book, row: Row): Book {
    Book(b.positions[row.symbol := SignedQuantity(row)], Put(b.avgEntry, row.symbol, row.avgEntry),
         Put(b.lastPrices, row.symbol, PriceOf(row)))
  }

  function ReadBook(table: seq<Row>, mode: string): Book {
    if table == [] then Book(map[], map[], map[])
    else
      var b, row := ReadBook(table[..|table| - 1], mode), table[|table| - 1];
      if IsOpen(row, mode) then ReadRow(b, row) else b
  }

  function NonZeros(m: map<string, real>): map<string, real> {
    map s | s in m && m[s] != 0.0 :: m[s]
  }

  /** Prices already seen win over checkpointed ones. */
  function RestoreState(a: Account, cash: real, b: Book, realized: real): Account {
    Account(cash, NonZeros(b.positions), NonZeros(b.avgEntry), b.lastPrices + a.lastPrices, realized)
  }

  function Latest(snapshots: seq<Snapshot>, mode: string): Option<Snapshot> {
    if snapshots == [] then None
    else
      var best, s := Latest(snapshots[..|snapshots| - 1], mode), snapshots[|snapshots| - 1];
      if s.mode == mode && (best == None || best.value.time < s.time) then Some(s) else best
  }

  predicate AnyOpen(table: seq<Row>, mode: string) {
    exists i :: 0 <= i < |table| && IsOpen(table[i], mode)
  }

  function OfMode(rows: seq<FillRow>, mode: string): seq<FillRow> {
    if rows == [] then []
    else OfMode(rows[..|rows| - 1], mode) + if rows[|rows| - 1].mode == mode then [rows[|rows| - 1]] else []
  }

  function FillsAfter(rows: seq<FillRow>, mode: string, since: int): seq<Fill> {
    if rows == [] then []
    else
      var r := rows[|rows| - 1];
      FillsAfter(rows[..|rows| - 1], mode, since) + if r.mode == mode && r.filledAt > since then [r.fill] else []
  }

  datatype Outcome = Fresh | Rebased | Restored

  function Restoration(snapshots: seq<Snapshot>, table: seq<Row>, fills: seq<FillRow>, mode: string, a: Account)
      : (Outcome, Account)
  {
    match Latest(snapshots, mode)
    case None => (Fresh, a)
    case Some(s) =>
      if !AnyOpen(table, mode) && s.positionCount > 0 then
        (Rebased, RestoreState(a, s.equity, Book(map[], map[], map[]), s.realized))
      else
        (Restored, Replay(RestoreState(a, s.cash, ReadBook(table, mode), s.realized), FillsAfter(fills, mode, s.time)))
  }

  // ---------------------------------------------------------------- the round trip

  ghost predicate ReadsBack(b: Book, table: seq<Row>, mode: string) {
    && (forall s :: s in b.positions ==> HasOpen(table, mode, s))
    && (forall s :: s in b.avgEntry ==> HasOpen(table, mode, s))
    && (forall s, i: nat :: OpenAt(table, mode, i, s) ==>
          Or(b.positions, s) == SignedQuantity(table[i]) && Or(b.avgEntry, s) == table[i].avgEntry)
  }

  lemma {:induction false} ReadBookReads(table: seq<Row>, mode: string)
    requires OneOpenRow(table, mode)
    ensures ReadsBack(ReadBook(table, mode), table, mode)
  {
    if table == [] {
    } else {
      var before, row := table[..|table| - 1], table[|table| - 1];
      assert table == before + [row];
      OpenInLonger(before, row, mode);
      assert IsOpen(row, mode) ==> OpenAt(table, mode, |before|, row.symbol);
      assert OneOpenRow(before, mode) && (IsOpen(row, mode) ==> !HasOpen(before, mode, row.symbol));
      ReadBookReads(before, mode);
      hide OpenAt, HasOpen, IsOpen, SignedQuantity, PriceOf, OneOpenRow;
    }
  }

  /** The open rows of a table with one more row. */
  lemma OpenInLonger(before: seq<Row>, row: Row, mode: string)
    ensures forall s, i: nat :: OpenAt(before + [row], mode, i, s)
              <==> OpenAt(before, mode, i, s) || (i == |before| && IsOpen(row, mode) && row.symbol == s)
    ensures forall s, i: nat :: OpenAt(before, mode, i, s) ==> i < |before| && HasOpen(before, mode, s)
    ensures forall s :: HasOpen(before + [row], mode, s) <==> HasOpen(before, mode, s) || (IsOpen(row, mode) && row.symbol == s)
  {
    var table := before + [row];
    assert forall i :: 0 <= i < |before| ==> table[i] == before[i];
    assert table[|before|] == row;
    hide IsOpen;
    forall s ensures HasOpen(table, mode, s) <==> HasOpen(before, mode, s) || (IsOpen(row, mode) && row.symbol == s) {
      if i: nat :| OpenAt(before, mode, i, s) {
        assert OpenAt(table, mode, i, s);
      }
      if IsOpen(row, mode) && row.symbol == s {
        assert OpenAt(table, mode, |before|, s);
      }
      if i: nat :| OpenAt(table, mode, i, s) {
        assert OpenAt(before, mode, i, s) || i == |before|;
      }
    }
  }

  ghost predicate ReadsMarks(b: Book, table: seq<Row>, mode: string) {
    && (forall s :: s in b.lastPrices ==> HasOpen(table, mode, s))
    && (forall s, i: nat :: OpenAt(table, mode, i, s) ==> Or(b.lastPrices, s) == PriceOf(table[i]))
  }

  lemma {:induction false} ReadBookMarks(table: seq<Row>, mode: string)
    requires OneOpenRow(table, mode)
    ensures ReadsMarks(ReadBook(table, mode), table, mode)
  {
    if table == [] {
    } else {
      var before, row := table[..|table| - 1], table[|table| - 1];
      assert table == before + [row];
      OpenInLonger(before, row, mode);
      assert IsOpen(row, mode) ==> OpenAt(table, mode, |before|, row.symbol);
      assert OneOpenRow(before, mode) && (IsOpen(row, mode) ==> !HasOpen(before, mode, row.symbol));
      ReadBookMarks(before, mode);
      hide OpenAt, HasOpen, IsOpen, SignedQuantity, PriceOf, OneOpenRow;
    }
  }

  ghost predicate Reflects(held: Held, report: seq<Holding>) {
    && (forall s :: s in held <==> exists i :: 0 <= i < |report| && report[i].symbol == s)
    && (forall i :: 0 <= i < |report| ==> report[i].symbol in held && held[report[i].symbol] == report[i])
  }

  /** The checkpoint of a report holds what the report says. */
  lemma {:induction false} HeldIsReport(report: seq<Holding>)
    requires forall i, j :: 0 <= i < j < |report| ==> report[i].symbol != report[j].symbol
    requires forall i :: 0 <= i < |report| ==> report[i].quantity != 0.0
    ensures HeldOk(HeldOf(report)) && Reflects(HeldOf(report), report)
  {
    if report == [] {
    } else {
      var before, h := report[..|report| - 1], report[|report| - 1];
      assert report == before + [h];
      HeldIsReport(before);
      assert HeldOf(report) == HeldOf(before)[h.symbol := h];
      hide HeldOf;
      OneMoreReflected(HeldOf(before), before, h);
    }
  }

  lemma OneMoreReflected(held: Held, report: seq<Holding>, h: Holding)
    requires HeldOk(held) && Reflects(held, report) && h.quantity != 0.0
    requires forall i :: 0 <= i < |report| ==> report[i].symbol != h.symbol
    ensures HeldOk(held[h.symbol := h]) && Reflects(held[h.symbol := h], report + [h])
  {
    var all := report + [h];
    assert all[|report|] == h && forall i :: 0 <= i < |report| ==> all[i] == report[i];
    forall s | s in held ensures exists i :: 0 <= i < |all| && all[i].symbol == s {
      if s != h.symbol {
        var i :| 0 <= i < |report| && report[i].symbol == s;
        assert all[i].symbol == s;
      }
    }
  }

  /** Writing an account down and reading it back gives the same positions at the same cost. */
  lemma BookRoundTrip(a: Account, report: seq<Holding>, before: seq<Row>, after: seq<Row>, mode: string, now: int)
    requires BookOk(a) && IsReportOf(report, a) && OneOpenRow(before, mode)
    requires IsCheckpoint(before, after, HeldOf(report), mode, now)
    ensures var b := ReadBook(after, mode);
            forall s :: Or(NonZeros(b.positions), s) == Or(a.positions, s) && Or(NonZeros(b.avgEntry), s) == Or(a.avgEntry, s)
  {
    hide ReadBook, HeldOf, OneOpenRow, IsCheckpoint, IsReportOf, WritesBook, ReadsBack, Reflects, HeldOk;
    var held, b := HeldOf(report), ReadBook(after, mode);
    ReportIsDistinct(report, a);
    HeldIsReport(report);
    CheckpointKeepsOneRow(before, after, held, mode, now, mode);
    CheckpointWritesBook(before, after, held, mode, now);
    ReadBookReads(after, mode);
    forall s ensures Or(b.positions, s) == Or(a.positions, s) && Or(b.avgEntry, s) == Or(a.avgEntry, s) {
      SymbolRoundTrip(a, report, held, b, after, mode, s);
    }
  }

  lemma ReportIsDistinct(report: seq<Holding>, a: Account)
    requires IsReportOf(report, a)
    ensures forall i, j :: 0 <= i < j < |report| ==> report[i].symbol != report[j].symbol
    ensures forall i :: 0 <= i < |report| ==> report[i].quantity != 0.0
  {
  }

  lemma SymbolRoundTrip(a: Account, report: seq<Holding>, held: Held, b: Book, after: seq<Row>, mode: string, s: string)
    requires BookOk(a) && IsReportOf(report, a) && HeldOk(held) && Reflects(held, report)
    requires WritesBook(after, mode, held) && ReadsBack(b, after, mode)
    ensures Or(b.positions, s) == Or(a.positions, s) && Or(b.avgEntry, s) == Or(a.avgEntry, s)
  {
    if s in held {
      var k :| 0 <= k < |report| && report[k].symbol == s;
      assert report[k] == HoldingOf(a, s) && held[s] == report[k];
      var i: nat :| OpenAt(after, mode, i, s);
    } else {
      assert !HasOpen(after, mode, s);
      assert Or(a.positions, s) == 0.0;
    }
  }

  lemma {:induction false} LatestIsMax(snapshots: seq<Snapshot>, mode: string)
    ensures Latest(snapshots, mode).Some? ==>
              Latest(snapshots, mode).value in snapshots && Latest(snapshots, mode).value.mode == mode
    ensures forall s :: s in snapshots && s.mode == mode ==>
              Latest(snapshots, mode).Some? && s.time <= Latest(snapshots, mode).value.time
  {
    if snapshots == [] {
    } else {
      LatestIsMax(snapshots[..|snapshots| - 1], mode);
    }
  }

  /** What a restored position is marked at until the next tick: the price the booting account has
      already seen, or else the last price of the account that was checkpointed, or its cost if it
      had seen none. */
  lemma RestoredMarks(a: Account, report: seq<Holding>, before: seq<Row>, after: seq<Row>, mode: string, now: int,
                      boot: Account, cash: real, realized: real, s: string)
    requires BookOk(a) && IsReportOf(report, a) && OneOpenRow(before, mode) && Or(a.positions, s) != 0.0
    requires IsCheckpoint(before, after, HeldOf(report), mode, now)
    ensures var prices := RestoreState(boot, cash, ReadBook(after, mode), realized).lastPrices;
            Or(prices, s) ==
              if s in boot.lastPrices then boot.lastPrices[s]
              else if Or(a.lastPrices, s) != 0.0 then a.lastPrices[s]
              else Or(a.avgEntry, s)
  {
    hide ReadBook, HeldOf, OneOpenRow, IsCheckpoint, WritesBook, ReadsBack, Reflects, HeldOk;
    var held, b := HeldOf(report), ReadBook(after, mode);
    ReportIsDistinct(report, a);
    HeldIsReport(report);
    CheckpointKeepsOneRow(before, after, held, mode, now, mode);
    CheckpointWritesBook(before, after, held, mode, now);
    ReadBookMarks(after, mode);
    hide IsReportOf, ReadsMarks;
    MarkRoundTrip(a, report, held, b, after, mode, s);
  }

  lemma MarkRoundTrip(a: Account, report: seq<Holding>, held: Held, b: Book, after: seq<Row>, mode: string, s: string)
    requires IsReportOf(report, a) && HeldOk(held) && Reflects(held, report) && Or(a.positions, s) != 0.0
    requires WritesBook(after, mode, held) && ReadsMarks(b, after, mode)
    ensures Or(b.lastPrices, s) == if Or(a.lastPrices, s) != 0.0 then Or(a.lastPrices, s) else Or(a.avgEntry, s)
  {
    var k :| 0 <= k < |report| && report[k].symbol == s;
    assert report[k] == HoldingOf(a, s) && held[s] == report[k];
    var i: nat :| OpenAt(after, mode, i, s);
  }

  /** The snapshot is the latest of its mode. */
  ghost predicate IsLatest(snapshots: seq<Snapshot>, mode: string, s: Snapshot) {
    s in snapshots && s.mode == mode && forall other :: other in snapshots && other.mode == mode ==> other.time <= s.time
  }

  /** With a snapshot that counted positions of which no row is open the account keeps the equity as
      cash and holds nothing. */
  ghost predicate BootsFrom(s: Snapshot, table: seq<Row>, mode: string, a: Account, outcome: Outcome, b: Account) {
    if s.positionCount > 0 && forall i :: 0 <= i < |table| && table[i].mode == mode ==> table[i].closedAt.Some?
    then
      && outcome == Rebased && b.cash == s.equity && b.realized == s.realized
      && b.positions == map[] && b.avgEntry == map[] && b.lastPrices == a.lastPrices
    else outcome == Restored
  }

  /** What a boot does: nothing without a snapshot of the mode; otherwise it rebases or restores from
      the latest one. */
  lemma RestorationExactlyWhen(snapshots: seq<Snapshot>, table: seq<Row>, fills: seq<FillRow>, mode: string, a: Account)
    ensures var (outcome, b) := Restoration(snapshots, table, fills, mode, a);
            if forall s :: s in snapshots ==> s.mode != mode then outcome == Fresh && b == a
            else exists s :: IsLatest(snapshots, mode, s) && BootsFrom(s, table, mode, a, outcome, b)
  {
    LatestIsMax(snapshots, mode);
    if s :| s in snapshots && s.mode == mode {
      hide Replay, ReadBook, FillsAfter, Latest;
      var latest := Latest(snapshots, mode).value;
      assert IsLatest(snapshots, mode, latest);
      var (outcome, b) := Restoration(snapshots, table, fills, mode, a);
      assert BootsFrom(latest, table, mode, a, outcome, b);
    }
  }

  /** A snapshot of one account state and its report. */
  ghost predicate IsSnapshotOf(s: Snapshot, a: Account, report: seq<Holding>, mode: string) {
    s.mode == mode && s.cash == a.cash && s.realized == a.realized && s.positionCount == |report|
  }

  /** Restoring right after a checkpoint rebuilds the account: same cash, same realised profit,
      same signed positions, same cost. */
  lemma RestoreIsExact(a: Account, report: seq<Holding>, before: seq<Row>, after: seq<Row>,
                       s: Snapshot, mode: string, now: int, boot: Account)
    requires BookOk(a) && IsReportOf(report, a) && OneOpenRow(before, mode)
    requires IsCheckpoint(before, after, HeldOf(report), mode, now) && IsSnapshotOf(s, a, report, mode)
    ensures SameBook(RestoreState(boot, s.cash, ReadBook(after, mode), s.realized), a)
    ensures AnyOpen(after, mode) || s.positionCount == 0
  {
    BookRoundTrip(a, report, before, after, mode, now);
    if |report| > 0 {
      HeldIsReport(report);
      CheckpointWritesBook(before, after, HeldOf(report), mode, now);
      assert report[0].symbol in HeldOf(report);
      assert HasOpen(after, mode, report[0].symbol);
    }
  }
}
