/**
  What the learning loop keeps in memory: the prune pass and the start-up rehydration of
  `services/continuous_learning/service.py`.
 */
module Retention {
  import opened Sequences

  import Evaluator

  const MAX_RESOLVED_PER_MODEL := 20_000

  datatype Record = Record(id: string, resolved: bool, timestamp: int)

  function Resolved(rs: seq<Record>): nat {
    if rs == [] then 0 else (if rs[0].resolved then 1 else 0) + Resolved(rs[1..])
  }

  // ---------------------------------------------------------------- the prune pass

  /** One walk over the records with a counter of resolved records still to drop. */
  function Walk(rs: seq<Record>, overflow: int, cutoff: int): seq<Record> {
    if rs == [] then []
    else if rs[0].resolved then
      if overflow > 0 then Walk(rs[1..], overflow - 1, cutoff)
      else [rs[0]] + Walk(rs[1..], overflow, cutoff)
    else if rs[0].timestamp <= cutoff then Walk(rs[1..], overflow, cutoff)
    else [rs[0]] + Walk(rs[1..], overflow, cutoff)
  }

  function Pruned(rs: seq<Record>, cutoff: int): seq<Record> {
    Walk(rs, Resolved(rs) - MAX_RESOLVED_PER_MODEL, cutoff)
  }

  /** What a record has to meet, given it and everything recorded after it: among the newest
      resolved ones if resolved, not expired if unresolved. */
  predicate Kept(suffix: seq<Record>, cap: nat, cutoff: int)
    requires suffix != []
  {
    if suffix[0].resolved then Resolved(suffix) <= cap else suffix[0].timestamp > cutoff
  }

  /** The reference: every record judged on its own, in order. */
  function Newest(rs: seq<Record>, cap: nat, cutoff: int): seq<Record> {
    if rs == [] then []
    else (if Kept(rs, cap, cutoff) then [rs[0]] else []) + Newest(rs[1..], cap, cutoff)
  }

  lemma {:induction false} SpentCounterIsZero(rs: seq<Record>, a: int, b: int, cutoff: int)
    requires a <= 0 && b <= 0
    ensures Walk(rs, a, cutoff) == Walk(rs, b, cutoff)
  {
    if rs == [] {
    } else {
      SpentCounterIsZero(rs[1..], a, b, cutoff);
    }
  }

  lemma {:induction false} WalkIsNewest(rs: seq<Record>, cap: nat, cutoff: int)
    ensures Walk(rs, Resolved(rs) - cap, cutoff) == Newest(rs, cap, cutoff)
  {
    if rs == [] {
    } else {
      WalkIsNewest(rs[1..], cap, cutoff);
      NewestStep(rs, cap, cutoff);
      WalkStep(rs, Resolved(rs) - cap, cutoff);
      hide Walk, Newest;
      if rs[0].resolved && Resolved(rs) <= cap {
        SpentCounterIsZero(rs[1..], Resolved(rs) - cap, Resolved(rs[1..]) - cap, cutoff);
      }
    }
  }

  lemma NewestStep(rs: seq<Record>, cap: nat, cutoff: int)
    requires rs != []
    ensures Newest(rs, cap, cutoff) ==
              if Kept(rs, cap, cutoff) then [rs[0]] + Newest(rs[1..], cap, cutoff) else Newest(rs[1..], cap, cutoff)
  {
    assert [] + Newest(rs[1..], cap, cutoff) == Newest(rs[1..], cap, cutoff);
  }

  lemma WalkStep(rs: seq<Record>, overflow: int, cutoff: int)
    requires rs != []
    ensures Walk(rs, overflow, cutoff) ==
              if rs[0].resolved && overflow > 0 then Walk(rs[1..], overflow - 1, cutoff)
              else if !rs[0].resolved && rs[0].timestamp <= cutoff then Walk(rs[1..], overflow, cutoff)
              else [rs[0]] + Walk(rs[1..], overflow, cutoff)
  {
  }

  /** The counting walk keeps exactly the newest resolved records up to the cap and the
      unexpired unresolved ones. */
  lemma PruneKeepsTheNewest(rs: seq<Record>, cutoff: int)
    ensures Pruned(rs, cutoff) == Newest(rs, MAX_RESOLVED_PER_MODEL, cutoff)
  {
    WalkIsNewest(rs, MAX_RESOLVED_PER_MODEL, cutoff);
  }

  lemma ResolvedOfCons(r: Record, rs: seq<Record>)
    ensures Resolved([r] + rs) == (if r.resolved then 1 else 0) + Resolved(rs)
  {
    assert ([r] + rs)[1..] == rs;
  }

  lemma NewestOfCons(r: Record, rs: seq<Record>, cap: nat, cutoff: int)
    ensures Newest([r] + rs, cap, cutoff)
            == (if Kept([r] + rs, cap, cutoff) then [r] else []) + Newest(rs, cap, cutoff)
  {
    assert ([r] + rs)[1..] == rs;
  }

  lemma {:induction false} NewestCountsToTheCap(rs: seq<Record>, cap: nat, cutoff: int)
    ensures Resolved(Newest(rs, cap, cutoff)) == if Resolved(rs) <= cap then Resolved(rs) else cap
  {
    if rs == [] {
    } else {
      NewestCountsToTheCap(rs[1..], cap, cutoff);
      ResolvedOfCons(rs[0], Newest(rs[1..], cap, cutoff));
      assert [] + Newest(rs[1..], cap, cutoff) == Newest(rs[1..], cap, cutoff);
    }
  }

  /** Pruning what an earlier pass left gives what one later pass would have left. */
  lemma {:induction false} LaterPassSubsumes(rs: seq<Record>, cap: nat, early: int, late: int)
    requires early <= late
    ensures Newest(Newest(rs, cap, early), cap, late) == Newest(rs, cap, late)
  {
    if rs == [] {
    } else {
      var rest := Newest(rs[1..], cap, early);
      LaterPassSubsumes(rs[1..], cap, early, late);
      NewestCountsToTheCap(rs[1..], cap, early);
      assert [] + rest == rest && [] + Newest(rs[1..], cap, late) == Newest(rs[1..], cap, late);
      assert Newest(rs, cap, early) == if Kept(rs, cap, early) then [rs[0]] + rest else rest;
      assert Newest(rs, cap, late) == (if Kept(rs, cap, late) then [rs[0]] else []) + Newest(rs[1..], cap, late);
      NewestOfCons(rs[0], rest, cap, late);
      ResolvedOfCons(rs[0], rest);
      hide Newest;
    }
  }

  lemma PruneIsIdempotent(rs: seq<Record>, cutoff: int)
    ensures Pruned(Pruned(rs, cutoff), cutoff) == Pruned(rs, cutoff)
  {
    PruneKeepsTheNewest(rs, cutoff);
    PruneKeepsTheNewest(Pruned(rs, cutoff), cutoff);
    LaterPassSubsumes(rs, MAX_RESOLVED_PER_MODEL, cutoff, cutoff);
  }

  predicate Subsequence(xs: seq<Record>, ys: seq<Record>) {
    xs == [] || (ys != [] && ((xs[0] == ys[0] && Subsequence(xs[1..], ys[1..])) || Subsequence(xs, ys[1..])))
  }

  lemma {:induction false} PruneKeepsOrder(rs: seq<Record>, cap: nat, cutoff: int)
    ensures Subsequence(Newest(rs, cap, cutoff), rs)
  {
    if rs == [] {
    } else {
      PruneKeepsOrder(rs[1..], cap, cutoff);
      var rest := Newest(rs[1..], cap, cutoff);
      assert ([rs[0]] + rest)[1..] == rest && [] + rest == rest;
    }
  }

  /** A list of resolved records within the cap survives the pass untouched. */
  lemma {:induction false} WithinTheCapStays(rs: seq<Record>, cap: nat, cutoff: int)
    requires Resolved(rs) <= cap
    requires forall i :: 0 <= i < |rs| ==> rs[i].resolved
    ensures Newest(rs, cap, cutoff) == rs
  {
    if rs == [] {
    } else {
      WithinTheCapStays(rs[1..], cap, cutoff);
      assert rs == [rs[0]] + rs[1..];
    }
  }

  // ---------------------------------------------------------------- rehydration

  /** A resolved row of the predictions table. */
  datatype Row = Row(model: string, record: Record, symbol: string, direction: string, confidence: real,
                     actual: string, actualReturn: real)

  function PredictionOf(row: Row): Evaluator.Prediction {
    Evaluator.Prediction(row.record.id, row.symbol, row.direction, row.confidence, row.record.timestamp)
  }

  /** The evaluator after one row is fed to it: the prediction, then its outcome. */
  function Fed(s: Evaluator.State, row: Row): Evaluator.State {
    Evaluator.RecordOutcome(Evaluator.RecordPrediction(s, row.model, PredictionOf(row)), row.record.id,
                            Evaluator.Outcome(row.actual, row.actualReturn))
  }

  /** The evaluator after all rows, the last of them first. */
  function FedFrom(s: Evaluator.State, kept: seq<Row>, j: nat): Evaluator.State
    requires j <= |kept|
    decreases |kept| - j
  {
    if j == |kept| then s else Fed(FedFrom(s, kept, j + 1), kept[j])
  }

  lemma NewestIsRetained(s: Evaluator.State, m: string, p: Evaluator.Prediction)
    ensures Evaluator.Retains(Evaluator.RecordPrediction(s, m, p).predictions, p.id)
  {
    var all := Evaluator.Of(s.predictions, m) + [p];
    assert all[|all| - 1] == p;
    assert Evaluator.At(Evaluator.RecordPrediction(s, m, p).predictions, m, |all| - 1 - Evaluator.Overflow(all), p.id);
  }

  /** Rehydration leaves the evaluator's outcomes within its predictions, whatever the rows. */
  lemma {:induction false} FeedingKeepsSync(s: Evaluator.State, kept: seq<Row>, j: nat)
    requires j <= |kept| && Evaluator.InSync(s)
    ensures Evaluator.InSync(FedFrom(s, kept, j))
    decreases |kept| - j
  {
    hide Evaluator.InSync, Evaluator.RecordPrediction, Evaluator.RecordOutcome, Evaluator.Retains;
    if j == |kept| {
    } else {
      var before, row := FedFrom(s, kept, j + 1), kept[j];
      FeedingKeepsSync(s, kept, j + 1);
      Evaluator.PredictionKeepsSync(before, row.model, PredictionOf(row));
      NewestIsRetained(before, row.model, PredictionOf(row));
      Evaluator.OutcomeKeepsSyncExactlyWhen(Evaluator.RecordPrediction(before, row.model, PredictionOf(row)), row.record.id,
                                            Evaluator.Outcome(row.actual, row.actualReturn));
    }
  }

  lemma FedGrows(s: Evaluator.State, row: Row, m: string)
    requires row.model == m ==> |Evaluator.Of(s.predictions, m)| < Evaluator.MAX_PREDICTIONS_PER_MODEL
    ensures Evaluator.Of(Fed(s, row).predictions, m)
            == Evaluator.Of(s.predictions, m) + if row.model == m then [PredictionOf(row)] else []
  {
  }

  lemma IdsOfSum(ps: seq<Evaluator.Prediction>, rs: seq<Record>, row: Row)
    requires IdsInOrder(ps) == RecordIds(Reversed(rs))
    ensures IdsInOrder(ps + [PredictionOf(row)]) == RecordIds(Reversed([row.record] + rs))
    ensures ps + [] == ps && [] + rs == rs
  {
    assert Reversed([row.record] + rs) == Reversed(rs) + [row.record];
    assert RecordIds(Reversed(rs) + [row.record]) == RecordIds(Reversed(rs)) + [row.record.id];
    assert IdsInOrder(ps + [PredictionOf(row)]) == IdsInOrder(ps) + [row.record.id];
  }

  /** In a cold start every kept row is in the evaluator too, in the order of the tracked list. */
  lemma {:induction false} FeedingFillsEvaluator(kept: seq<Row>, j: nat, m: string)
    requires j <= |kept| && |OfModel(kept[j..], m)| <= Evaluator.MAX_PREDICTIONS_PER_MODEL
    ensures IdsInOrder(Evaluator.Of(FedFrom(Evaluator.EMPTY, kept, j).predictions, m)) == RecordIds(Reversed(OfModel(kept[j..], m)))
    decreases |kept| - j
  {
    if j == |kept| {
    } else {
      var row, rest := kept[j], kept[j + 1..];
      assert kept[j..] == [row] + rest;
      OfModelFront(row, rest, m);
      hide OfModel, Fed, IdsInOrder, RecordIds, Reversed;
      FeedingFillsEvaluator(kept, j + 1, m);
      var before := FedFrom(Evaluator.EMPTY, kept, j + 1);
      FedGrows(before, row, m);
      IdsOfSum(Evaluator.Of(before.predictions, m), OfModel(rest, m), row);
    }
  }

  /** The prediction repeats what the row says. */
  predicate Describes(p: Evaluator.Prediction, row: Row) {
    && p.id == row.record.id && p.symbol == row.symbol && p.predicted == row.direction
    && p.confidence == row.confidence && p.timestamp == row.record.timestamp
  }

  ghost predicate FromRows(ps: seq<Evaluator.Prediction>, rows: seq<Row>, m: string) {
    forall p :: p in ps ==> exists row :: row in rows && row.model == m && Describes(p, row)
  }

  /** And each prediction repeats a kept row of its model. */
  lemma {:induction false} FeedingDescribesRows(kept: seq<Row>, j: nat, m: string)
    requires j <= |kept| && |OfModel(kept[j..], m)| <= Evaluator.MAX_PREDICTIONS_PER_MODEL
    ensures FromRows(Evaluator.Of(FedFrom(Evaluator.EMPTY, kept, j).predictions, m), kept[j..], m)
    decreases |kept| - j
  {
    if j == |kept| {
    } else {
      var row, rest := kept[j], kept[j + 1..];
      assert kept[j..] == [row] + rest;
      OfModelFront(row, rest, m);
      FeedingFillsEvaluator(kept, j + 1, m);
      FeedingDescribesRows(kept, j + 1, m);
      var before := FedFrom(Evaluator.EMPTY, kept, j + 1);
      FedGrows(before, row, m);
      assert Describes(PredictionOf(row), row);
      hide OfModel, Fed, IdsInOrder, RecordIds, Reversed, Describes;
      MoreRows(Evaluator.Of(before.predictions, m), rest, row, m);
    }
  }

  lemma MoreRows(ps: seq<Evaluator.Prediction>, rest: seq<Row>, row: Row, m: string)
    requires FromRows(ps, rest, m) && Describes(PredictionOf(row), row)
    ensures FromRows(ps, [row] + rest, m)
    ensures row.model == m ==> FromRows(ps + [PredictionOf(row)], [row] + rest, m)
  {
    hide Describes;
    var rows := [row] + rest;
    assert rows[0] == row;
    forall p | p in ps ensures exists r :: r in rows && r.model == m && Describes(p, r) {
      var r :| r in rest && r.model == m && Describes(p, r);
      assert r in rows;
    }
  }

  function IdsInOrder(ps: seq<Evaluator.Prediction>): (ids: seq<string>)
    ensures |ids| == |ps| && forall i :: 0 <= i < |ps| ==> ids[i] == ps[i].id
  {
    seq(|ps|, i requires 0 <= i < |ps| => ps[i].id)
  }

  function RecordIds(rs: seq<Record>): (ids: seq<string>)
    ensures |ids| == |rs| && forall i :: 0 <= i < |rs| ==> ids[i] == rs[i].id
  {
    seq(|rs|, i requires 0 <= i < |rs| => rs[i].id)
  }

  lemma {:induction false} OfModelFront(row: Row, rest: seq<Row>, m: string)
    ensures OfModel([row] + rest, m) == (if row.model == m then [row.record] else []) + OfModel(rest, m)
  {
    if rest == [] {
      assert [row] + rest == [row] && [row][..0] == [];
    } else {
      var before := rest[..|rest| - 1];
      OfModelFront(row, before, m);
      assert ([row] + rest)[..|rest|] == [row] + before;
    }
  }

  function OfModel(rows: seq<Row>, m: string): seq<Record> {
    if rows == [] then []
    else OfModel(rows[..|rows| - 1], m) + if rows[|rows| - 1].model == m then [rows[|rows| - 1].record] else []
  }

  function FirstUpTo(rs: seq<Record>, cap: nat): seq<Record> {
    if |rs| <= cap then rs else rs[..cap]
  }

  lemma {:induction false} OfModelReads(rows: seq<Row>, m: string)
    requires forall i :: 0 <= i < |rows| ==> rows[i].record.resolved
    ensures forall i :: 0 <= i < |OfModel(rows, m)| ==> OfModel(rows, m)[i].resolved
  {
    if rows == [] {
    } else {
      OfModelReads(rows[..|rows| - 1], m);
    }
  }

  lemma {:induction false} ResolvedAtMostAll(rs: seq<Record>)
    ensures Resolved(rs) <= |rs|
  {
    if rs == [] {
    } else {
      ResolvedAtMostAll(rs[1..]);
    }
  }

  ghost predicate Selected(kept: seq<Row>, rows: seq<Row>) {
    forall m :: OfModel(kept, m) == FirstUpTo(OfModel(rows, m), MAX_RESOLVED_PER_MODEL)
  }

  function CountOf(perModel: map<string, nat>, m: string): nat {
    if m in perModel then perModel[m] else 0
  }

  ghost predicate Counted(perModel: map<string, nat>, kept: seq<Row>) {
    forall m :: CountOf(perModel, m) == |OfModel(kept, m)|
  }

  lemma NothingSelected()
    ensures Selected([], []) && Counted(map[], [])
  {
  }

  lemma SelectRow(kept: seq<Row>, perModel: map<string, nat>, rows: seq<Row>, i: nat)
    requires i < |rows| && Selected(kept, rows[..i]) && Counted(perModel, kept)
    ensures CountOf(perModel, rows[i].model) >= MAX_RESOLVED_PER_MODEL ==> Selected(kept, rows[..i + 1])
    ensures CountOf(perModel, rows[i].model) < MAX_RESOLVED_PER_MODEL ==> Selected(kept + [rows[i]], rows[..i + 1])
    ensures Counted(perModel[rows[i].model := CountOf(perModel, rows[i].model) + 1], kept + [rows[i]])
  {
    hide OfModel;
    OneMoreRow(rows, i);
    ModelsOfSum(kept, rows[i]);
  }

  function Of(tracked: map<string, seq<Record>>, m: string): seq<Record> {
    if m in tracked then tracked[m] else []
  }

  /** Rows j and after have been appended, the last of them first. */
  ghost predicate Replayed(now: map<string, seq<Record>>, start: map<string, seq<Record>>, kept: seq<Row>, j: nat)
    requires j <= |kept|
  {
    forall m :: Of(now, m) + Reversed(OfModel(kept[..j], m)) == Of(start, m) + Reversed(OfModel(kept, m))
  }

  lemma NothingReplayed(start: map<string, seq<Record>>, kept: seq<Row>)
    ensures Replayed(start, start, kept, |kept|)
  {
    assert kept[..|kept|] == kept;
  }

  lemma ReplayRow(now: map<string, seq<Record>>, start: map<string, seq<Record>>, kept: seq<Row>, j: nat)
    requires j < |kept| && Replayed(now, start, kept, j + 1)
    ensures var row := kept[j];
            Replayed(now[row.model := Of(now, row.model) + [row.record]], start, kept, j)
  {
    hide OfModel, Reversed;
    OneMoreRow(kept, j);
    var row := kept[j];
    var next := now[row.model := Of(now, row.model) + [row.record]];
    forall m ensures Of(next, m) + Reversed(OfModel(kept[..j], m)) == Of(start, m) + Reversed(OfModel(kept, m)) {
      ReversedOfSum(OfModel(kept[..j], m), row.record);
      assert Of(next, m) == Of(now, m) + if row.model == m then [row.record] else [];
      assert Of(now, m) + Reversed(OfModel(kept[..j + 1], m)) == Of(start, m) + Reversed(OfModel(kept, m));
    }
  }

  predicate DistinctIds(rows: seq<Row>) {
    forall i, j :: 0 <= i < j < |rows| ==> rows[i].record.id != rows[j].record.id
  }

  /** The evaluator has the row's outcome. */
  predicate HasOutcome(s: Evaluator.State, row: Row) {
    row.record.id in s.outcomes && s.outcomes[row.record.id] == Evaluator.Outcome(row.actual, row.actualReturn)
  }

  lemma FedAddsOutcome(s: Evaluator.State, row: Row)
    requires |Evaluator.Of(s.predictions, row.model)| < Evaluator.MAX_PREDICTIONS_PER_MODEL
    ensures Fed(s, row).outcomes == s.outcomes[row.record.id := Evaluator.Outcome(row.actual, row.actualReturn)]
  {
    assert Evaluator.Ids(Evaluator.Evicted(s, row.model, PredictionOf(row))) == {};
  }

  /** In a cold start from rows with distinct ids every kept row's outcome is in the evaluator. */
  lemma {:induction false} FeedingRecordsOutcomes(kept: seq<Row>, j: nat)
    requires j <= |kept| && DistinctIds(kept)
    requires forall m :: |OfModel(kept[j..], m)| <= Evaluator.MAX_PREDICTIONS_PER_MODEL
    ensures forall i :: j <= i < |kept| ==> HasOutcome(FedFrom(Evaluator.EMPTY, kept, j), kept[i])
    decreases |kept| - j
  {
    if j == |kept| {
    } else {
      var row, rest := kept[j], kept[j + 1..];
      assert kept[j..] == [row] + rest;
      forall m ensures |OfModel([row] + rest, m)| == (if row.model == m then 1 else 0) + |OfModel(rest, m)| {
        OfModelFront(row, rest, m);
      }
      hide OfModel, Fed, FedFrom, IdsInOrder, RecordIds, Reversed;
      FeedingRecordsOutcomes(kept, j + 1);
      FeedingFillsEvaluator(kept, j + 1, row.model);
      FedAddsOutcome(FedFrom(Evaluator.EMPTY, kept, j + 1), row);
      FedFromStep(Evaluator.EMPTY, kept, j);
    }
  }

  lemma FedFromStep(s: Evaluator.State, kept: seq<Row>, j: nat)
    requires j < |kept|
    ensures FedFrom(s, kept, j) == Fed(FedFrom(s, kept, j + 1), kept[j])
  {
  }

  lemma {:induction false} KeptHasRow(kept: seq<Row>, row: Row)
    requires row.record in OfModel(kept, row.model)
    ensures exists i :: 0 <= i < |kept| && kept[i].model == row.model && kept[i].record == row.record
  {
    if kept == [] {
    } else {
      var n := |kept| - 1;
      if kept[n].model != row.model || kept[n].record != row.record {
        KeptHasRow(kept[..n], row);
        var i :| 0 <= i < n && kept[..n][i].model == row.model && kept[..n][i].record == row.record;
        assert kept[i] == kept[..n][i];
      }
    }
  }

  /** With distinct ids, the row whose record is kept is the kept row. */
  lemma KeptIsRow(kept: seq<Row>, rows: seq<Row>, row: Row)
    requires DistinctIds(rows) && (forall x :: x in kept ==> x in rows) && row in rows && row.record in OfModel(kept, row.model)
    ensures row in kept
  {
    KeptHasRow(kept, row);
    var i :| 0 <= i < |kept| && kept[i].model == row.model && kept[i].record == row.record;
    assert kept[i] in rows;
    var a :| 0 <= a < |rows| && rows[a] == kept[i];
    var b :| 0 <= b < |rows| && rows[b] == row;
    assert a == b;
  }

  /** The evaluator after a cold start: in sync, holding for each model the predictions of the
      tracked records, in their order, and, for rows with distinct ids, the outcome of each. */
  ghost predicate RehydratedFrom(s: Evaluator.State, rows: seq<Row>) {
    && Evaluator.InSync(s)
    && (DistinctIds(rows) ==>
          forall row :: row in rows && row.record in FirstUpTo(OfModel(rows, row.model), MAX_RESOLVED_PER_MODEL) ==> HasOutcome(s, row))
    && (forall m :: FromRows(Evaluator.Of(s.predictions, m), rows, m))
    && forall m :: IdsInOrder(Evaluator.Of(s.predictions, m))
                   == RecordIds(Reversed(FirstUpTo(OfModel(rows, m), MAX_RESOLVED_PER_MODEL)))
  }

  lemma ColdStart(kept: seq<Row>, rows: seq<Row>)
    requires Selected(kept, rows) && TakenFrom(kept, rows)
    ensures RehydratedFrom(FedFrom(Evaluator.EMPTY, kept, 0), rows)
  {
    hide OfModel, FedFrom, HasOutcome, IdsInOrder, RecordIds, Reversed, FromRows;
    assert Evaluator.InSync(Evaluator.EMPTY);
    FeedingKeepsSync(Evaluator.EMPTY, kept, 0);
    assert kept[0..] == kept;
    if DistinctIds(rows) {
      FeedingRecordsOutcomes(kept, 0);
      forall row | row in rows && row.record in FirstUpTo(OfModel(rows, row.model), MAX_RESOLVED_PER_MODEL)
        ensures HasOutcome(FedFrom(Evaluator.EMPTY, kept, 0), row)
      {
        KeptIsRow(kept, rows, row);
      }
    }
    forall m
      ensures IdsInOrder(Evaluator.Of(FedFrom(Evaluator.EMPTY, kept, 0).predictions, m))
              == RecordIds(Reversed(FirstUpTo(OfModel(rows, m), MAX_RESOLVED_PER_MODEL)))
      ensures FromRows(Evaluator.Of(FedFrom(Evaluator.EMPTY, kept, 0).predictions, m), rows, m)
    {
      FeedingFillsEvaluator(kept, 0, m);
      FeedingDescribesRows(kept, 0, m);
      KeptRowsAreRows(Evaluator.Of(FedFrom(Evaluator.EMPTY, kept, 0).predictions, m), kept, rows, m);
    }
  }

  lemma KeptRowsAreRows(ps: seq<Evaluator.Prediction>, kept: seq<Row>, rows: seq<Row>, m: string)
    requires FromRows(ps, kept, m) && forall row :: row in kept ==> row in rows
    ensures FromRows(ps, rows, m)
  {
    hide Describes;
    forall p | p in ps ensures exists row :: row in rows && row.model == m && Describes(p, row) {
      var row :| row in kept && row.model == m && Describes(p, row);
      assert row in rows;
    }
  }

  /** The kept rows are rows, and no two of them the same one. */
  ghost predicate TakenFrom(kept: seq<Row>, rows: seq<Row>) {
    (forall row :: row in kept ==> row in rows) && (DistinctIds(rows) ==> DistinctIds(kept))
  }

  lemma TakesOneMore(kept: seq<Row>, rows: seq<Row>, i: nat)
    requires i < |rows| && TakenFrom(kept, rows[..i])
    ensures TakenFrom(kept + [rows[i]], rows[..i + 1]) && TakenFrom(kept, rows[..i + 1])
  {
    assert rows[..i + 1] == rows[..i] + [rows[i]];
    if DistinctIds(rows[..i + 1]) {
      assert DistinctIds(rows[..i]) by {
        assert forall k :: 0 <= k < i ==> rows[..i][k] == rows[..i + 1][k];
      }
      forall row | row in kept ensures row.record.id != rows[i].record.id {
        var k :| 0 <= k < i && rows[..i][k] == row;
        assert rows[..i + 1][k] == row && rows[..i + 1][i] == rows[i];
      }
    }
  }

  class LearningMemory {
    var tracked: map<string, seq<Record>>
    const evaluator: Evaluator.ModelEvaluator

    constructor (evaluator: Evaluator.ModelEvaluator)
      ensures tracked == map[] && this.evaluator == evaluator
    {
      tracked := map[];
      this.evaluator := evaluator;
    }

    method PruneRecords(records: seq<Record>, cutoff: int) returns (kept: seq<Record>)
      ensures kept == Newest(records, MAX_RESOLVED_PER_MODEL, cutoff)
    {
      var overflow := Resolved(records) - MAX_RESOLVED_PER_MODEL;
      kept := [];
      var i := 0;
      while i < |records|
        invariant 0 <= i <= |records|
        invariant Pruned(records, cutoff) == kept + Walk(records[i..], overflow, cutoff)
      {
        var record := records[i];
        assert records[i..][0] == record && records[i..][1..] == records[i + 1..];
        i := i + 1;
        if record.resolved {
          if overflow > 0 {
            overflow := overflow - 1;
            continue;
          }
        } else if record.timestamp <= cutoff {
          continue;
        }
        kept := kept + [record];
      }
      PruneKeepsTheNewest(records, cutoff);
    }

    /** Every model is pruned, none is dropped and none is affected by another. */
    method PrunePass(cutoff: int)
      modifies this`tracked
      ensures tracked.Keys == old(tracked.Keys)
      ensures forall m :: m in tracked ==> tracked[m] == Newest(old(tracked)[m], MAX_RESOLVED_PER_MODEL, cutoff)
    {
      var models := tracked.Keys;
      while models != {}
        invariant models <= old(tracked.Keys) && tracked.Keys == old(tracked.Keys)
        invariant forall m :: m in models ==> tracked[m] == old(tracked)[m]
        invariant forall m :: m in tracked && m !in models ==>
          tracked[m] == Newest(old(tracked)[m], MAX_RESOLVED_PER_MODEL, cutoff)
        decreases |models|
      {
        var m :| m in models;
        var kept := PruneRecords(tracked[m], cutoff);
        tracked := tracked[m := kept];
        models := models - {m};
      }
    }

    method SelectNewest(rows: seq<Row>) returns (kept: seq<Row>)
      ensures Selected(kept, rows) && TakenFrom(kept, rows)
    {
      hide Selected, Counted, DistinctIds;
      var perModel: map<string, nat> := map[];
      kept := [];
      NothingSelected();
      NothingRepeats();
      var i := 0;
      assert rows[..0] == [];
      while i < |rows|
        invariant 0 <= i <= |rows|
        invariant Selected(kept, rows[..i]) && Counted(perModel, kept) && TakenFrom(kept, rows[..i])
      {
        var row := rows[i];
        SelectRow(kept, perModel, rows, i);
        TakesOneMore(kept, rows, i);
        i := i + 1;
        var count := CountOf(perModel, row.model);
        if count >= MAX_RESOLVED_PER_MODEL {
          continue;
        }
        perModel := perModel[row.model := count + 1];
        kept := kept + [row];
      }
      assert rows[..|rows|] == rows;
    }

    method Replay(kept: seq<Row>)
      modifies this`tracked, evaluator
      ensures Replayed(tracked, old(tracked), kept, 0)
      ensures evaluator.Contents() == FedFrom(old(evaluator.Contents()), kept, 0)
    {
      hide Replayed, Evaluator.RecordPrediction;
      var j := |kept|;
      NothingReplayed(tracked, kept);
      while j > 0
        invariant 0 <= j <= |kept|
        invariant Replayed(tracked, old(tracked), kept, j)
        invariant evaluator.Contents() == FedFrom(old(evaluator.Contents()), kept, j)
      {
        j := j - 1;
        ReplayRow(tracked, old(tracked), kept, j);
        var row := kept[j];
        evaluator.AddPrediction(row.model, PredictionOf(row));
        evaluator.AddOutcome(row.record.id, Evaluator.Outcome(row.actual, row.actualReturn));
        tracked := tracked[row.model := Of(tracked, row.model) + [row.record]];
      }
    }

    /** Rows arrive newest first.  Each model gets its newest rows up to the cap, oldest first. */
    method Rehydrate(rows: seq<Row>)
      modifies this`tracked, evaluator
      ensures forall m :: Of(tracked, m) == Of(old(tracked), m) + Reversed(FirstUpTo(OfModel(rows, m), MAX_RESOLVED_PER_MODEL))
      ensures old(evaluator.Contents()) == Evaluator.EMPTY ==> RehydratedFrom(evaluator.Contents(), rows)
    {
      var kept := SelectNewest(rows);
      Replay(kept);
      ColdStart(kept, rows);
      assert kept[..0] == [];
    }
  }

  lemma NothingRepeats()
    ensures DistinctIds([])
  {
  }

  lemma OneMoreRow(rows: seq<Row>, i: nat)
    requires i < |rows|
    ensures forall m :: OfModel(rows[..i + 1], m)
                        == OfModel(rows[..i], m) + if rows[i].model == m then [rows[i].record] else []
  {
    assert rows[..i + 1][..i] == rows[..i];
  }

  lemma ModelsOfSum(rows: seq<Row>, row: Row)
    ensures forall m :: OfModel(rows + [row], m) == OfModel(rows, m) + if row.model == m then [row.record] else []
  {
    assert (rows + [row])[..|rows|] == rows;
  }

  lemma ReversedOfSum(rs: seq<Record>, r: Record)
    ensures Reversed(rs + [r]) == [r] + Reversed(rs)
    ensures Reversed(rs + []) == Reversed(rs)
  {
    assert rs + [] == rs;
  }

  /** After a cold start from resolved rows the next prune pass removes nothing. */
  lemma RehydratedSurvivesPrune(rows: seq<Row>, m: string, cutoff: int)
    requires forall i :: 0 <= i < |rows| ==> rows[i].record.resolved
    ensures var rs := Reversed(FirstUpTo(OfModel(rows, m), MAX_RESOLVED_PER_MODEL));
            Newest(rs, MAX_RESOLVED_PER_MODEL, cutoff) == rs
  {
    var rs := Reversed(FirstUpTo(OfModel(rows, m), MAX_RESOLVED_PER_MODEL));
    OfModelReads(rows, m);
    ResolvedAtMostAll(rs);
    WithinTheCapStays(rs, MAX_RESOLVED_PER_MODEL, cutoff);
  }
}
