/**
  Bounded retention of predictions and outcomes (`services/continuous_learning/evaluator.py`).
 */
module Evaluator {

  const MAX_PREDICTIONS_PER_MODEL := 20_000

  datatype Prediction = Prediction(id: string, symbol: string, predicted: string, confidence: real, timestamp: int)

  datatype Outcome = Outcome(actual: string, actualReturn: real)

  type Predictions = map<string, seq<Prediction>>

  datatype State = State(predictions: Predictions, outcomes: map<string, Outcome>)

  function Of(ps: Predictions, m: string): seq<Prediction> {
    if m in ps then ps[m] else []
  }

  function Ids(ps: seq<Prediction>): set<string> {
    set i | 0 <= i < |ps| :: ps[i].id
  }

  ghost predicate At(ps: Predictions, m: string, i: nat, id: string) {
    m in ps && i < |ps[m]| && ps[m][i].id == id
  }

  ghost predicate Retains(ps: Predictions, id: string) {
    exists m, i: nat :: At(ps, m, i, id)
  }

  /** No two retained predictions share an id. */
  ghost predicate UniqueIds(ps: Predictions) {
    forall id, m, i: nat, n, j: nat :: At(ps, m, i, id) && At(ps, n, j, id) ==> m == n && i == j
  }

  // ---------------------------------------------------------------- the two operations

  function Overflow(ps: seq<Prediction>): nat {
    if |ps| > MAX_PREDICTIONS_PER_MODEL then |ps| - MAX_PREDICTIONS_PER_MODEL else 0
  }

  function Newest(ps: seq<Prediction>): seq<Prediction> {
    ps[Overflow(ps)..]
  }

  function Evicted(s: State, m: string, p: Prediction): seq<Prediction> {
    var all := Of(s.predictions, m) + [p];
    all[..Overflow(all)]
  }

  function RecordPrediction(s: State, m: string, p: Prediction): State {
    State(s.predictions[m := Newest(Of(s.predictions, m) + [p])], s.outcomes - Ids(Evicted(s, m, p)))
  }

  function RecordOutcome(s: State, id: string, o: Outcome): State {
    s.(outcomes := s.outcomes[id := o])
  }

  // ---------------------------------------------------------------- outcomes stay within predictions

  ghost predicate InSync(s: State) {
    forall id :: id in s.outcomes ==> Retains(s.predictions, id)
  }

  /** Recording a prediction never leaves an outcome without its prediction, duplicates or not. */
  lemma PredictionKeepsSync(s: State, m: string, p: Prediction)
    requires InSync(s)
    ensures InSync(RecordPrediction(s, m, p))
  {
    var next := RecordPrediction(s, m, p);
    var all := Of(s.predictions, m) + [p];
    forall id | id in next.outcomes ensures Retains(next.predictions, id) {
      var n, i: nat :| At(s.predictions, n, i, id);
      if n == m {
        assert all[i].id == id;
        assert At(next.predictions, m, i - Overflow(all), id);
      } else {
        assert At(next.predictions, n, i, id);
      }
    }
  }

  /** Recording an outcome keeps outcomes within predictions exactly when its prediction is
      still retained. */
  lemma OutcomeKeepsSyncExactlyWhen(s: State, id: string, o: Outcome)
    requires InSync(s)
    ensures InSync(RecordOutcome(s, id, o)) <==> Retains(s.predictions, id)
  {
    assert id in RecordOutcome(s, id, o).outcomes;
  }

  /** So an outcome recorded for an id nobody predicted stays without a prediction. */
  lemma StrayOutcomeStays(id: string, o: Outcome)
    ensures InSync(EMPTY) && !InSync(RecordOutcome(EMPTY, id, o))
  {
    assert id in RecordOutcome(EMPTY, id, o).outcomes;
  }

  /** A prediction the call evicts carries the id. */
  predicate EvictsId(s: State, m: string, p: Prediction, id: string) {
    var all := Of(s.predictions, m) + [p];
    exists i :: 0 <= i < Overflow(all) && all[i].id == id
  }

  /** A prediction the call leaves carries the id: further on in the same model, or in another. */
  ghost predicate LeavesId(s: State, m: string, p: Prediction, id: string) {
    var all := Of(s.predictions, m) + [p];
    (exists j :: Overflow(all) <= j < |all| && all[j].id == id) || (exists n, j: nat :: n != m && At(s.predictions, n, j, id))
  }

  lemma EvictedIds(s: State, m: string, p: Prediction, id: string)
    ensures id in Ids(Evicted(s, m, p)) <==> EvictsId(s, m, p, id)
  {
    var all, evicted := Of(s.predictions, m) + [p], Evicted(s, m, p);
    assert forall i :: 0 <= i < |evicted| ==> evicted[i] == all[i];
  }

  lemma RetainedExactlyWhenLeft(s: State, m: string, p: Prediction, id: string)
    ensures Retains(RecordPrediction(s, m, p).predictions, id) <==> LeavesId(s, m, p, id)
  {
    var all, next := Of(s.predictions, m) + [p], RecordPrediction(s, m, p);
    if Retains(next.predictions, id) {
      var n, j: nat :| At(next.predictions, n, j, id);
      PositionBefore(s.predictions, m, p, n, j);
      assert n == m ==> all[j + Overflow(all)].id == id;
    }
    if j :| Overflow(all) <= j < |all| && all[j].id == id {
      assert At(next.predictions, m, j - Overflow(all), id);
    }
    if n, j: nat :| n != m && At(s.predictions, n, j, id) {
      assert At(next.predictions, n, j, id);
    }
  }

  /** A prediction that stays retained loses its recorded outcome exactly when its id is also
      carried by one that is evicted. */
  lemma RetainedOutcomeIsLostExactlyWhen(s: State, m: string, p: Prediction, id: string)
    requires id in s.outcomes
    ensures var next := RecordPrediction(s, m, p);
            (Retains(next.predictions, id) && id !in next.outcomes)
            <==> EvictsId(s, m, p, id) && LeavesId(s, m, p, id)
  {
    hide EvictsId, LeavesId, Retains, Evicted, Ids;
    EvictedIds(s, m, p, id);
    RetainedExactlyWhenLeft(s, m, p, id);
  }

  lemma UniqueIdsLoseNothing(s: State, m: string, p: Prediction, id: string)
    requires UniqueIds(s.predictions) && !Retains(s.predictions, p.id)
    requires id in s.outcomes && Retains(RecordPrediction(s, m, p).predictions, id)
    ensures id in RecordPrediction(s, m, p).outcomes
  {
    var all, next := Of(s.predictions, m) + [p], RecordPrediction(s, m, p);
    var n, j: nat :| At(next.predictions, n, j, id);
    if i :| 0 <= i < Overflow(all) && all[i].id == id {
      PositionBefore(s.predictions, m, p, n, j);
      assert i < |Of(s.predictions, m)| ==> At(s.predictions, m, i, id);
      assert forall k, x: nat :: At(s.predictions, k, x, p.id) ==> Retains(s.predictions, p.id);
    }
  }

  /** Where a retained prediction stood before the call: at the same place in another model, or
      further back in this one, or it is the new one. */
  lemma PositionBefore(ps: Predictions, m: string, p: Prediction, n: string, j: nat)
    requires var next := ps[m := Newest(Of(ps, m) + [p])]; n in next && j < |next[n]|
    ensures var all := Of(ps, m) + [p];
            var next := ps[m := Newest(all)];
            && (n != m ==> At(ps, n, j, next[n][j].id))
            && (n == m ==> next[n][j] == all[j + Overflow(all)])
            && (n == m && j + Overflow(all) < |all| - 1 ==> At(ps, m, j + Overflow(all), next[n][j].id))
            && (n == m && j + Overflow(all) == |all| - 1 ==> next[n][j] == p)
  {
  }

  lemma UniqueIdsStay(ps: Predictions, m: string, p: Prediction)
    requires UniqueIds(ps) && !Retains(ps, p.id)
    ensures UniqueIds(ps[m := Newest(Of(ps, m) + [p])])
    ensures UniqueIds(ps[m := Of(ps, m) + [p]])
  {
    var all := Of(ps, m) + [p];
    var next, full := ps[m := Newest(all)], ps[m := all];
    forall id, a, i: nat, b, j: nat | At(next, a, i, id) && At(next, b, j, id) ensures a == b && i == j {
      PositionBefore(ps, m, p, a, i);
      PositionBefore(ps, m, p, b, j);
      assert forall k, x: nat :: At(ps, k, x, p.id) ==> Retains(ps, p.id);
    }
    forall id, a, i: nat, b, j: nat | At(full, a, i, id) && At(full, b, j, id) ensures a == b && i == j {
      assert (a == m && i == |all| - 1) || At(ps, a, i, id);
      assert (b == m && j == |all| - 1) || At(ps, b, j, id);
      assert forall k, x: nat :: At(ps, k, x, p.id) ==> Retains(ps, p.id);
    }
  }

  // ---------------------------------------------------------------- bounded memory against a full log

  datatype Op = Predict(model: string, prediction: Prediction) | Resolve(id: string, outcome: Outcome)

  function Apply(s: State, op: Op): State {
    match op
    case Predict(m, p) => RecordPrediction(s, m, p)
    case Resolve(id, o) => RecordOutcome(s, id, o)
  }

  /** The evaluator with unlimited memory. */
  function ApplyFull(s: State, op: Op): State {
    match op
    case Predict(m, p) => s.(predictions := s.predictions[m := Of(s.predictions, m) + [p]])
    case Resolve(id, o) => RecordOutcome(s, id, o)
  }

  const EMPTY := State(map[], map[])

  function Run(ops: seq<Op>): State {
    if ops == [] then EMPTY else Apply(Run(ops[..|ops| - 1]), ops[|ops| - 1])
  }

  function RunFull(ops: seq<Op>): State {
    if ops == [] then EMPTY else ApplyFull(RunFull(ops[..|ops| - 1]), ops[|ops| - 1])
  }

  /** Prediction ids are never reused, and outcomes are recorded for retained predictions only. */
  ghost predicate WellUsed(ops: seq<Op>) {
    ops == [] ||
    (var before, op := ops[..|ops| - 1], ops[|ops| - 1];
     && WellUsed(before)
     && (op.Predict? ==> !Retains(RunFull(before).predictions, op.prediction.id))
     && (op.Resolve? ==> Retains(Run(before).predictions, op.id)))
  }

  /** The bounded evaluator holds the newest predictions of each model and, of everything ever
      resolved, exactly the outcomes of the predictions it still holds. */
  ghost predicate Truncates(s: State, full: State) {
    && UniqueIds(full.predictions) && InSync(full)
    && s.predictions.Keys == full.predictions.Keys
    && (forall m :: m in full.predictions ==> s.predictions[m] == Newest(full.predictions[m]))
    && (forall id :: id in s.outcomes <==> id in full.outcomes && Retains(s.predictions, id))
    && (forall id :: id in s.outcomes ==> s.outcomes[id] == full.outcomes[id])
  }

  lemma RetainedIsLogged(s: State, full: State, id: string)
    requires Truncates(s, full) && Retains(s.predictions, id)
    ensures Retains(full.predictions, id)
  {
    var m, i: nat :| At(s.predictions, m, i, id);
    assert At(full.predictions, m, i + Overflow(full.predictions[m]), id);
  }

  lemma FullGrows(full: State, m: string, p: Prediction)
    requires InSync(full)
    ensures InSync(ApplyFull(full, Predict(m, p)))
    ensures forall id :: Retains(full.predictions, id) ==> Retains(ApplyFull(full, Predict(m, p)).predictions, id)
  {
    var next := ApplyFull(full, Predict(m, p));
    forall id | Retains(full.predictions, id) ensures Retains(next.predictions, id) {
      var n, i: nat :| At(full.predictions, n, i, id);
      assert At(next.predictions, n, i, id);
    }
  }

  /** What stays retained was retained before or is the new prediction; what was retained and
      not evicted stays. */
  lemma RetainedAfter(ps: Predictions, m: string, p: Prediction, id: string)
    ensures var next := ps[m := Newest(Of(ps, m) + [p])];
            var all := Of(ps, m) + [p];
            && (Retains(next, id) ==> id == p.id || Retains(ps, id))
            && (Retains(ps, id) && id !in Ids(all[..Overflow(all)]) ==> Retains(next, id))
  {
    var all := Of(ps, m) + [p];
    var next := ps[m := Newest(all)];
    if Retains(next, id) {
      var n, j: nat :| At(next, n, j, id);
      PositionBefore(ps, m, p, n, j);
    }
    if Retains(ps, id) && id !in Ids(all[..Overflow(all)]) {
      var n, i: nat :| At(ps, n, i, id);
      if n == m {
        assert all[i].id == id;
        assert At(next, m, i - Overflow(all), id);
      } else {
        assert At(next, n, i, id);
      }
    }
  }

  lemma UniqueIdsWithin(s: State, full: State)
    requires Truncates(s, full)
    ensures UniqueIds(s.predictions)
  {
    forall id, m, i: nat, n, j: nat | At(s.predictions, m, i, id) && At(s.predictions, n, j, id)
      ensures m == n && i == j
    {
      assert At(full.predictions, m, i + Overflow(full.predictions[m]), id);
      assert At(full.predictions, n, j + Overflow(full.predictions[n]), id);
    }
  }

  lemma PredictTruncates(s: State, full: State, m: string, p: Prediction)
    requires Truncates(s, full) && !Retains(full.predictions, p.id)
    ensures Truncates(RecordPrediction(s, m, p), ApplyFull(full, Predict(m, p)))
  {
    var next, all := RecordPrediction(s, m, p), ApplyFull(full, Predict(m, p));
    FullGrows(full, m, p);
    UniqueIdsStay(full.predictions, m, p);
    UniqueIdsWithin(s, full);
    assert p.id !in full.outcomes;
    assert !Retains(s.predictions, p.id) by {
      if Retains(s.predictions, p.id) {
        RetainedIsLogged(s, full, p.id);
      }
    }
    forall id ensures id in next.outcomes <==> id in full.outcomes && Retains(next.predictions, id) {
      RetainedAfter(s.predictions, m, p, id);
      if id in s.outcomes && Retains(next.predictions, id) {
        UniqueIdsLoseNothing(s, m, p, id);
      }
    }
  }

  /** With unique ids and outcomes for retained predictions only, eviction is the only
      difference between the bounded evaluator and one that forgets nothing. */
  lemma {:induction false} BoundedMemoryTruncates(ops: seq<Op>)
    requires WellUsed(ops)
    ensures Truncates(Run(ops), RunFull(ops))
  {
    if ops == [] {
    } else {
      var before, op := ops[..|ops| - 1], ops[|ops| - 1];
      BoundedMemoryTruncates(before);
      match op
      case Predict(m, p) => PredictTruncates(Run(before), RunFull(before), m, p);
      case Resolve(id, o) => RetainedIsLogged(Run(before), RunFull(before), id);
    }
  }

  // ---------------------------------------------------------------- the class

  class ModelEvaluator {
    var predictions: Predictions
    var outcomes: map<string, Outcome>

    function Contents(): State
      reads this
    {
      State(predictions, outcomes)
    }

    constructor ()
      ensures Contents() == EMPTY
    {
      predictions, outcomes := map[], map[];
    }

    method AddPrediction(m: string, p: Prediction)
      modifies this
      ensures Contents() == RecordPrediction(old(Contents()), m, p)
    {
      var preds := Of(predictions, m) + [p];
      if |preds| > MAX_PREDICTIONS_PER_MODEL {
        var overflow := |preds| - MAX_PREDICTIONS_PER_MODEL;
        var i := 0;
        while i < overflow
          invariant 0 <= i <= overflow
          invariant predictions == old(predictions)
          invariant outcomes == old(outcomes) - Ids(preds[..i])
        {
          assert Ids(preds[..i + 1]) == Ids(preds[..i]) + {preds[i].id};
          outcomes := outcomes - {preds[i].id};
          i := i + 1;
        }
        assert preds[..overflow] == Evicted(old(Contents()), m, p);
        preds := preds[overflow..];
      } else {
        assert Ids(Evicted(old(Contents()), m, p)) == {};
      }
      predictions := predictions[m := preds];
    }

    method AddOutcome(id: string, o: Outcome)
      modifies this`outcomes
      ensures Contents() == RecordOutcome(old(Contents()), id, o)
    {
      outcomes := outcomes[id := o];
    }
  }
}
