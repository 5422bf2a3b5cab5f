/** Per-symbol positions built from fills, and their reconciliation with the broker's books. */
module Fills {
  import opened Arithmetic
  import opened Wrappers

  datatype FillRecord = FillRecord(orderId: nat, symbol: string, side: string, price: real, quantity: real, commission: real)

  datatype PositionRecord = PositionRecord(quantity: real, avgPrice: real, totalCost: real, commission: real)

  const FLAT := PositionRecord(0.0, 0.0, 0.0, 0.0)

  type Positions = map<string, PositionRecord>

  function PositionOf(ps: Positions, symbol: string): PositionRecord {
    if symbol in ps then ps[symbol] else FLAT
  }

  function SignedQty(f: FillRecord): real {
    if f.side == "buy" then f.quantity else -f.quantity
  }

  function SignedCost(f: FillRecord): real {
    if f.side == "buy" then f.price * f.quantity else -(f.price * f.quantity)
  }

  function Recorded(ps: Positions, f: FillRecord): Positions {
    var p := PositionOf(ps, f.symbol);
    var quantity := p.quantity + SignedQty(f);
    var cost := p.totalCost + SignedCost(f);
    ps[f.symbol :=
      if quantity != 0.0 then PositionRecord(quantity, Abs(cost / quantity), cost, p.commission + f.commission)
      else PositionRecord(0.0, 0.0, 0.0, p.commission + f.commission)]
  }

  function Tracked(log: seq<FillRecord>): Positions {
    if log == [] then map[] else Recorded(Tracked(log[..|log| - 1]), log[|log| - 1])
  }

  // ---------------------------------------------------------------- what the positions mean

  /** The quantity of `symbol` bought over a whole log of fills, less what any other side sold. */
  function NetQuantity(log: seq<FillRecord>, symbol: string): real {
    if log == [] then 0.0
    else
      var last := log[|log| - 1];
      NetQuantity(log[..|log| - 1], symbol)
      + if last.symbol != symbol then 0.0 else if last.side == "buy" then last.quantity else -last.quantity
  }

  function Amount(f: FillRecord): real {
    f.price * f.quantity
  }

  /** What was paid for it, less what was received. */
  function NetCost(log: seq<FillRecord>, symbol: string): real {
    if log == [] then 0.0
    else
      var last := log[|log| - 1];
      NetCost(log[..|log| - 1], symbol)
      + if last.symbol != symbol then 0.0 else if last.side == "buy" then Amount(last) else -Amount(last)
  }

  function CommissionsOf(log: seq<FillRecord>, symbol: string): real {
    if log == [] then 0.0
    else CommissionsOf(log[..|log| - 1], symbol) + if log[|log| - 1].symbol == symbol then log[|log| - 1].commission else 0.0
  }

  /** The length of the longest prefix of the log after which `symbol` was flat. */
  function LastFlat(log: seq<FillRecord>, symbol: string): (n: nat)
    ensures n <= |log| && NetQuantity(log[..n], symbol) == 0.0
    ensures forall m :: n < m <= |log| ==> NetQuantity(log[..m], symbol) != 0.0
  {
    assert log[..|log|] == log;
    if NetQuantity(log, symbol) == 0.0 then |log|
    else
      var shorter := log[..|log| - 1];
      var n := LastFlat(shorter, symbol);
      assert log[..n] == shorter[..n];
      assert forall m :: n < m <= |shorter| ==> log[..m] == shorter[..m];
      n
  }

  lemma {:induction false} NetCostSplits(log: seq<FillRecord>, n: nat, symbol: string)
    requires n <= |log|
    ensures NetCost(log, symbol) == NetCost(log[..n], symbol) + NetCost(log[n..], symbol)
  {
    if n == |log| {
      assert log[..n] == log && log[n..] == [];
    } else {
      var shorter := log[..|log| - 1];
      NetCostSplits(shorter, n, symbol);
      assert shorter[..n] == log[..n];
      assert log[n..][..|log[n..]| - 1] == shorter[n..];
    }
  }

  /** What one more fill does to the position of a symbol. */
  lemma OneMoreFill(ps: Positions, f: FillRecord, symbol: string)
    ensures var p, p' := PositionOf(ps, symbol), PositionOf(Recorded(ps, f), symbol);
            if f.symbol != symbol then p' == p
            else
              && p'.quantity == p.quantity + SignedQty(f)
              && p'.totalCost == (if p'.quantity == 0.0 then 0.0 else p.totalCost + SignedCost(f))
              && p'.avgPrice == (if p'.quantity == 0.0 then 0.0 else Abs(p'.totalCost / p'.quantity))
              && p'.commission == p.commission + f.commission
  {
  }

  lemma FlatOneMore(log: seq<FillRecord>, symbol: string)
    requires log != []
    ensures LastFlat(log, symbol) == if NetQuantity(log, symbol) == 0.0 then |log| else LastFlat(log[..|log| - 1], symbol)
  {
  }

  lemma CostOneMore(log: seq<FillRecord>, n: nat, symbol: string)
    requires n < |log|
    ensures var last := log[|log| - 1];
            NetCost(log[n..], symbol)
            == NetCost(log[..|log| - 1][n..], symbol) + if last.symbol == symbol then SignedCost(last) else 0.0
  {
    assert log[n..][..|log[n..]| - 1] == log[..|log| - 1][n..];
    assert SignedCost(log[|log| - 1]) == if log[|log| - 1].side == "buy" then Amount(log[|log| - 1]) else -Amount(log[|log| - 1]);
    hide Amount, SignedCost;
  }

  /** The cost since the symbol was last flat, after one more fill. */
  lemma CostSinceFlat(log: seq<FillRecord>, symbol: string)
    requires log != []
    ensures var shorter, last := log[..|log| - 1], log[|log| - 1];
            var cost, before := NetCost(log[LastFlat(log, symbol)..], symbol), NetCost(shorter[LastFlat(shorter, symbol)..], symbol);
            if NetQuantity(log, symbol) == 0.0 then cost == 0.0 && (last.symbol != symbol ==> before == 0.0)
            else cost == before + if last.symbol == symbol then SignedCost(last) else 0.0
  {
    FlatOneMore(log, symbol);
    var shorter := log[..|log| - 1];
    if NetQuantity(log, symbol) == 0.0 {
      assert log[|log|..] == [] && shorter[|shorter|..] == [];
    } else {
      hide NetCost, LastFlat, SignedCost;
      CostOneMore(log, LastFlat(shorter, symbol), symbol);
    }
  }

  /** The tracked position is the net of the whole log; its cost basis is the signed cost of
      the fills since the symbol was last flat, and the average price spreads that cost over
      the net quantity. Commissions add up. */
  lemma {:induction false} PositionIsNetOfLog(log: seq<FillRecord>, symbol: string)
    ensures var p := PositionOf(Tracked(log), symbol);
            && p.quantity == NetQuantity(log, symbol)
            && p.totalCost == NetCost(log[LastFlat(log, symbol)..], symbol)
            && p.avgPrice == (if p.quantity == 0.0 then 0.0 else Abs(p.totalCost / p.quantity))
            && p.commission == CommissionsOf(log, symbol)
  {
    if log == [] {
    } else {
      var shorter, last := log[..|log| - 1], log[|log| - 1];
      assert Tracked(log) == Recorded(Tracked(shorter), last);
      hide Recorded, PositionOf, NetCost, LastFlat, Abs, SignedCost, SignedQty;
      PositionIsNetOfLog(shorter, symbol);
      OneMoreFill(Tracked(shorter), last, symbol);
      CostSinceFlat(log, symbol);
    }
  }

  // ---------------------------------------------------------------- reconciliation

  datatype Discrepancy = Discrepancy(symbol: string, broker: real, local: real, difference: real)

  datatype Holding = Holding(symbol: string, quantity: real)

  /** What a list of (symbol, quantity) dicts says about a symbol: the last entry wins. */
  function Reported(hs: seq<Holding>, symbol: string): real {
    if hs == [] then 0.0
    else if hs[|hs| - 1].symbol == symbol then hs[|hs| - 1].quantity
    else Reported(hs[..|hs| - 1], symbol)
  }

  lemma {:induction false} LastReportCounts(hs: seq<Holding>, symbol: string, i: nat)
    requires i < |hs| && hs[i].symbol == symbol && forall j :: i < j < |hs| ==> hs[j].symbol != symbol
    ensures Reported(hs, symbol) == hs[i].quantity
  {
    if i < |hs| - 1 {
      LastReportCounts(hs[..|hs| - 1], symbol, i);
    }
  }

  lemma {:induction false} UnreportedIsFlat(hs: seq<Holding>, symbol: string)
    requires forall i :: 0 <= i < |hs| ==> hs[i].symbol != symbol
    ensures Reported(hs, symbol) == 0.0
  {
    if hs != [] {
      UnreportedIsFlat(hs[..|hs| - 1], symbol);
    }
  }

  function Lookup(m: map<string, real>, symbol: string): real {
    if symbol in m then m[symbol] else 0.0
  }

  class FillTracker {
    var positions: Positions

    constructor ()
      ensures positions == map[]
    {
      positions := map[];
    }

    method RecordFill(orderId: nat, symbol: string, side: string, price: real, quantity: real, commission: real)
      modifies this
      ensures positions == Recorded(old(positions), FillRecord(orderId, symbol, side, price, quantity, commission))
    {
      var pos := PositionOf(positions, symbol);
      var cost := price * quantity;
      if side == "buy" {
        pos := pos.(totalCost := pos.totalCost + cost, quantity := pos.quantity + quantity);
      } else {
        pos := pos.(totalCost := pos.totalCost - cost, quantity := pos.quantity - quantity);
      }
      pos := pos.(commission := pos.commission + commission);
      ghost var f := FillRecord(orderId, symbol, side, price, quantity, commission);
      assert pos.quantity == PositionOf(positions, symbol).quantity + SignedQty(f);
      assert pos.totalCost == PositionOf(positions, symbol).totalCost + SignedCost(f);
      if pos.quantity != 0.0 {
        pos := pos.(avgPrice := Abs(pos.totalCost / pos.quantity));
      } else {
        pos := pos.(avgPrice := 0.0, totalCost := 0.0);
      }
      positions := positions[symbol := pos];
    }

    /** What the books to compare with hold: the database's positions when given, else the
        tracked ones. */
    function Local(db: Option<seq<Holding>>, symbol: string): real
      reads this
    {
      if db.Some? then Reported(db.value, symbol) else PositionOf(positions, symbol).quantity
    }

    /** The dictionary built from a list of positions. */
    method MapOf(hs: seq<Holding>) returns (m: map<string, real>)
      ensures forall s :: Lookup(m, s) == Reported(hs, s)
    {
      m := map[];
      for i := 0 to |hs|
        invariant forall s :: Lookup(m, s) == Reported(hs[..i], s)
      {
        assert hs[..i + 1][..i] == hs[..i];
        m := m[hs[i].symbol := hs[i].quantity];
      }
      assert hs[..|hs|] == hs;
    }

    /** Exactly the symbols on which broker and local books differ, once each; nothing is
        reported if and only if the books agree. */
    method Reconcile(broker: seq<Holding>, db: Option<seq<Holding>>) returns (found: seq<Discrepancy>)
      ensures forall s :: (exists d :: d in found && d.symbol == s) <==> Reported(broker, s) != Local(db, s)
      ensures forall d :: d in found ==>
                && d.broker == Reported(broker, d.symbol) && d.local == Local(db, d.symbol)
                && d.difference == d.broker - d.local
      ensures forall i, j :: 0 <= i < j < |found| ==> found[i].symbol != found[j].symbol
      ensures found == [] <==> forall s :: Reported(broker, s) == Local(db, s)
    {
      var localMap;
      if db.Some? {
        localMap := MapOf(db.value);
      } else {
        localMap := map s | s in positions && positions[s].quantity != 0.0 :: positions[s].quantity;
      }
      assert forall s :: Lookup(localMap, s) == Local(db, s);
      var brokerMap := MapOf(broker);
      found := Compare(brokerMap, localMap);
    }

    /** The walk over all symbols of two dictionaries. */
    method Compare(brokerMap: map<string, real>, localMap: map<string, real>) returns (found: seq<Discrepancy>)
      ensures forall s :: (exists d :: d in found && d.symbol == s) <==> Lookup(brokerMap, s) != Lookup(localMap, s)
      ensures forall d :: d in found ==>
                && d.broker == Lookup(brokerMap, d.symbol) && d.local == Lookup(localMap, d.symbol)
                && d.difference == d.broker - d.local
      ensures forall i, j :: 0 <= i < j < |found| ==> found[i].symbol != found[j].symbol
      ensures found == [] <==> forall s :: Lookup(brokerMap, s) == Lookup(localMap, s)
    {
      found := [];
      var todo := localMap.Keys + brokerMap.Keys;
      while todo != {}
        invariant forall s :: s in todo ==> forall d :: d in found ==> d.symbol != s
        invariant forall s :: s !in todo ==>
                    ((exists d :: d in found && d.symbol == s) <==> Lookup(brokerMap, s) != Lookup(localMap, s))
        invariant forall d :: d in found ==>
                    && d.broker == Lookup(brokerMap, d.symbol) && d.local == Lookup(localMap, d.symbol)
                    && d.difference == d.broker - d.local && d.broker != d.local
        invariant forall i, j :: 0 <= i < j < |found| ==> found[i].symbol != found[j].symbol
        decreases todo
      {
        var s :| s in todo;
        todo := todo - {s};
        var b, l := Lookup(brokerMap, s), Lookup(localMap, s);
        if b != l {
          ghost var before := found;
          found := found + [Discrepancy(s, b, l, b - l)];
          assert found[|found| - 1] in found;
          assert forall d :: d in before ==> d in found;
        }
      }
      if found != [] {
        assert found[0] in found;
      }
    }
  }
}
