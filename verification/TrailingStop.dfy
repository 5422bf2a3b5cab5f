/**
  Trailing stops (`services/liquidation/trailing_stop.py`).  Prices are exact reals.
 */
module TrailingStop {

  /** `extreme` is the highest price seen by a long stop, the lowest seen by a short one. */
  datatype Record = Record(symbol: string, long: bool, pct: real, extreme: real)

  datatype Trigger = Trigger(id: string, symbol: string, price: real, level: real)

  type Stops = map<string, Record>

  type Prices = map<string, real>

  // ---------------------------------------------------------------- one price

  function Ratchet(r: Record, price: real): Record {
    if (r.long && price > r.extreme) || (!r.long && price < r.extreme) then r.(extreme := price) else r
  }

  /** The stop trails a fraction below a high, or above a low. */
  function Trail(long: bool, pct: real, extreme: real): real {
    if long then extreme * (1.0 - pct) else extreme * (1.0 + pct)
  }

  function Level(r: Record): real {
    Trail(r.long, r.pct, r.extreme)
  }

  predicate Breached(r: Record, price: real) {
    if r.long then price <= Level(r) else price >= Level(r)
  }

  predicate Fires(r: Record, prices: Prices) {
    r.symbol in prices && Breached(Ratchet(r, prices[r.symbol]), prices[r.symbol])
  }

  function Moved(r: Record, prices: Prices): Record {
    if r.symbol in prices then Ratchet(r, prices[r.symbol]) else r
  }

  /** Every record sees its symbol's price, and those that fire are gone. */
  function Updated(stops: Stops, prices: Prices): Stops {
    map id | id in stops && !Fires(stops[id], prices) :: Moved(stops[id], prices)
  }

  function TriggerOf(id: string, r: Record, prices: Prices): Trigger
    requires r.symbol in prices
  {
    Trigger(id, r.symbol, prices[r.symbol], Level(Moved(r, prices)))
  }

  function Fired(stops: Stops, prices: Prices): (ids: set<string>)
    ensures forall id :: id in ids <==> id in stops && Fires(stops[id], prices)
  {
    set id | id in stops && Fires(stops[id], prices)
  }

  /** Exactly the named records are reported, once each. */
  ghost predicate Reports(ts: seq<Trigger>, ids: set<string>, stops: Stops, prices: Prices) {
    && (forall id :: id in ids ==> id in stops && Fires(stops[id], prices))
    && (forall i :: 0 <= i < |ts| ==> ts[i].id in ids && ts[i] == TriggerOf(ts[i].id, stops[ts[i].id], prices))
    && (forall i, j :: 0 <= i < j < |ts| ==> ts[i].id != ts[j].id)
    && (forall id :: id in ids ==> exists i :: 0 <= i < |ts| && ts[i].id == id)
  }

  // ---------------------------------------------------------------- one stop over a price stream

  function Better(long: bool, x: real, y: real): real {
    if long then (if y > x then y else x) else (if y < x then y else x)
  }

  /** The best price among the seed and all prices so far. */
  function Best(r: Record, prices: seq<real>): real {
    if prices == [] then r.extreme else Better(r.long, Best(r, prices[..|prices| - 1]), prices[|prices| - 1])
  }

  /** The price is at or through the trail: a fraction of the best price below it for a long stop,
      above it for a short one. */
  predicate Through(long: bool, pct: real, best: real, price: real) {
    if long then price <= best * (1.0 - pct) else price >= best * (1.0 + pct)
  }

  lemma BreachedIsThrough(r: Record, price: real)
    ensures Breached(r, price) <==> Through(r.long, r.pct, r.extreme, price)
  {
  }

  lemma LevelOf(r: Record)
    ensures Level(r) == if r.long then r.extreme * (1.0 - r.pct) else r.extreme * (1.0 + r.pct)
  {
  }

  /** Price i is at or through the trail behind the best price up to and including it. */
  predicate Hits(r: Record, prices: seq<real>, i: nat)
    requires i < |prices|
  {
    Through(r.long, r.pct, Best(r, prices[..i + 1]), prices[i])
  }

  ghost predicate Hit(r: Record, prices: seq<real>) {
    exists i: nat | i < |prices| :: Hits(r, prices, i)
  }

  /** Best is the maximum (minimum for shorts) of the seed and the stream. */
  lemma {:induction false} BestIsExtreme(r: Record, prices: seq<real>)
    ensures Best(r, prices) == r.extreme || Best(r, prices) in prices
    ensures r.long ==> r.extreme <= Best(r, prices) && forall i :: 0 <= i < |prices| ==> prices[i] <= Best(r, prices)
    ensures !r.long ==> r.extreme >= Best(r, prices) && forall i :: 0 <= i < |prices| ==> prices[i] >= Best(r, prices)
  {
    if prices == [] {
    } else {
      BestIsExtreme(r, prices[..|prices| - 1]);
    }
  }

  /** A stop's level only ever tightens exactly when its percentage cannot turn the level's sign
      around: at most one hundred percent for a long, at least minus that for a short. */
  lemma LevelRatchetsExactlyWhen(r: Record)
    ensures r.long ==> ((forall price :: Level(Ratchet(r, price)) >= Level(r)) <==> r.pct <= 1.0)
    ensures !r.long ==> ((forall price :: Level(Ratchet(r, price)) <= Level(r)) <==> r.pct >= -1.0)
  {
    if r.long {
      LongLevelRatchets(r);
    } else {
      ShortLevelRatchets(r);
    }
  }

  lemma Scaled(x: real, y: real, k: real)
    requires x <= y && k >= 0.0
    ensures x * k <= y * k
  {
  }

  lemma LongLevelRatchets(r: Record)
    requires r.long
    ensures (forall price :: Level(Ratchet(r, price)) >= Level(r)) <==> r.pct <= 1.0
  {
    assert Level(Ratchet(r, r.extreme + 1.0)) == Level(r) + (1.0 - r.pct);
    if r.pct <= 1.0 {
      forall price ensures Level(Ratchet(r, price)) >= Level(r) {
        if price > r.extreme {
          Scaled(r.extreme, price, 1.0 - r.pct);
        }
      }
    }
  }

  lemma ShortLevelRatchets(r: Record)
    requires !r.long
    ensures (forall price :: Level(Ratchet(r, price)) <= Level(r)) <==> r.pct >= -1.0
  {
    assert Level(Ratchet(r, r.extreme - 1.0)) == Level(r) - (1.0 + r.pct);
    if r.pct >= -1.0 {
      forall price ensures Level(Ratchet(r, price)) <= Level(r) {
        if price < r.extreme {
          Scaled(price, r.extreme, 1.0 + r.pct);
        }
      }
    }
  }

  // ---------------------------------------------------------------- the manager over whole runs

  datatype Op = Set(id: string, record: Record) | Tick(prices: Prices) | Remove(id: string)

  function Apply(stops: Stops, op: Op): Stops {
    match op
    case Set(id, r) => stops[id := r]
    case Tick(prices) => Updated(stops, prices)
    case Remove(id) => stops - {id}
  }

  function Run(stops: Stops, ops: seq<Op>): Stops {
    if ops == [] then stops else Apply(Run(stops, ops[..|ops| - 1]), ops[|ops| - 1])
  }

  /** The prices of one symbol that a run of operations carries. */
  function Stream(ops: seq<Op>, symbol: string): seq<real> {
    if ops == [] then []
    else
      var op := ops[|ops| - 1];
      Stream(ops[..|ops| - 1], symbol) + if op.Tick? && symbol in op.prices then [op.prices[symbol]] else []
  }

  /** No operation in the run registers or removes this stop. */
  ghost predicate LeftAlone(ops: seq<Op>, id: string) {
    forall i :: 0 <= i < |ops| ==> ops[i].Tick? || ops[i].id != id
  }

  lemma HitGrows(r: Record, prices: seq<real>, price: real)
    ensures Hit(r, prices + [price]) <==> Hit(r, prices) || Hits(r, prices + [price], |prices|)
  {
    hide Best, Through;
    var all := prices + [price];
    forall i: nat | i < |prices| ensures Hits(r, all, i) == Hits(r, prices, i) {
      assert all[..i + 1] == prices[..i + 1];
    }
  }

  /** The stop is there exactly while no price of the stream has hit, and has followed it. */
  ghost predicate Follows(stops: Stops, id: string, r: Record, stream: seq<real>) {
    && (id in stops <==> !Hit(r, stream))
    && (id in stops ==> stops[id] == r.(extreme := Best(r, stream)))
  }

  /** One operation that leaves the stop alone. */
  lemma FollowsOn(stops: Stops, op: Op, id: string, r: Record, stream: seq<real>)
    requires Follows(stops, id, r, stream) && (op.Tick? || op.id != id)
    ensures op.Tick? && r.symbol in op.prices ==> Follows(Apply(stops, op), id, r, stream + [op.prices[r.symbol]])
    ensures !(op.Tick? && r.symbol in op.prices) ==> Follows(Apply(stops, op), id, r, stream)
  {
    if op.Tick? && r.symbol in op.prices {
      HitGrows(r, stream, op.prices[r.symbol]);
      OneTick(r, stream, op.prices);
    }
    hide Hit, Hits, Best;
    if op.Tick? && id in stops {
      assert stops[id].symbol == r.symbol;
      OneRecord(id, stops[id], op.prices);
    }
    hide Moved, Fires;
  }

  /** Whatever happens to other stops and other symbols, a registered stop is still there exactly
      while no price of its stream has hit the trail, and then its extreme is the best so far. */
  lemma {:induction false} StopLivesUntilHit(stops: Stops, ops: seq<Op>, id: string)
    requires id in stops && LeftAlone(ops, id)
    ensures var r := stops[id];
            var stream := Stream(ops, r.symbol);
            && (id in Run(stops, ops) <==> !Hit(r, stream))
            && (id in Run(stops, ops) ==> Run(stops, ops)[id] == r.(extreme := Best(r, stream)))
  {
    StopFollows(stops, ops, id);
  }

  lemma {:induction false} StopFollows(stops: Stops, ops: seq<Op>, id: string)
    requires id in stops && LeftAlone(ops, id)
    ensures Follows(Run(stops, ops), id, stops[id], Stream(ops, stops[id].symbol))
  {
    if ops == [] {
    } else {
      hide Follows, Apply;
      var before, op := ops[..|ops| - 1], ops[|ops| - 1];
      var r := stops[id];
      StopFollows(stops, before, id);
      FollowsOn(Run(stops, before), op, id, r, Stream(before, r.symbol));
      assert Stream(before, r.symbol) + [] == Stream(before, r.symbol);
    }
  }

  /** Registering a stop starts it afresh, whatever stood under its id; removing it ends it. Other
      stops are untouched by either. */
  lemma RegisteredStopLivesUntilHit(stops: Stops, id: string, r: Record, ops: seq<Op>)
    requires LeftAlone(ops, id)
    ensures var s := Run(Apply(stops, Set(id, r)), ops);
            && (id in s <==> !Hit(r, Stream(ops, r.symbol)))
            && (id in s ==> s[id] == r.(extreme := Best(r, Stream(ops, r.symbol))))
    ensures id !in Run(Apply(stops, Remove(id)), ops)
    ensures forall other :: other != id && other in stops ==>
              && other in Apply(stops, Set(id, r)) && Apply(stops, Set(id, r))[other] == stops[other]
              && other in Apply(stops, Remove(id)) && Apply(stops, Remove(id))[other] == stops[other]
  {
    hide Hit, Best, Stream, Run;
    StopLivesUntilHit(Apply(stops, Set(id, r)), ops, id);
    GoneStaysGone(Apply(stops, Remove(id)), ops, id);
  }

  lemma {:induction false} GoneStaysGone(stops: Stops, ops: seq<Op>, id: string)
    requires id !in stops && LeftAlone(ops, id)
    ensures id !in Run(stops, ops)
  {
    hide Fires, Moved;
    if ops == [] {
    } else {
      GoneStaysGone(stops, ops[..|ops| - 1], id);
    }
  }

  /** One price moves the record to the new best, and fires exactly if it hits. */
  lemma OneTick(r: Record, stream: seq<real>, prices: Prices)
    requires r.symbol in prices
    ensures var all, now := stream + [prices[r.symbol]], r.(extreme := Best(r, stream));
            && Moved(now, prices) == r.(extreme := Best(r, all))
            && (Fires(now, prices) <==> Hits(r, all, |stream|))
  {
    var all := stream + [prices[r.symbol]];
    BreachedIsThrough(Ratchet(r.(extreme := Best(r, stream)), prices[r.symbol]), prices[r.symbol]);
    hide Through, Breached;
    assert all[..|stream| + 1] == all && all[..|stream|] == stream;
  }

  /** A stop fires on the very tick whose price is the first of its stream to hit the trail,
      once, at that price. */
  lemma FiresAtTheFirstHit(stops: Stops, ops: seq<Op>, id: string, prices: Prices)
    requires id in stops && LeftAlone(ops, id) && id in Run(stops, ops)
    ensures var r := stops[id];
            var stream := Stream(ops, r.symbol);
            Fires(Run(stops, ops)[id], prices)
            <==> r.symbol in prices && !Hit(r, stream) && Hits(r, stream + [prices[r.symbol]], |stream|)
  {
    hide Hit, Hits, Best, Stream, Trail;
    var r := stops[id];
    StopLivesUntilHit(stops, ops, id);
    if r.symbol in prices {
      OneTick(r, Stream(ops, r.symbol), prices);
    }
  }

  /** What is reported then: the stop, its symbol, the price that hit, and the level it hit, which
      trails the best price of the whole stream. */
  lemma TriggerTellsTheHit(stops: Stops, ops: seq<Op>, id: string, prices: Prices)
    requires id in stops && LeftAlone(ops, id) && id in Run(stops, ops) && stops[id].symbol in prices
    ensures Run(stops, ops)[id].symbol == stops[id].symbol
    ensures var r := stops[id];
            var price := prices[r.symbol];
            var best := Best(r, Stream(ops, r.symbol) + [price]);
            TriggerOf(id, Run(stops, ops)[id], prices)
            == Trigger(id, r.symbol, price, if r.long then best * (1.0 - r.pct) else best * (1.0 + r.pct))
  {
    hide *;
    StopLivesUntilHit(stops, ops, id);
    OneTick(stops[id], Stream(ops, stops[id].symbol), prices);
    OneRecord(id, Run(stops, ops)[id], prices);
    LevelOf(Moved(Run(stops, ops)[id], prices));
  }

  // ---------------------------------------------------------------- the class

  lemma OneRecord(id: string, r: Record, prices: Prices)
    ensures r.symbol !in prices ==> !Fires(r, prices) && Moved(r, prices) == r
    ensures r.symbol in prices ==>
              var price, moved := prices[r.symbol], Ratchet(r, prices[r.symbol]);
              && Moved(r, prices) == moved && moved.symbol == r.symbol
              && (Fires(r, prices) <==> Breached(moved, price))
              && TriggerOf(id, r, prices) == Trigger(id, r.symbol, price, Level(moved))
  {
  }

  /** The stops still to visit are as they were; the others have moved. */
  ghost predicate Midway(now: Stops, before: Stops, ids: set<string>, prices: Prices) {
    && ids <= before.Keys && now.Keys == before.Keys
    && (forall id :: id in before ==> now[id] == if id in ids then before[id] else Moved(before[id], prices))
  }

  function FiredBut(stops: Stops, ids: set<string>, prices: Prices): set<string> {
    set id | id in stops && id !in ids && Fires(stops[id], prices)
  }

  lemma NotStarted(stops: Stops, prices: Prices)
    ensures Midway(stops, stops, stops.Keys, prices)
    ensures FiredBut(stops, stops.Keys, prices) == {} && Reports([], {}, stops, prices)
  {
  }

  lemma OneStop(now: Stops, before: Stops, ids: set<string>, id: string, prices: Prices)
    requires Midway(now, before, ids, prices) && id in ids
    ensures id in now && id in before && now[id] == before[id] && id !in FiredBut(before, ids, prices)
    ensures Midway(now[id := Moved(before[id], prices)], before, ids - {id}, prices)
    ensures Moved(before[id], prices) == before[id] ==> Midway(now, before, ids - {id}, prices)
    ensures FiredBut(before, ids - {id}, prices)
            == FiredBut(before, ids, prices) + if Fires(before[id], prices) then {id} else {}
  {
    hide Fires, Moved;
    assert now[id := now[id]] == now;
  }

  lemma AllMoved(now: Stops, before: Stops, prices: Prices)
    requires Midway(now, before, {}, prices)
    ensures FiredBut(before, {}, prices) == Fired(before, prices)
    ensures now - Fired(before, prices) == Updated(before, prices)
  {
    hide Fires, Moved;
  }

  lemma OneReport(ts: seq<Trigger>, ids: set<string>, stops: Stops, prices: Prices, id: string)
    requires Reports(ts, ids, stops, prices) && id in stops && id !in ids && Fires(stops[id], prices)
    ensures Reports(ts + [TriggerOf(id, stops[id], prices)], ids + {id}, stops, prices)
  {
    var all := ts + [TriggerOf(id, stops[id], prices)];
    assert all[|ts|].id == id;
    assert forall i :: 0 <= i < |ts| ==> all[i] == ts[i];
  }

  class TrailingStopManager {
    var stops: Stops

    constructor ()
      ensures stops == map[]
    {
      stops := map[];
    }

    method SetTrailingStop(id: string, symbol: string, long: bool, pct: real, highestPrice: real)
      modifies this
      ensures stops == Apply(old(stops), Set(id, Record(symbol, long, pct, highestPrice)))
    {
      stops := stops[id := Record(symbol, long, pct, highestPrice)];
    }

    method RemoveStop(id: string)
      modifies this
      ensures stops == Apply(old(stops), Remove(id))
    {
      stops := stops - {id};
    }

    /** Move every stop, report those that fire and remove them afterwards. */
    method UpdatePrices(prices: Prices) returns (triggered: seq<Trigger>)
      modifies this
      ensures stops == Apply(old(stops), Tick(prices))
      ensures Reports(triggered, Fired(old(stops), prices), old(stops), prices)
    {
      hide Fires, Moved, TriggerOf, Breached, Ratchet, Level, Reports, Midway, Fired, Updated;
      triggered := [];
      var toRemove: set<string> := {};
      var ids := stops.Keys;
      NotStarted(stops, prices);
      while ids != {}
        invariant Midway(stops, old(stops), ids, prices)
        invariant toRemove == FiredBut(old(stops), ids, prices)
        invariant Reports(triggered, toRemove, old(stops), prices)
        decreases |ids|
      {
        var id :| id in ids;
        OneStop(stops, old(stops), ids, id, prices);
        ids := ids - {id};
        var record := stops[id];
        OneRecord(id, record, prices);
        if record.symbol !in prices {
          continue;
        }
        var price := prices[record.symbol];
        record := Ratchet(record, price);
        stops := stops[id := record];
        if Breached(record, price) {
          OneReport(triggered, toRemove, old(stops), prices, id);
          triggered := triggered + [Trigger(id, record.symbol, price, Level(record))];
          toRemove := toRemove + {id};
        }
      }
      AllMoved(stops, old(stops), prices);
      stops := stops - toRemove;
    }
  }
}
