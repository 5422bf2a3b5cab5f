/**
  Market-regime features served live and replayed in training
  (`services/feature_engineering/aux_features.py`).  Times are integers, values exact reals.
 */
module AuxFeatures {
  import opened Wrappers

  datatype Metric = FearGreed | FundingRate | SpyReturn | VixClose | OtherMetric(name: string)

  const GLOBAL_SYMBOL := ""

  datatype Row = Row(time: int, metric: Metric, symbol: string, value: real)

  datatype Features = Features(fearGreed: real, fundingRate: real, spyDailyReturn: real, vixClose: real)

  // ---------------------------------------------------------------- the live snapshot

  datatype Snapshot = Snapshot(fearGreed: real, vixClose: real, spyDailyReturn: real, funding: map<string, real>)

  const NOTHING_KNOWN := Snapshot(0.0, 0.0, 0.0, map[])

  function Absorb(s: Snapshot, row: Row): Snapshot {
    match row.metric
    case FearGreed => s.(fearGreed := row.value)
    case VixClose => s.(vixClose := row.value)
    case SpyReturn => s.(spyDailyReturn := row.value)
    case FundingRate => s.(funding := s.funding[row.symbol := row.value])
    case OtherMetric(_) => s
  }

  function Live(rows: seq<Row>): Snapshot {
    if rows == [] then NOTHING_KNOWN else Absorb(Live(rows[..|rows| - 1]), rows[|rows| - 1])
  }

  function Serve(s: Snapshot, symbol: string): Features {
    Features(s.fearGreed, if symbol in s.funding then s.funding[symbol] else 0.0, s.spyDailyReturn, s.vixClose)
  }

  class LiveAuxProvider {
    var fearGreed: real
    var vixClose: real
    var spyDailyReturn: real
    var funding: map<string, real>

    function Contents(): Snapshot
      reads this
    {
      Snapshot(fearGreed, vixClose, spyDailyReturn, funding)
    }

    constructor ()
      ensures Contents() == NOTHING_KNOWN
    {
      fearGreed, vixClose, spyDailyReturn, funding := 0.0, 0.0, 0.0, map[];
    }

    method Update(row: Row)
      modifies this
      ensures Contents() == Absorb(old(Contents()), row)
    {
      match row.metric
      case FearGreed => fearGreed := row.value;
      case VixClose => vixClose := row.value;
      case SpyReturn => spyDailyReturn := row.value;
      case FundingRate => funding := funding[row.symbol := row.value];
      case OtherMetric(_) =>
    }

    method FeaturesAsof(symbol: string, ts: int) returns (f: Features)
      ensures f == Serve(Contents(), symbol)
    {
      var rate := if symbol in funding then funding[symbol] else 0.0;
      f := Features(fearGreed, rate, spyDailyReturn, vixClose);
    }
  }

  // ---------------------------------------------------------------- the as-of lookup

  datatype Point = Point(time: int, value: real)

  function SeriesOf(rows: seq<Row>, m: Metric, symbol: string): seq<Point> {
    if rows == [] then []
    else
      var row := rows[|rows| - 1];
      SeriesOf(rows[..|rows| - 1], m, symbol) +
      if row.metric == m && row.symbol == symbol then [Point(row.time, row.value)] else []
  }

  ghost predicate Ordered(ps: seq<Point>) {
    forall i, j :: 0 <= i < j < |ps| ==> ps[i].time <= ps[j].time
  }

  /** Stable sort by time. */
  function Sorted(ps: seq<Point>): seq<Point> {
    if ps == [] then [] else Insert(Sorted(ps[..|ps| - 1]), ps[|ps| - 1])
  }

  function Insert(ps: seq<Point>, p: Point): (r: seq<Point>)
    ensures multiset(r) == multiset(ps) + multiset{p}
  {
    if ps == [] || ps[|ps| - 1].time <= p.time then ps + [p]
    else
      assert ps == ps[..|ps| - 1] + [ps[|ps| - 1]];
      Insert(ps[..|ps| - 1], p) + [ps[|ps| - 1]]
  }

  lemma {:induction false} InsertKeepsOrder(ps: seq<Point>, p: Point)
    requires Ordered(ps)
    ensures Ordered(Insert(ps, p)) && |Insert(ps, p)| == |ps| + 1
    ensures forall q :: q in Insert(ps, p) ==> q in ps || q == p
  {
    if ps != [] && ps[|ps| - 1].time > p.time {
      var before, last := ps[..|ps| - 1], ps[|ps| - 1];
      InsertKeepsOrder(before, p);
      assert forall i :: 0 <= i < |Insert(before, p)| ==> Insert(before, p)[i] in Insert(before, p);
      assert forall q :: q in before ==> q.time <= last.time;
    }
  }

  lemma {:induction false} SortedIsOrdered(ps: seq<Point>)
    ensures Ordered(Sorted(ps)) && |Sorted(ps)| == |ps|
  {
    if ps == [] {
    } else {
      SortedIsOrdered(ps[..|ps| - 1]);
      InsertKeepsOrder(Sorted(ps[..|ps| - 1]), ps[|ps| - 1]);
    }
  }

  function Better(best: Option<Point>, p: Point, ts: int): Option<Point> {
    if p.time <= ts && (best == None || best.value.time <= p.time) then Some(p) else best
  }

  /** The latest point at or before ts, in any arrival order; of equal times the last one. */
  function Latest(ps: seq<Point>, ts: int): Option<Point> {
    if ps == [] then None else Better(Latest(ps[..|ps| - 1], ts), ps[|ps| - 1], ts)
  }

  ghost predicate IsLatest(ps: seq<Point>, ts: int, i: nat) {
    && i < |ps| && ps[i].time <= ts
    && forall j :: 0 <= j < |ps| && ps[j].time <= ts ==>
         ps[j].time < ps[i].time || (ps[j].time == ps[i].time && j <= i)
  }

  /** What Latest means, without its recursion. */
  lemma {:induction false} LatestExactlyWhen(ps: seq<Point>, ts: int)
    ensures Latest(ps, ts) == None <==> forall j :: 0 <= j < |ps| ==> ps[j].time > ts
    ensures Latest(ps, ts).Some? ==> exists i: nat :: IsLatest(ps, ts, i) && ps[i] == Latest(ps, ts).value
  {
    if ps == [] {
    } else {
      var before, last := ps[..|ps| - 1], ps[|ps| - 1];
      LatestExactlyWhen(before, ts);
      assert ps == before + [last];
      LatestOfSnoc(before, last, ts);
      hide Latest;
      if last.time > ts {
        if Latest(before, ts).Some? {
          var i: nat :| IsLatest(before, ts, i) && before[i] == Latest(before, ts).value;
          assert IsLatest(ps, ts, i);
        }
      } else if Latest(before, ts) == None {
        assert forall j :: 0 <= j < |before| ==> ps[j] == before[j];
        assert IsLatest(ps, ts, |before|);
      } else {
        var i: nat :| IsLatest(before, ts, i) && before[i] == Latest(before, ts).value;
        assert IsLatest(ps, ts, if before[i].time <= last.time then |before| else i);
      }
    }
  }

  lemma {:induction false} LatestInPast(ps: seq<Point>, ts: int)
    ensures Latest(ps, ts).Some? ==> Latest(ps, ts).value in ps && Latest(ps, ts).value.time <= ts
  {
    if ps == [] {
    } else {
      LatestInPast(ps[..|ps| - 1], ts);
    }
  }

  lemma {:induction false} LatestAfterInsert(ps: seq<Point>, p: Point, ts: int)
    requires Ordered(ps)
    ensures Latest(Insert(ps, p), ts) == Better(Latest(ps, ts), p, ts)
  {
    hide Latest;
    if ps == [] || ps[|ps| - 1].time <= p.time {
      LatestOfSnoc(ps, p, ts);
    } else {
      var before, last := ps[..|ps| - 1], ps[|ps| - 1];
      LatestAfterInsert(before, p, ts);
      assert Insert(ps, p) == Insert(before, p) + [last] && ps == before + [last];
      hide Insert;
      LatestInPast(before, ts);
      LatestOfSnoc(before, last, ts);
      LatestOfSnoc(Insert(before, p), last, ts);
      assert forall q :: q in before ==> q.time <= last.time;
    }
  }

  lemma LatestOfSnoc(ps: seq<Point>, p: Point, ts: int)
    ensures Latest(ps + [p], ts) == Better(Latest(ps, ts), p, ts)
  {
    assert (ps + [p])[..|ps|] == ps;
  }

  /** Sorting does not change any as-of answer. */
  lemma {:induction false} SortingKeepsLatest(ps: seq<Point>, ts: int)
    ensures Latest(Sorted(ps), ts) == Latest(ps, ts)
  {
    if ps == [] {
    } else {
      SortingKeepsLatest(ps[..|ps| - 1], ts);
      SortedIsOrdered(ps[..|ps| - 1]);
      LatestAfterInsert(Sorted(ps[..|ps| - 1]), ps[|ps| - 1], ts);
    }
  }

  /** On an ordered series the answer sits just before the insertion point. */
  lemma {:induction false} LatestByIndex(ps: seq<Point>, ts: int, idx: nat)
    requires Ordered(ps) && idx <= |ps|
    requires forall i :: 0 <= i < idx ==> ps[i].time <= ts
    requires forall i :: idx <= i < |ps| ==> ps[i].time > ts
    ensures Latest(ps, ts) == if idx == 0 then None else Some(ps[idx - 1])
  {
    if ps == [] {
    } else {
      var before := ps[..|ps| - 1];
      LatestByIndex(before, ts, if idx == |ps| then idx - 1 else idx);
    }
  }

  function ValueOf(p: Option<Point>): real {
    if p == None then 0.0 else p.value.value
  }

  function Lookup(rows: seq<Row>, m: Metric, symbol: string, ts: int): real {
    ValueOf(Latest(SeriesOf(rows, m, symbol), ts))
  }

  function Replay(rows: seq<Row>, symbol: string, ts: int): Features {
    Features(Lookup(rows, FearGreed, GLOBAL_SYMBOL, ts), Lookup(rows, FundingRate, symbol, ts),
             Lookup(rows, SpyReturn, GLOBAL_SYMBOL, ts), Lookup(rows, VixClose, GLOBAL_SYMBOL, ts))
  }

  method BisectRight(times: seq<int>, ts: int) returns (idx: nat)
    requires forall i, j :: 0 <= i < j < |times| ==> times[i] <= times[j]
    ensures idx <= |times|
    ensures forall i :: 0 <= i < idx ==> times[i] <= ts
    ensures forall i :: idx <= i < |times| ==> times[i] > ts
  {
    var lo, hi := 0, |times|;
    while lo < hi
      invariant 0 <= lo <= hi <= |times|
      invariant forall i :: 0 <= i < lo ==> times[i] <= ts
      invariant forall i :: hi <= i < |times| ==> times[i] > ts
    {
      var mid := (lo + hi) / 2;
      if ts < times[mid] {
        hi := mid;
      } else {
        lo := mid + 1;
      }
    }
    idx := lo;
  }

  datatype Series = Series(times: seq<int>, values: seq<real>)

  function Columns(ps: seq<Point>): (s: Series)
    ensures |s.times| == |s.values| == |ps|
    ensures forall i :: 0 <= i < |ps| ==> s.times[i] == ps[i].time && s.values[i] == ps[i].value
  {
    Series(seq(|ps|, i requires 0 <= i < |ps| => ps[i].time), seq(|ps|, i requires 0 <= i < |ps| => ps[i].value))
  }

  type Key = (Metric, string)

  ghost predicate IsGroup(grouped: map<Key, seq<Point>>, rows: seq<Row>, key: Key) {
    if key in grouped then grouped[key] == SeriesOf(rows, key.0, key.1) != []
    else SeriesOf(rows, key.0, key.1) == []
  }

  ghost predicate AreGroups(grouped: map<Key, seq<Point>>, rows: seq<Row>) {
    forall key :: IsGroup(grouped, rows, key)
  }

  function WithRow(grouped: map<Key, seq<Point>>, row: Row): map<Key, seq<Point>> {
    var k := (row.metric, row.symbol);
    grouped[k := (if k in grouped then grouped[k] else []) + [Point(row.time, row.value)]]
  }

  lemma GroupRow(grouped: map<Key, seq<Point>>, rows: seq<Row>, i: nat)
    requires i < |rows| && AreGroups(grouped, rows[..i])
    ensures AreGroups(WithRow(grouped, rows[i]), rows[..i + 1])
  {
    assert rows[..i + 1][..i] == rows[..i];
    var upTo := rows[..i + 1];
    forall key ensures IsGroup(WithRow(grouped, rows[i]), upTo, key) {
      assert IsGroup(grouped, rows[..i], key);
    }
  }

  method Group(rows: seq<Row>) returns (grouped: map<Key, seq<Point>>)
    ensures AreGroups(grouped, rows)
  {
    grouped := map[];
    var i := 0;
    assert rows[..0] == [];
    while i < |rows|
      invariant 0 <= i <= |rows|
      invariant AreGroups(grouped, rows[..i])
    {
      GroupRow(grouped, rows, i);
      grouped := WithRow(grouped, rows[i]);
      i := i + 1;
    }
    assert rows[..i] == rows;
  }

  method SortAll(grouped: map<Key, seq<Point>>) returns (series: map<Key, Series>)
    ensures series.Keys == grouped.Keys
    ensures forall key :: key in series ==> series[key] == Columns(Sorted(grouped[key]))
  {
    series := map[];
    var keys := grouped.Keys;
    while keys != {}
      invariant keys <= grouped.Keys && series.Keys == grouped.Keys - keys
      invariant forall key :: key in series ==> series[key] == Columns(Sorted(grouped[key]))
      decreases |keys|
    {
      var key :| key in keys;
      series := series[key := Columns(Sorted(grouped[key]))];
      keys := keys - {key};
    }
  }

  lemma NothingToLookUp(rows: seq<Row>, m: Metric, symbol: string, ts: int)
    requires SeriesOf(rows, m, symbol) == []
    ensures Lookup(rows, m, symbol, ts) == 0.0
  {
  }

  lemma LookupByIndex(rows: seq<Row>, m: Metric, symbol: string, ts: int, idx: nat)
    requires var sorted := Sorted(SeriesOf(rows, m, symbol));
             && idx <= |sorted|
             && (forall i :: 0 <= i < idx ==> sorted[i].time <= ts)
             && (forall i :: idx <= i < |sorted| ==> sorted[i].time > ts)
    ensures Lookup(rows, m, symbol, ts)
            == if idx == 0 then 0.0 else Sorted(SeriesOf(rows, m, symbol))[idx - 1].value
  {
    hide Latest, Sorted, SeriesOf;
    var ps := SeriesOf(rows, m, symbol);
    SortedIsOrdered(ps);
    SortingKeepsLatest(ps, ts);
    LatestByIndex(Sorted(ps), ts, idx);
  }

  class HistoricalAuxProvider {
    var series: map<Key, Series>
    ghost var rows: seq<Row>

    ghost predicate Holds(key: Key)
      reads this
    {
      var ps := SeriesOf(rows, key.0, key.1);
      (key in series <==> ps != []) && (key in series ==> series[key] == Columns(Sorted(ps)))
    }

    ghost predicate Valid()
      reads this
    {
      forall key :: Holds(key)
    }

    constructor (rows: seq<Row>)
      ensures Valid() && this.rows == rows
    {
      var grouped := Group(rows);
      var sorted := SortAll(grouped);
      this.rows := rows;
      series := sorted;
      new;
      assert forall key :: IsGroup(grouped, rows, key) ==> Holds(key);
    }

    method Asof(m: Metric, symbol: string, ts: int) returns (v: real)
      requires Valid()
      ensures v == Lookup(rows, m, symbol, ts)
    {
      hide Latest, Sorted, SeriesOf, Insert, Columns, Lookup;
      assert Holds((m, symbol));
      if (m, symbol) !in series {
        NothingToLookUp(rows, m, symbol, ts);
        return 0.0;
      }
      SortedIsOrdered(SeriesOf(rows, m, symbol));
      var entry := series[(m, symbol)];
      var idx := BisectRight(entry.times, ts);
      LookupByIndex(rows, m, symbol, ts, idx);
      if idx == 0 {
        return 0.0;
      }
      v := entry.values[idx - 1];
    }

    method FeaturesAsof(symbol: string, ts: int) returns (f: Features)
      requires Valid()
      ensures f == Replay(rows, symbol, ts)
    {
      var fearGreed := Asof(FearGreed, GLOBAL_SYMBOL, ts);
      var fundingRate := Asof(FundingRate, symbol, ts);
      var spyReturn := Asof(SpyReturn, GLOBAL_SYMBOL, ts);
      var vixClose := Asof(VixClose, GLOBAL_SYMBOL, ts);
      f := Features(fearGreed, fundingRate, spyReturn, vixClose);
    }
  }

  // ---------------------------------------------------------------- parity

  function UpTo(rows: seq<Row>, ts: int): seq<Row> {
    if rows == [] then []
    else UpTo(rows[..|rows| - 1], ts) + if rows[|rows| - 1].time <= ts then [rows[|rows| - 1]] else []
  }

  /** Rows of one series arrive in time order; different series may interleave freely. */
  ghost predicate InOrder(rows: seq<Row>) {
    forall i, j :: 0 <= i < j < |rows| && rows[i].metric == rows[j].metric && rows[i].symbol == rows[j].symbol ==>
      rows[i].time <= rows[j].time
  }

  ghost predicate GlobalsUnderEmptySymbol(rows: seq<Row>) {
    forall i :: 0 <= i < |rows| && !rows[i].metric.FundingRate? ==> rows[i].symbol == GLOBAL_SYMBOL
  }

  lemma {:induction false} SeriesTimes(rows: seq<Row>, m: Metric, symbol: string, limit: int)
    requires forall i :: 0 <= i < |rows| && rows[i].metric == m && rows[i].symbol == symbol ==> rows[i].time <= limit
    ensures forall p :: p in SeriesOf(rows, m, symbol) ==> p.time <= limit
  {
    if rows == [] {
    } else {
      SeriesTimes(rows[..|rows| - 1], m, symbol, limit);
    }
  }

  /** In order, the newest row of a series that has arrived by ts is its as-of answer. */
  lemma {:induction false} LookupStep(rows: seq<Row>, m: Metric, symbol: string, ts: int)
    requires rows != [] && InOrder(rows)
    ensures var row := rows[|rows| - 1];
            Lookup(rows, m, symbol, ts)
            == if row.metric == m && row.symbol == symbol && row.time <= ts then row.value
               else Lookup(rows[..|rows| - 1], m, symbol, ts)
  {
    var before, row := rows[..|rows| - 1], rows[|rows| - 1];
    var ps := SeriesOf(before, m, symbol);
    if row.metric == m && row.symbol == symbol {
      SeriesTimes(before, m, symbol, row.time);
      LatestInPast(ps, ts);
      assert (ps + [Point(row.time, row.value)])[..|ps|] == ps;
    } else {
      assert ps + [] == ps;
    }
  }

  lemma LiveStep(rows: seq<Row>, ts: int)
    requires rows != []
    ensures var before, row := Live(UpTo(rows[..|rows| - 1], ts)), rows[|rows| - 1];
            Live(UpTo(rows, ts)) == if row.time <= ts then Absorb(before, row) else before
  {
    var seen, row := UpTo(rows[..|rows| - 1], ts), rows[|rows| - 1];
    assert (seen + [row])[..|seen|] == seen && seen + [] == seen;
  }

  /** Train/serve parity: replaying at ts gives what the live snapshot held once every row up to
      ts had arrived, for every symbol, with ties, gaps and missing series included. */
  lemma {:induction false} ReplayIsLive(rows: seq<Row>, symbol: string, ts: int)
    requires InOrder(rows) && GlobalsUnderEmptySymbol(rows)
    ensures Replay(rows, symbol, ts) == Serve(Live(UpTo(rows, ts)), symbol)
  {
    if rows == [] {
    } else {
      var before, row := rows[..|rows| - 1], rows[|rows| - 1];
      ReplayIsLive(before, symbol, ts);
      assert row.metric.FundingRate? || row.symbol == GLOBAL_SYMBOL;
      hide Lookup, InOrder, GlobalsUnderEmptySymbol, Live, UpTo;
      LookupStep(rows, FearGreed, GLOBAL_SYMBOL, ts);
      LookupStep(rows, FundingRate, symbol, ts);
      LookupStep(rows, SpyReturn, GLOBAL_SYMBOL, ts);
      LookupStep(rows, VixClose, GLOBAL_SYMBOL, ts);
      LiveStep(rows, ts);
    }
  }

  /** No look-ahead: rows stamped after ts never matter. */
  lemma ReplayIgnoresTheFuture(rows: seq<Row>, symbol: string, ts: int)
    ensures Replay(UpTo(rows, ts), symbol, ts) == Replay(rows, symbol, ts)
  {
    LatestIgnoresTheFuture(rows, FearGreed, GLOBAL_SYMBOL, ts);
    LatestIgnoresTheFuture(rows, FundingRate, symbol, ts);
    LatestIgnoresTheFuture(rows, SpyReturn, GLOBAL_SYMBOL, ts);
    LatestIgnoresTheFuture(rows, VixClose, GLOBAL_SYMBOL, ts);
  }

  lemma LatestOfMaybe(ps: seq<Point>, p: Point, mine: bool, ts: int)
    ensures Latest(ps + (if mine then [p] else []), ts) == if mine then Better(Latest(ps, ts), p, ts) else Latest(ps, ts)
  {
    LatestOfSnoc(ps, p, ts);
    assert ps + [] == ps;
  }

  lemma {:induction false} LatestIgnoresTheFuture(rows: seq<Row>, m: Metric, symbol: string, ts: int)
    ensures Latest(SeriesOf(UpTo(rows, ts), m, symbol), ts) == Latest(SeriesOf(rows, m, symbol), ts)
  {
    if rows == [] {
    } else {
      var before, row := rows[..|rows| - 1], rows[|rows| - 1];
      LatestIgnoresTheFuture(before, m, symbol, ts);
      assert rows == before + [row];
      var seen := UpTo(before, ts);
      assert UpTo(rows, ts) == seen + if row.time <= ts then [row] else [];
      hide Latest, SeriesOf, UpTo;
      var mine, p := row.metric == m && row.symbol == symbol, Point(row.time, row.value);
      assert seen + [] == seen;
      LatestOfMaybe(SeriesOf(before, m, symbol), p, mine, ts);
      LatestOfMaybe(SeriesOf(seen, m, symbol), p, mine, ts);
    }
  }
}
