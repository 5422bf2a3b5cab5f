/**
  The simulated account of `services/execution/brokers/paper_broker.py`: cash, signed positions,
  cost basis and realised profit.  Amounts are exact reals.
 */
module PaperBroker {
  import opened Arithmetic
  import opened Sequences

  datatype Account = Account(cash: real, positions: map<string, real>, avgEntry: map<string, real>,
                             lastPrices: map<string, real>, realized: real)

  datatype Fill = Fill(symbol: string, buy: bool, price: real, quantity: real, commission: real)

  function Or(m: map<string, real>, s: string): real {
    if s in m then m[s] else 0.0
  }

  function Signed(f: Fill): real {
    if f.buy then f.quantity else -f.quantity
  }

  // ---------------------------------------------------------------- one fill

  function WeightedAverage(held: real, avg: real, signed: real, price: real): real {
    var total := Abs(held) + Abs(signed);
    if total == 0.0 then 0.0 else (Abs(held) * avg + Abs(signed) * price) / total
  }

  /** Adding to a position re-averages its cost; reducing it keeps the cost; flipping it starts a
      new position at the fill's price. */
  function NewAverage(held: real, avg: real, signed: real, price: real): real {
    if held == 0.0 || (held > 0.0) == (signed > 0.0) then
      WeightedAverage(held, avg, signed, price)
    else if held + signed != 0.0 && (held > 0.0) != (held + signed > 0.0) then price
    else avg
  }

  function Realised(held: real, avg: real, signed: real, price: real): real {
    if held == 0.0 || (held > 0.0) == (signed > 0.0) then 0.0
    else ClosedProfit(if held > 0.0 then 1.0 else -1.0, Min(Abs(held), Abs(signed)), price - avg)
  }

  function ClosedProfit(direction: real, closed: real, gain: real): real {
    direction * closed * gain
  }

  function ApplyToBook(a: Account, f: Fill): Account {
    var signed, held, avg := Signed(f), Or(a.positions, f.symbol), Or(a.avgEntry, f.symbol);
    Account(a.cash - signed * f.price - f.commission,
            a.positions[f.symbol := held + signed],
            if held + signed == 0.0 then a.avgEntry - {f.symbol}
            else a.avgEntry[f.symbol := NewAverage(held, avg, signed, f.price)],
            a.lastPrices,
            a.realized + Realised(held, avg, signed, f.price) - f.commission)
  }

  /** The heart of the accounting: the cost of the new position is the cost of the old one plus
      the money spent, less the profit taken, in every case including a flip. */
  lemma CostMovesWithMoney(held: real, avg: real, signed: real, price: real)
    ensures (held + signed) * NewAverage(held, avg, signed, price)
            == held * avg + signed * price + Realised(held, avg, signed, price)
  {
    if held == 0.0 || (held > 0.0) == (signed > 0.0) {
      AddingMovesCost(held, avg, signed, price);
    } else {
      ReducingMovesCost(held, avg, signed, price);
    }
  }

  lemma AddingMovesCost(held: real, avg: real, signed: real, price: real)
    requires held == 0.0 || (held > 0.0) == (signed > 0.0)
    ensures (held + signed) * WeightedAverage(held, avg, signed, price) == held * avg + signed * price
  {
    var total := Abs(held) + Abs(signed);
    if total != 0.0 {
      var average := WeightedAverage(held, avg, signed, price);
      QuotientTimes(Abs(held) * avg + Abs(signed) * price, total);
      if held < 0.0 || signed < 0.0 {
        NegatedFactor(total, average);
        NegatedFactor(Abs(held), avg);
        NegatedFactor(Abs(signed), price);
      }
    }
  }

  lemma QuotientTimes(x: real, y: real)
    requires y != 0.0
    ensures y * (x / y) == x
  {
  }

  lemma NegatedFactor(a: real, b: real)
    ensures -a * b == -(a * b)
  {
  }

  lemma ReducingMovesCost(held: real, avg: real, signed: real, price: real)
    requires held != 0.0 && (held > 0.0) != (signed > 0.0)
    ensures (held + signed) * NewAverage(held, avg, signed, price)
            == held * avg + signed * price + Realised(held, avg, signed, price)
  {
    var after := held + signed;
    if after != 0.0 && (held > 0.0) != (after > 0.0) {
      assert Realised(held, avg, signed, price) == held * (price - avg);
    } else {
      assert Realised(held, avg, signed, price) == -signed * (price - avg);
    }
  }

  // ---------------------------------------------------------------- the account

  function Cost(a: Account, s: string): real {
    Or(a.positions, s) * Or(a.avgEntry, s)
  }

  /** What the positions on a list of symbols cost. */
  function CostBasis(a: Account, symbols: seq<string>): real {
    if symbols == [] then 0.0 else CostBasis(a, symbols[..|symbols| - 1]) + Cost(a, symbols[|symbols| - 1])
  }

  /** The money a fill puts into a position, with the profit it takes added. */
  function Moved(a: Account, f: Fill): real {
    Signed(f) * f.price + Realised(Or(a.positions, f.symbol), Or(a.avgEntry, f.symbol), Signed(f), f.price)
  }

  lemma PositionAfter(a: Account, f: Fill, s: string)
    ensures var b, held, avg := ApplyToBook(a, f), Or(a.positions, s), Or(a.avgEntry, s);
            && (s != f.symbol ==> Or(b.positions, s) == held && Or(b.avgEntry, s) == avg)
            && (s == f.symbol ==> Or(b.positions, s) == held + Signed(f))
            && (s == f.symbol ==>
                  Or(b.avgEntry, s) == if held + Signed(f) == 0.0 then 0.0 else NewAverage(held, avg, Signed(f), f.price))
  {
    hide NewAverage, Realised;
  }

  lemma CostAfter(a: Account, f: Fill, s: string)
    ensures Cost(ApplyToBook(a, f), s) == Cost(a, s) + if s == f.symbol then Moved(a, f) else 0.0
  {
    var held, avg := Or(a.positions, s), Or(a.avgEntry, s);
    PositionAfter(a, f, s);
    CostMovesWithMoney(held, avg, Signed(f), f.price);
    hide ApplyToBook, NewAverage, Realised, Or, Signed;
    if s == f.symbol && held + Signed(f) == 0.0 {
      ZeroTimes(NewAverage(held, avg, Signed(f), f.price));
    }
  }

  lemma ZeroTimes(x: real)
    ensures 0.0 * x == 0.0
  {
  }

  lemma {:induction false} CostBasisMoves(a: Account, f: Fill, symbols: seq<string>)
    requires Distinct(symbols)
    ensures CostBasis(ApplyToBook(a, f), symbols)
            == CostBasis(a, symbols) + if f.symbol in symbols then Moved(a, f) else 0.0
  {
    hide Cost, Moved, ApplyToBook;
    if symbols == [] {
    } else {
      var before, s := symbols[..|symbols| - 1], symbols[|symbols| - 1];
      CostBasisMoves(a, f, before);
      assert symbols == before + [s];
      CostAfter(a, f, s);
    }
  }

  lemma MoneyAfter(a: Account, f: Fill)
    ensures ApplyToBook(a, f).cash - ApplyToBook(a, f).realized == a.cash - a.realized - Moved(a, f)
  {
    hide NewAverage, Realised;
  }

  /** A fill on the side of the position, or with none held, adds to it: the money moves, no profit
      is taken, and the new average spreads the old cost and the new over the whole size. */
  lemma AddingSettles(a: Account, f: Fill)
    requires f.quantity > 0.0 && (if f.buy then Or(a.positions, f.symbol) >= 0.0 else Or(a.positions, f.symbol) <= 0.0)
    ensures var b, s := ApplyToBook(a, f), f.symbol;
            var held, size := Or(a.positions, s), Abs(Or(a.positions, s));
            && Or(b.positions, s) == (if f.buy then held + f.quantity else held - f.quantity)
            && b.cash == (if f.buy then a.cash - f.price * f.quantity else a.cash + f.price * f.quantity) - f.commission
            && b.realized == a.realized - f.commission
            && Or(b.avgEntry, s) * (size + f.quantity) == Or(a.avgEntry, s) * size + f.price * f.quantity
  {
    var held, avg := Or(a.positions, f.symbol), Or(a.avgEntry, f.symbol);
    PositionAfter(a, f, f.symbol);
    MoneyOf(a, f);
    AddedAverage(held, avg, Signed(f), f.price);
    assert Realised(held, avg, Signed(f), f.price) == 0.0 && Abs(Signed(f)) == f.quantity;
    assert NewAverage(held, avg, Signed(f), f.price) == WeightedAverage(held, avg, Signed(f), f.price);
    hide ApplyToBook, NewAverage, WeightedAverage, Realised;
  }

  lemma AddedAverage(held: real, avg: real, signed: real, price: real)
    requires signed != 0.0
    ensures WeightedAverage(held, avg, signed, price) * (Abs(held) + Abs(signed)) == avg * Abs(held) + price * Abs(signed)
  {
    QuotientTimes(Abs(held) * avg + Abs(signed) * price, Abs(held) + Abs(signed));
  }

  lemma MoneyOf(a: Account, f: Fill)
    ensures var b := ApplyToBook(a, f);
            && b.cash == (if f.buy then a.cash - f.price * f.quantity else a.cash + f.price * f.quantity) - f.commission
            && b.realized == a.realized + Realised(Or(a.positions, f.symbol), Or(a.avgEntry, f.symbol), Signed(f), f.price) - f.commission
  {
    hide NewAverage, Realised;
    assert Signed(f) * f.price == if f.buy then f.price * f.quantity else -(f.price * f.quantity);
  }

  /** A fill against the position closes as much of it as there is and takes the profit on that; what
      is left keeps its average, and a position that flips starts at the fill's price. */
  lemma ClosingSettles(a: Account, f: Fill)
    requires f.quantity > 0.0 && (if f.buy then Or(a.positions, f.symbol) < 0.0 else Or(a.positions, f.symbol) > 0.0)
    ensures var b, s := ApplyToBook(a, f), f.symbol;
            var held, avg, size := Or(a.positions, s), Or(a.avgEntry, s), Abs(Or(a.positions, s));
            var closed, gain := if f.quantity <= size then f.quantity else size, if f.buy then avg - f.price else f.price - avg;
            && Or(b.positions, s) == (if f.buy then held + f.quantity else held - f.quantity)
            && b.cash == (if f.buy then a.cash - f.price * f.quantity else a.cash + f.price * f.quantity) - f.commission
            && b.realized == a.realized + gain * closed - f.commission
            && (f.quantity < size ==> Or(b.avgEntry, s) == avg)
            && (f.quantity == size ==> s !in b.avgEntry)
            && (f.quantity > size ==> Or(b.avgEntry, s) == f.price)
  {
    var held, avg := Or(a.positions, f.symbol), Or(a.avgEntry, f.symbol);
    MoneyOf(a, f);
    PositionAfter(a, f, f.symbol);
    TakenProfit(held, avg, Signed(f), f.price);
    assert f.quantity == Abs(held) ==> f.symbol !in ApplyToBook(a, f).avgEntry;
    hide ApplyToBook, Realised;
  }

  lemma TakenProfit(held: real, avg: real, signed: real, price: real)
    requires held > 0.0 > signed || held < 0.0 < signed
    ensures var closed := if Abs(signed) <= Abs(held) then Abs(signed) else Abs(held);
            Realised(held, avg, signed, price) == (if held > 0.0 then price - avg else avg - price) * closed
  {
    var closed := Min(Abs(held), Abs(signed));
    assert ClosedProfit(1.0, closed, price - avg) == (price - avg) * closed;
    assert ClosedProfit(-1.0, closed, price - avg) == (avg - price) * closed;
    hide ClosedProfit;
  }

  /** Nothing else moves. */
  lemma OthersKeepTheirBook(a: Account, f: Fill, s: string)
    requires s != f.symbol
    ensures var b := ApplyToBook(a, f);
            Or(b.positions, s) == Or(a.positions, s) && Or(b.avgEntry, s) == Or(a.avgEntry, s) && b.lastPrices == a.lastPrices
  {
    hide NewAverage, Realised;
  }

  function Applied(a: Account, fills: seq<Fill>): Account {
    if fills == [] then a else ApplyToBook(Applied(a, fills[..|fills| - 1]), fills[|fills| - 1])
  }

  /** Cash plus the cost of the open book always equals the starting capital plus what has been
      realised, over every run of fills. */
  lemma {:induction false} CashAndCostReconcile(a: Account, fills: seq<Fill>, symbols: seq<string>)
    requires Distinct(symbols) && forall i :: 0 <= i < |fills| ==> fills[i].symbol in symbols
    ensures var b := Applied(a, fills);
            b.cash + CostBasis(b, symbols) - b.realized == a.cash + CostBasis(a, symbols) - a.realized
  {
    hide ApplyToBook, Moved, CostBasis;
    if fills == [] {
    } else {
      var before, last := fills[..|fills| - 1], fills[|fills| - 1];
      CashAndCostReconcile(a, before, symbols);
      CostBasisMoves(Applied(a, before), last, symbols);
      MoneyAfter(Applied(a, before), last);
    }
  }

  /** A cost is held only for positions that are open. */
  ghost predicate BookOk(a: Account) {
    forall s :: s in a.avgEntry ==> Or(a.positions, s) != 0.0
  }

  lemma {:induction false} FillsKeepBookOk(a: Account, fills: seq<Fill>)
    requires BookOk(a)
    ensures BookOk(Applied(a, fills))
  {
    if fills == [] {
    } else {
      FillsKeepBookOk(a, fills[..|fills| - 1]);
    }
  }

  // ---------------------------------------------------------------- accounts that trade alike

  /** The same money, the same signed positions and the same cost basis. */
  ghost predicate SameBook(a: Account, b: Account) {
    && a.cash == b.cash && a.realized == b.realized
    && SamePositions(a, b)
  }

  ghost predicate SamePositions(a: Account, b: Account) {
    forall s :: Or(a.positions, s) == Or(b.positions, s) && Or(a.avgEntry, s) == Or(b.avgEntry, s)
  }

  function Commissions(fills: seq<Fill>): real {
    if fills == [] then 0.0 else Commissions(fills[..|fills| - 1]) + fills[|fills| - 1].commission
  }

  /** A replayed fill carries no commission. */
  function Replayed(f: Fill): Fill {
    f.(commission := 0.0)
  }

  function Replay(a: Account, fills: seq<Fill>): Account {
    if fills == [] then a else ApplyToBook(Replay(a, fills[..|fills| - 1]), Replayed(fills[|fills| - 1]))
  }

  lemma SameStep(a: Account, b: Account, f: Fill)
    requires SamePositions(a, b)
    ensures var x, y := ApplyToBook(a, Replayed(f)), ApplyToBook(b, f);
            && SamePositions(x, y)
            && x.cash - a.cash == y.cash - b.cash + f.commission
            && x.realized - a.realized == y.realized - b.realized + f.commission
  {
    hide NewAverage, Realised;
    assert Or(a.positions, f.symbol) == Or(b.positions, f.symbol);
    assert Or(a.avgEntry, f.symbol) == Or(b.avgEntry, f.symbol);
    assert Signed(Replayed(f)) == Signed(f);
    var x, y := ApplyToBook(a, Replayed(f)), ApplyToBook(b, f);
    forall s ensures Or(x.positions, s) == Or(y.positions, s) && Or(x.avgEntry, s) == Or(y.avgEntry, s) {
      assert Or(a.positions, s) == Or(b.positions, s) && Or(a.avgEntry, s) == Or(b.avgEntry, s);
    }
  }

  /** Replaying fills onto the same book gives the same book again, and misstates cash and
      realised profit by exactly the commissions that were paid. */
  lemma {:induction false} ReplayOmitsCommissions(a: Account, b: Account, fills: seq<Fill>)
    requires SameBook(a, b)
    ensures var x, y := Replay(a, fills), Applied(b, fills);
            && SamePositions(x, y)
            && x.cash == y.cash + Commissions(fills)
            && x.realized == y.realized + Commissions(fills)
  {
    if fills == [] {
    } else {
      var before := fills[..|fills| - 1];
      hide SamePositions, ApplyToBook;
      ReplayOmitsCommissions(a, b, before);
      SameStep(Replay(a, before), Applied(b, before), fills[|fills| - 1]);
    }
  }

  // ---------------------------------------------------------------- the class

  datatype Holding = Holding(symbol: string, quantity: real, avgEntry: real, currentPrice: real)

  /** A zero price counts as no price. */
  function OrElse(x: real, y: real): real {
    if x != 0.0 then x else y
  }

  function HoldingOf(a: Account, s: string): Holding {
    Holding(s, Or(a.positions, s), Or(a.avgEntry, s), OrElse(Or(a.lastPrices, s), Or(a.avgEntry, s)))
  }

  ghost predicate IsReportOf(hs: seq<Holding>, a: Account) {
    && (forall i :: 0 <= i < |hs| ==> hs[i] == HoldingOf(a, hs[i].symbol) && hs[i].quantity != 0.0)
    && (forall i, j :: 0 <= i < j < |hs| ==> hs[i].symbol != hs[j].symbol)
    && (forall s :: Or(a.positions, s) != 0.0 ==> exists i :: 0 <= i < |hs| && hs[i].symbol == s)
  }

  class PaperBroker {
    var cash: real
    var positions: map<string, real>
    var avgEntry: map<string, real>
    var lastPrices: map<string, real>
    var realizedPnl: real

    function Contents(): Account
      reads this
    {
      Account(cash, positions, avgEntry, lastPrices, realizedPnl)
    }

    constructor (initialCash: real)
      ensures Contents() == Account(initialCash, map[], map[], map[], 0.0)
    {
      cash, positions, avgEntry, lastPrices, realizedPnl := initialCash, map[], map[], map[], 0.0;
    }

    method ApplyFill(f: Fill)
      modifies this
      ensures Contents() == ApplyToBook(old(Contents()), f)
    {
      hide WeightedAverage, ClosedProfit, Abs, Min, Members;
      var signed := if f.buy then f.quantity else -f.quantity;
      var held, avg := Or(positions, f.symbol), Or(avgEntry, f.symbol);
      var newQty := held + signed;
      var newAvg;
      if held == 0.0 || (held > 0.0) == (signed > 0.0) {
        newAvg := WeightedAverage(held, avg, signed, f.price);
      } else {
        var closed := Min(Abs(held), Abs(signed));
        var direction := if held > 0.0 then 1.0 else -1.0;
        realizedPnl := realizedPnl + ClosedProfit(direction, closed, f.price - avg);
        newAvg := if newQty != 0.0 && (held > 0.0) != (newQty > 0.0) then f.price else avg;
      }
      positions := positions[f.symbol := newQty];
      if newQty == 0.0 {
        avgEntry := avgEntry - {f.symbol};
      } else {
        avgEntry := avgEntry[f.symbol := newAvg];
      }
      cash := cash - signed * f.price;
      cash := cash - f.commission;
      realizedPnl := realizedPnl - f.commission;
    }

    method GetAccount() returns (balance: real, profit: real)
      ensures balance == cash && profit == realizedPnl
    {
      balance, profit := cash, realizedPnl;
    }

    method GetPositions() returns (report: seq<Holding>)
      ensures IsReportOf(report, Contents())
    {
      report := [];
      var symbols := positions.Keys;
      while symbols != {}
        invariant symbols <= positions.Keys
        invariant forall i :: 0 <= i < |report| ==>
          report[i] == HoldingOf(Contents(), report[i].symbol) && report[i].quantity != 0.0 && report[i].symbol !in symbols
        invariant forall i, j :: 0 <= i < j < |report| ==> report[i].symbol != report[j].symbol
        invariant forall s :: s in positions && positions[s] != 0.0 && s !in symbols ==>
          exists i :: 0 <= i < |report| && report[i].symbol == s
        decreases |symbols|
      {
        var s :| s in symbols;
        symbols := symbols - {s};
        if positions[s] != 0.0 {
          ghost var before := report;
          report := report + [HoldingOf(Contents(), s)];
          assert report[|before|].symbol == s;
          assert forall i :: 0 <= i < |before| ==> report[i] == before[i];
        }
      }
    }
  }
}
