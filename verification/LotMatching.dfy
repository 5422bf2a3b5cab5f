/**
  FIFO profit attribution of `services/continuous_learning/service.py`: buy fills open lots, sell
  fills close them oldest first with both commissions pro-rated.  Amounts are exact reals.
 */
module LotMatching {
  import opened Arithmetic

  const MAX_OPEN_LOTS_PER_SYMBOL := 20
  const LOT_MAX_AGE := 24 * 60 * 60
  const DUST: real := 0.000000000001

  datatype Lot = Lot(quantity: real, price: real, commission: real, predictionId: string, exploration: bool, ts: int)

  datatype Side = Buy | Sell | OtherSide

  datatype Fill = Fill(side: Side, price: real, quantity: real, commission: real, exploration: bool)

  datatype Trade = Trade(matched: real, entryPrice: real, realisedReturn: real, exitCommission: real,
                         entryCommission: real, pnl: real, predictionId: string, exploration: bool)

  predicate Usable(f: Fill) {
    f.price > 0.0 && f.quantity > 0.0
  }

  predicate LotOk(lot: Lot) {
    lot.quantity > 0.0 && lot.price > 0.0
  }

  ghost predicate LotsOk(lots: seq<Lot>) {
    forall i :: 0 <= i < |lots| ==> LotOk(lots[i])
  }

  // ---------------------------------------------------------------- one match

  function ProRata(amount: real, part: real, whole: real): real
    requires whole != 0.0
  {
    amount * (part / whole)
  }

  function Close(f: Fill, lot: Lot, matched: real): Trade
    requires LotOk(lot) && Usable(f)
  {
    var exitCommission := ProRata(f.commission, matched, f.quantity);
    var entryCommission := ProRata(lot.commission, matched, lot.quantity);
    Trade(matched, lot.price, (f.price - lot.price) / lot.price, exitCommission, entryCommission,
          (f.price - lot.price) * matched - exitCommission - entryCommission,
          lot.predictionId, lot.exploration || f.exploration)
  }

  function Shrunk(lot: Lot, t: Trade): Lot {
    lot.(quantity := lot.quantity - t.matched, commission := lot.commission - t.entryCommission)
  }

  datatype Matching = Matching(lots: seq<Lot>, trades: seq<Trade>, left: real)

  /** Close lots from the oldest until the sale or the lots run out. */
  function Match(f: Fill, lots: seq<Lot>, remaining: real): (r: Matching)
    requires LotsOk(lots) && Usable(f)
    ensures LotsOk(r.lots) && |r.trades| <= |lots|
    decreases |lots|, if remaining > DUST then 1 else 0
  {
    if remaining <= DUST || lots == [] then Matching(lots, [], remaining)
    else
      var t := Close(f, lots[0], Min(remaining, lots[0].quantity));
      var lot := Shrunk(lots[0], t);
      if lot.quantity <= DUST then
        var r := Match(f, lots[1..], remaining - t.matched);
        r.(trades := [t] + r.trades)
      else
        Matching([lot] + lots[1..], [t], remaining - t.matched)
  }

  // ---------------------------------------------------------------- what one sale does

  function Quantity(lots: seq<Lot>): real {
    if lots == [] then 0.0 else lots[0].quantity + Quantity(lots[1..])
  }

  function Matched(ts: seq<Trade>): real {
    if ts == [] then 0.0 else ts[0].matched + Matched(ts[1..])
  }

  function Cost(ts: seq<Trade>): real {
    if ts == [] then 0.0 else ts[0].entryPrice * ts[0].matched + Cost(ts[1..])
  }

  function EntryCommissions(ts: seq<Trade>): real {
    if ts == [] then 0.0 else ts[0].entryCommission + EntryCommissions(ts[1..])
  }

  function Pnl(ts: seq<Trade>): real {
    if ts == [] then 0.0 else ts[0].pnl + Pnl(ts[1..])
  }

  /** The trade closes some of the lot, at its price and for its prediction. */
  predicate Closes(t: Trade, lot: Lot) {
    t.entryPrice == lot.price && t.predictionId == lot.predictionId && 0.0 < t.matched <= lot.quantity
  }

  predicate ClosesWhole(t: Trade, lot: Lot) {
    t.matched == lot.quantity && t.entryCommission == lot.commission
  }

  /** The lots that survive a sale are the untouched suffix, with at most one shrunken head in
      front of it; trade i closes lot i, and every lot but the last one touched closes in full. */
  ghost predicate ClosesPrefix(lots: seq<Lot>, r: Matching) {
    var n := |r.trades|;
    && n <= |lots|
    && (forall i :: 0 <= i < n ==> Closes(r.trades[i], lots[i]))
    && (forall i :: 0 <= i < n - 1 ==> ClosesWhole(r.trades[i], lots[i]))
    && (r.lots == lots[n..] || (n > 0 && r.lots == [Shrunk(lots[n - 1], r.trades[n - 1])] + lots[n..]))
  }

  lemma WholeShare(amount: real, whole: real)
    requires whole != 0.0
    ensures ProRata(amount, whole, whole) == amount
  {
  }

  lemma {:induction false} SaleClosesPrefix(f: Fill, lots: seq<Lot>, remaining: real)
    requires LotsOk(lots) && Usable(f)
    ensures ClosesPrefix(lots, Match(f, lots, remaining))
    decreases |lots|
  {
    hide ProRata;
    if remaining > DUST && lots != [] {
      var t := Close(f, lots[0], Min(remaining, lots[0].quantity));
      if Shrunk(lots[0], t).quantity <= DUST {
        var rest := Match(f, lots[1..], remaining - t.matched);
        SaleClosesPrefix(f, lots[1..], remaining - t.matched);
        WholeShare(lots[0].commission, lots[0].quantity);
        assert |rest.trades| > 0 ==> t.matched == lots[0].quantity;
        PrefixGrows(lots, t, rest, Match(f, lots, remaining));
      }
    }
  }

  lemma PrefixGrows(lots: seq<Lot>, t: Trade, rest: Matching, r: Matching)
    requires lots != [] && ClosesPrefix(lots[1..], rest)
    requires r == rest.(trades := [t] + rest.trades)
    requires Closes(t, lots[0]) && (|rest.trades| > 0 ==> ClosesWhole(t, lots[0]))
    ensures ClosesPrefix(lots, r)
  {
    hide Closes, ClosesWhole, Shrunk;
    var n, tail := |rest.trades|, lots[1..];
    assert tail[n..] == lots[n + 1..];
    forall i | 0 <= i < n + 1
      ensures Closes(r.trades[i], lots[i]) && (i < n ==> ClosesWhole(r.trades[i], lots[i]))
    {
      if i == 0 {
        assert r.trades[0] == t;
      } else {
        assert r.trades[i] == rest.trades[i - 1] && lots[i] == tail[i - 1];
      }
    }
    if n > 0 {
      assert r.trades[n] == rest.trades[n - 1] && lots[n] == tail[n - 1];
    }
  }

  /** Nothing sold is lost: matched plus left over is the sale.  Nothing held is lost either,
      up to one residue of at most DUST that is dropped with its lot. */
  lemma {:induction false} SaleConservesQuantity(f: Fill, lots: seq<Lot>, remaining: real)
    requires LotsOk(lots) && Usable(f)
    ensures var r := Match(f, lots, remaining);
            && Matched(r.trades) + r.left == remaining
            && 0.0 <= Quantity(lots) - Quantity(r.lots) - Matched(r.trades) <= DUST
            && (r.left > DUST ==> r.lots == [] && Quantity(lots) == Matched(r.trades))
            && (remaining >= 0.0 ==> r.left >= 0.0)
    decreases |lots|
  {
    hide ProRata;
    if remaining > DUST && lots != [] {
      var t := Close(f, lots[0], Min(remaining, lots[0].quantity));
      var r := Match(f, lots, remaining);
      if Shrunk(lots[0], t).quantity <= DUST {
        SaleConservesQuantity(f, lots[1..], remaining - t.matched);
        var rest := Match(f, lots[1..], remaining - t.matched);
        assert t.matched < lots[0].quantity ==> rest == Matching(lots[1..], [], 0.0);
        assert r == rest.(trades := [t] + rest.trades);
        hide Match, Close, Shrunk, LotsOk;
        assert r.trades[1..] == rest.trades;
      } else {
        assert r.trades[1..] == [] && r.lots[1..] == lots[1..];
      }
    } else {
      assert Match(f, lots, remaining).trades == [];
    }
  }

  lemma TradePnl(f: Fill, lot: Lot, matched: real)
    requires LotOk(lot) && Usable(f)
    ensures var t := Close(f, lot, matched);
            t.pnl == f.price * matched - t.entryPrice * matched - ProRata(f.commission, matched, f.quantity) - t.entryCommission
  {
  }

  lemma ProRataAdds(amount: real, x: real, y: real, whole: real)
    requires whole != 0.0
    ensures ProRata(amount, x, whole) + ProRata(amount, y, whole) == ProRata(amount, x + y, whole)
  {
    assert (x + y) / whole == x / whole + y / whole;
  }

  /** Proceeds of what was matched, less what that cost, less the matched share of the sale's
      commission, less the lots' commissions. */
  function Profit(f: Fill, ts: seq<Trade>): real
    requires Usable(f)
  {
    f.price * Matched(ts) - Cost(ts) - ProRata(f.commission, Matched(ts), f.quantity) - EntryCommissions(ts)
  }

  lemma ProfitAdds(f: Fill, t: Trade, rest: seq<Trade>)
    requires Usable(f) && Pnl(rest) == Profit(f, rest)
    requires t.pnl == f.price * t.matched - t.entryPrice * t.matched
                      - ProRata(f.commission, t.matched, f.quantity) - t.entryCommission
    ensures Pnl([t] + rest) == Profit(f, [t] + rest)
  {
    ProRataAdds(f.commission, t.matched, Matched(rest), f.quantity);
    hide ProRata;
    assert ([t] + rest)[1..] == rest;
    assert f.price * (t.matched + Matched(rest)) == f.price * t.matched + f.price * Matched(rest);
  }

  lemma NoProfit(f: Fill)
    requires Usable(f)
    ensures Profit(f, []) == 0.0
  {
  }

  /** The profits booked trade by trade add up to the profit of the whole sale. */
  lemma {:induction false} SaleProfit(f: Fill, lots: seq<Lot>, remaining: real)
    requires LotsOk(lots) && Usable(f)
    ensures var ts := Match(f, lots, remaining).trades; Pnl(ts) == Profit(f, ts)
    decreases |lots|
  {
    hide Profit, ProRata, Close;
    NoProfit(f);
    if remaining > DUST && lots != [] {
      var t := Close(f, lots[0], Min(remaining, lots[0].quantity));
      TradePnl(f, lots[0], t.matched);
      ClosedAs(f, lots[0], Min(remaining, lots[0].quantity));
      var rest := if Shrunk(lots[0], t).quantity <= DUST then Match(f, lots[1..], remaining - t.matched).trades else [];
      if Shrunk(lots[0], t).quantity <= DUST {
        SaleProfit(f, lots[1..], remaining - t.matched);
      }
      ProfitAdds(f, t, rest);
      assert Match(f, lots, remaining).trades == [t] + rest;
    } else {
      assert Match(f, lots, remaining).trades == [];
    }
  }

  lemma ClosedAs(f: Fill, lot: Lot, matched: real)
    requires LotOk(lot) && Usable(f)
    ensures Close(f, lot, matched).matched == matched && Close(f, lot, matched).entryPrice == lot.price
  {
  }

  // ---------------------------------------------------------------- what the learning loop is told

  /** The return takes the entry price to the sale's price and is the gain on what was closed
      before commissions; each commission is shared in proportion to the quantity closed. */
  predicate Fair(t: Trade, lot: Lot, f: Fill) {
    && t.entryPrice * (1.0 + t.realisedReturn) == f.price
    && t.realisedReturn * t.entryPrice * t.matched == t.pnl + t.exitCommission + t.entryCommission
    && t.exitCommission * f.quantity == f.commission * t.matched
    && t.entryCommission * lot.quantity == lot.commission * t.matched
    && (t.exploration <==> lot.exploration || f.exploration)
  }

  lemma ShareOfWhole(amount: real, part: real, whole: real)
    requires whole != 0.0
    ensures ProRata(amount, part, whole) * whole == amount * part
  {
    var share := part / whole;
    assert share * whole == part;
    assert amount * share * whole == amount * (share * whole);
  }

  lemma ReturnIsGain(price: real, entry: real, matched: real)
    requires entry > 0.0
    ensures var r := (price - entry) / entry;
            entry * (1.0 + r) == price && r * entry * matched == (price - entry) * matched
  {
    var r := (price - entry) / entry;
    assert r * entry == price - entry;
    assert entry * (1.0 + r) == entry + r * entry;
  }

  lemma CloseIsFair(f: Fill, lot: Lot, matched: real)
    requires LotOk(lot) && Usable(f)
    ensures Fair(Close(f, lot, matched), lot, f)
  {
    ShareOfWhole(f.commission, matched, f.quantity);
    ShareOfWhole(lot.commission, matched, lot.quantity);
    ReturnIsGain(f.price, lot.price, matched);
    hide ProRata;
  }

  /** Trade i of a sale is fair to lot i. */
  lemma {:induction false} EveryTradeIsFair(f: Fill, lots: seq<Lot>, remaining: real)
    requires LotsOk(lots) && Usable(f)
    ensures var ts := Match(f, lots, remaining).trades; forall i :: 0 <= i < |ts| ==> Fair(ts[i], lots[i], f)
    decreases |lots|
  {
    if remaining > DUST && lots != [] {
      var t := Close(f, lots[0], Min(remaining, lots[0].quantity));
      CloseIsFair(f, lots[0], Min(remaining, lots[0].quantity));
      hide Fair, Close;
      if Shrunk(lots[0], t).quantity <= DUST {
        EveryTradeIsFair(f, lots[1..], remaining - t.matched);
      }
    }
  }

  /** How many of the lots carry a prediction. */
  function Attributed(lots: seq<Lot>): nat {
    if lots == [] then 0
    else Attributed(lots[..|lots| - 1]) + if lots[|lots| - 1].predictionId != "" then 1 else 0
  }

  lemma {:induction false} OutcomeOfTrade(ts: seq<Trade>, lots: seq<Lot>, i: nat)
    requires |ts| <= |lots| && forall j :: 0 <= j < |ts| ==> ts[j].predictionId == lots[j].predictionId
    ensures |Outcomes(ts)| == Attributed(lots[..|ts|])
    ensures i < |ts| && lots[i].predictionId != "" ==>
              && Attributed(lots[..i]) < |Outcomes(ts)|
              && Outcomes(ts)[Attributed(lots[..i])] == Outcome(lots[i].predictionId, ts[i].realisedReturn, ts[i].pnl)
  {
    var n := |ts|;
    if n == 0 {
    } else {
      OutcomeOfTrade(ts[..n - 1], lots, i);
      assert lots[..n][..n - 1] == lots[..n - 1];
    }
  }

  /** The outcome names the lot's prediction, the return from the lot's price to the sale's, and
      the profit on what was closed after both commissions. */
  predicate Tells(o: Outcome, t: Trade, lot: Lot, f: Fill) {
    && o.predictionId == lot.predictionId
    && lot.price * (1.0 + o.realisedReturn) == f.price
    && o.pnl == o.realisedReturn * lot.price * t.matched - t.exitCommission - t.entryCommission
  }

  lemma FairTradeTells(t: Trade, lot: Lot, f: Fill)
    requires Fair(t, lot, f) && Closes(t, lot)
    ensures Tells(Outcome(lot.predictionId, t.realisedReturn, t.pnl), t, lot, f)
  {
  }

  /** What a sale tells the learning loop: one outcome for each closed lot that carries a
      prediction, in the order of the lots; nothing about the others. */
  lemma OutcomesTellTheTruth(f: Fill, lots: seq<Lot>, remaining: real, i: nat)
    requires LotsOk(lots) && Usable(f)
    ensures var ts := Match(f, lots, remaining).trades;
            && |ts| <= |lots| && |Outcomes(ts)| == Attributed(lots[..|ts|])
            && (i < |ts| && lots[i].predictionId != "" ==>
                  && Attributed(lots[..i]) < |Outcomes(ts)|
                  && Tells(Outcomes(ts)[Attributed(lots[..i])], ts[i], lots[i], f))
  {
    var ts := Match(f, lots, remaining).trades;
    EveryTradeIsFair(f, lots, remaining);
    SaleClosesPrefix(f, lots, remaining);
    assert |ts| <= |lots| && forall j :: 0 <= j < |ts| ==> Closes(ts[j], lots[j]);
    hide Match, Outcomes, Attributed, ClosesPrefix, LotsOk, LotOk, Fair, Tells;
    OutcomeOfTrade(ts, lots, i);
    if i < |ts| {
      FairTradeTells(ts[i], lots[i], f);
    }
  }

  // ---------------------------------------------------------------- the handler

  function Fresh(lots: seq<Lot>, now: int): (r: seq<Lot>)
    ensures LotsOk(lots) ==> LotsOk(r)
    ensures |r| <= |lots| && forall i :: 0 <= i < |r| ==> r[i] in lots && now - r[i].ts <= LOT_MAX_AGE
  {
    if lots == [] then []
    else (if now - lots[0].ts <= LOT_MAX_AGE then [lots[0]] else []) + Fresh(lots[1..], now)
  }

  /** Exactly the lots no older than a day stay. */
  lemma {:induction false} FreshKeepsTheYoung(lots: seq<Lot>, now: int)
    ensures forall lot :: lot in Fresh(lots, now) <==> lot in lots && now - lot.ts <= LOT_MAX_AGE
  {
    if lots == [] {
    } else {
      FreshKeepsTheYoung(lots[1..], now);
      assert lots == [lots[0]] + lots[1..];
    }
  }

  function Newest(lots: seq<Lot>): (r: seq<Lot>)
    ensures |r| <= MAX_OPEN_LOTS_PER_SYMBOL
  {
    if |lots| <= MAX_OPEN_LOTS_PER_SYMBOL then lots else lots[|lots| - MAX_OPEN_LOTS_PER_SYMBOL..]
  }

  function Opened(f: Fill, predictionId: string, now: int): Lot {
    Lot(f.quantity, f.price, f.commission, predictionId, f.exploration, now)
  }

  /** The lots of one symbol after a fill, and the trades it closed. */
  function Step(lots: seq<Lot>, f: Fill, predictionId: string, now: int): (r: (seq<Lot>, seq<Trade>))
    requires LotsOk(lots)
    ensures LotsOk(r.0)
    ensures |lots| <= MAX_OPEN_LOTS_PER_SYMBOL ==> |r.0| <= MAX_OPEN_LOTS_PER_SYMBOL
  {
    if !Usable(f) then (lots, [])
    else
      var alive := Fresh(lots, now);
      match f.side
      case Buy => (Newest(alive + [Opened(f, predictionId, now)]), [])
      case Sell =>
        SaleClosesPrefix(f, alive, f.quantity);
        var r := Match(f, alive, f.quantity);
        (r.lots, r.trades)
      case OtherSide => (alive, [])
  }

  datatype Outcome = Outcome(predictionId: string, realisedReturn: real, pnl: real)

  /** Only trades whose lot was attributed to a prediction feed the learning loop. */
  function Outcomes(ts: seq<Trade>): seq<Outcome> {
    if ts == [] then []
    else
      Outcomes(ts[..|ts| - 1]) +
      var t := ts[|ts| - 1];
      if t.predictionId != "" then [Outcome(t.predictionId, t.realisedReturn, t.pnl)] else []
  }

  /** What is left to match after one pass of the closing loop. */
  function Rest(lots: seq<Lot>, t: Trade): seq<Lot>
    requires lots != []
  {
    var lot := Shrunk(lots[0], t);
    if lot.quantity <= DUST then lots[1..] else [lot] + lots[1..]
  }

  lemma MatchContinues(f: Fill, lots: seq<Lot>, remaining: real)
    requires LotsOk(lots) && Usable(f)
    requires remaining > DUST && lots != []
    ensures var t := Close(f, lots[0], Min(remaining, lots[0].quantity));
            var rest := Rest(lots, t);
            && LotsOk(rest)
            && (|rest| < |lots| || (|rest| == |lots| && remaining - t.matched <= DUST))
            && Match(f, lots, remaining)
               == Match(f, rest, remaining - t.matched).(trades := [t] + Match(f, rest, remaining - t.matched).trades)
  {
    hide ProRata;
  }

  lemma MatchStops(f: Fill, lots: seq<Lot>, remaining: real)
    requires LotsOk(lots) && Usable(f)
    requires remaining <= DUST || lots == []
    ensures Match(f, lots, remaining) == Matching(lots, [], remaining)
  {
  }

  lemma LotAt(lots: seq<Lot>, i: nat)
    requires LotsOk(lots) && i < |lots|
    ensures LotOk(lots[i])
  {
  }

  ghost predicate BookOk(book: map<string, seq<Lot>>) {
    forall s :: s in book ==> LotsOk(book[s]) && |book[s]| <= MAX_OPEN_LOTS_PER_SYMBOL
  }

  lemma BookUpdated(book: map<string, seq<Lot>>, symbol: string, lots: seq<Lot>)
    requires BookOk(book) && LotsOk(lots) && |lots| <= MAX_OPEN_LOTS_PER_SYMBOL
    ensures BookOk(book[symbol := lots])
  {
  }

  class LotBook {
    var openLots: map<string, seq<Lot>>
    var latestPrediction: map<string, string>
    var outcomes: seq<Outcome>

    ghost predicate Valid()
      reads this
    {
      BookOk(openLots)
    }

    function Lots(symbol: string): seq<Lot>
      reads this`openLots
    {
      if symbol in openLots then openLots[symbol] else []
    }

    function PredictionFor(symbol: string): string
      reads this`latestPrediction
    {
      if symbol in latestPrediction then latestPrediction[symbol] else ""
    }

    constructor ()
      ensures Valid() && openLots == map[] && latestPrediction == map[] && outcomes == []
    {
      openLots, latestPrediction, outcomes := map[], map[], [];
    }

    method CloseLots(f: Fill, alive: seq<Lot>) returns (lots: seq<Lot>)
      requires LotsOk(alive) && Usable(f)
      modifies this`outcomes
      ensures lots == Match(f, alive, f.quantity).lots
      ensures outcomes == old(outcomes) + Outcomes(Match(f, alive, f.quantity).trades)
    {
      hide Close, Match, LotsOk, LotOk, Rest;
      lots := alive;
      ghost var trades: seq<Trade> := [];
      var remaining := f.quantity;
      while remaining > DUST && lots != []
        invariant LotsOk(lots)
        invariant Match(f, alive, f.quantity)
                  == Match(f, lots, remaining).(trades := trades + Match(f, lots, remaining).trades)
        invariant outcomes == old(outcomes) + Outcomes(trades)
        decreases |lots|, if remaining > DUST then 1 else 0
      {
        MatchContinues(f, lots, remaining);
        LotAt(lots, 0);
        var t := Close(f, lots[0], Min(remaining, lots[0].quantity));
        if t.predictionId != "" {
          outcomes := outcomes + [Outcome(t.predictionId, t.realisedReturn, t.pnl)];
        }
        lots := Rest(lots, t);
        remaining := remaining - t.matched;
        trades := trades + [t];
      }
      MatchStops(f, lots, remaining);
      assert trades + [] == trades;
    }

    method HandleOrderFilled(symbol: string, f: Fill, now: int)
      requires Valid()
      modifies this`openLots, this`outcomes
      ensures Valid()
      ensures symbol == "" || !Usable(f) ==> openLots == old(openLots) && outcomes == old(outcomes)
      ensures symbol != "" && Usable(f) ==>
                var r := Step(old(Lots(symbol)), f, PredictionFor(symbol), now);
                && openLots == old(openLots)[symbol := r.0]
                && outcomes == old(outcomes) + Outcomes(r.1)
    {
      if symbol == "" || f.price <= 0.0 || f.quantity <= 0.0 {
        return;
      }
      hide Match, Fresh, Newest, BookOk;
      BookUpdated(openLots, symbol, Step(Lots(symbol), f, PredictionFor(symbol), now).0);
      hide LotsOk;
      var lots := Fresh(Lots(symbol), now);
      SaleClosesPrefix(f, lots, f.quantity);
      match f.side {
        case Buy => lots := Newest(lots + [Opened(f, PredictionFor(symbol), now)]);
        case OtherSide =>
        case Sell => lots := CloseLots(f, lots);
      }
      openLots := openLots[symbol := lots];
    }
  }
}
