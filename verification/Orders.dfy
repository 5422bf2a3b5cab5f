/** The order state machine and the order book of `services/execution/order_manager.py`. */
module Orders {
  import opened Wrappers

  datatype Status = Pending | Submitted | PartialFill | Filled | Cancelled | Rejected | Expired

  const TERMINAL := {Filled, Cancelled, Rejected, Expired}

  const RETENTION := 48 * 60 * 60

  function Transitions(s: Status): set<Status> {
    match s
    case Pending => {Submitted, Rejected, Cancelled}
    case Submitted => {PartialFill, Filled, Cancelled, Rejected, Expired}
    case PartialFill => {PartialFill, Filled, Cancelled}
    case Filled => {}
    case Cancelled => {}
    case Rejected => {}
    case Expired => {}
  }

  datatype Order = Order(
    symbol: string,
    side: string,
    orderType: string,
    quantity: real,
    limitPrice: Option<real>,
    clientId: Option<string>,
    status: Status,
    filled: real,
    avgPrice: Option<real>,
    updatedAt: int)

  datatype Fill = Fill(price: real, quantity: real)

  /** The two dictionaries of the manager; order ids are drawn from a counter. */
  datatype Book = Book(orders: map<nat, Order>, fills: map<nat, seq<Fill>>, nextId: nat)

  const EMPTY := Book(map[], map[], 0)

  /** An operation that may raise `OrderError`, possibly after changing the book. */
  datatype Outcome = Done(book: Book) | Raised(book: Book)

  function TotalQuantity(fs: seq<Fill>): real {
    if fs == [] then 0.0 else TotalQuantity(fs[..|fs| - 1]) + fs[|fs| - 1].quantity
  }

  function TotalCost(fs: seq<Fill>): real {
    if fs == [] then 0.0 else TotalCost(fs[..|fs| - 1]) + fs[|fs| - 1].price * fs[|fs| - 1].quantity
  }

  function StatusUpdated(b: Book, id: nat, status: Status, now: int): Outcome {
    if id !in b.orders || status !in Transitions(b.orders[id].status) then Raised(b)
    else Done(b.(orders := b.orders[id := b.orders[id].(status := status, updatedAt := now)]))
  }

  predicate Prunable(o: Order, now: int) {
    o.status in TERMINAL && o.updatedAt < now - RETENTION
  }

  function Pruned(b: Book, now: int): Book {
    Book(map id | id in b.orders && !Prunable(b.orders[id], now) :: b.orders[id],
         map id | id in b.fills && !(id in b.orders && Prunable(b.orders[id], now)) :: b.fills[id],
         b.nextId)
  }

  /** The new order's id is the old `nextId`. */
  function OrderCreated(b: Book, o: Order, now: int): Book {
    var p := Pruned(b, now);
    Book(p.orders[b.nextId := o], p.fills[b.nextId := []], b.nextId + 1)
  }

  function NewOrder(symbol: string, side: string, orderType: string, quantity: real, limitPrice: Option<real>,
                    clientId: Option<string>, now: int): Order {
    Order(symbol, side, orderType, quantity, limitPrice, clientId, Pending, 0.0, None, now)
  }

  function WithFills(o: Order, fs: seq<Fill>): Order {
    var total := TotalQuantity(fs);
    o.(filled := total, avgPrice := if total != 0.0 then Some(TotalCost(fs) / total) else None)
  }

  /** The fill and the recomputed totals are stored before the status is moved, so an illegal
      move raises with the fill already in the book. */
  function FillRecorded(b: Book, id: nat, f: Fill, now: int): Outcome {
    if id !in b.orders || id !in b.fills then Raised(b)
    else
      var fs := b.fills[id] + [f];
      var o := WithFills(b.orders[id], fs);
      var stored := b.(orders := b.orders[id := o], fills := b.fills[id := fs]);
      if o.filled >= o.quantity then StatusUpdated(stored, id, Filled, now)
      else if o.status == Submitted then StatusUpdated(stored, id, PartialFill, now)
      else Done(stored)
  }

  // ---------------------------------------------------------------- what the book keeps

  ghost predicate BookOk(b: Book) {
    && b.orders.Keys == b.fills.Keys
    && (forall id :: id in b.orders ==> id < b.nextId)
    && (forall id :: id in b.orders ==> b.orders[id] == WithFills(b.orders[id], b.fills[id]))
  }

  /** The average price of fills of positive quantity lies between the cheapest and the dearest
      of them. */
  lemma AverageIsBetweenPrices(b: Book, id: nat, low: real, high: real)
    requires BookOk(b) && id in b.orders && b.orders[id].avgPrice.Some?
    requires forall f :: f in b.fills[id] ==> f.quantity > 0.0 && low <= f.price <= high
    ensures low <= b.orders[id].avgPrice.value <= high
    ensures b.orders[id].avgPrice.value * b.orders[id].filled == TotalCost(b.fills[id])
  {
    var quantity, cost := TotalQuantity(b.fills[id]), TotalCost(b.fills[id]);
    assert quantity != 0.0 && b.orders[id].avgPrice.value == cost / quantity && b.orders[id].filled == quantity;
    hide *;
    CostIsBetween(b.fills[id], low, high);
    QuotientIsBetween(cost, quantity, low, high);
  }

  function Times(x: real, y: real): real {
    x * y
  }

  lemma {:induction false} CostIsBetween(fs: seq<Fill>, low: real, high: real)
    requires forall f :: f in fs ==> f.quantity > 0.0 && low <= f.price <= high
    ensures Times(low, TotalQuantity(fs)) <= TotalCost(fs) <= Times(high, TotalQuantity(fs))
    ensures TotalQuantity(fs) >= 0.0
  {
    if fs == [] {
    } else {
      var before, last := fs[..|fs| - 1], fs[|fs| - 1];
      assert forall f :: f in before ==> f in fs;
      assert last in fs;
      CostIsBetween(before, low, high);
      TotalsOfMore(fs);
      OneMoreBetween(TotalQuantity(before), TotalCost(before), last, low, high);
      hide TotalQuantity, TotalCost, Times;
    }
  }

  lemma TotalsOfMore(fs: seq<Fill>)
    requires fs != []
    ensures var before, last := fs[..|fs| - 1], fs[|fs| - 1];
            && TotalQuantity(fs) == TotalQuantity(before) + last.quantity
            && TotalCost(fs) == TotalCost(before) + Times(last.price, last.quantity)
  {
  }

  lemma OneMoreBetween(quantity: real, cost: real, f: Fill, low: real, high: real)
    requires Times(low, quantity) <= cost <= Times(high, quantity) && f.quantity > 0.0 && low <= f.price <= high
    ensures Times(low, quantity + f.quantity) <= cost + Times(f.price, f.quantity) <= Times(high, quantity + f.quantity)
  {
    TimesBetween(f.price, f.quantity, low, high);
    TimesAdds(low, quantity, f.quantity);
    TimesAdds(high, quantity, f.quantity);
    hide Times;
  }

  lemma TimesAdds(x: real, y: real, z: real)
    ensures Times(x, y + z) == Times(x, y) + Times(x, z)
  {
  }

  lemma TimesBetween(price: real, quantity: real, low: real, high: real)
    requires quantity > 0.0 && low <= price <= high
    ensures Times(low, quantity) <= Times(price, quantity) <= Times(high, quantity)
  {
  }

  lemma SmallerTimes(x: real, y: real, quantity: real)
    requires x < y && quantity > 0.0
    ensures x * quantity < y * quantity
  {
  }

  lemma QuotientIsBetween(cost: real, quantity: real, low: real, high: real)
    requires quantity > 0.0 && Times(low, quantity) <= cost <= Times(high, quantity)
    ensures low <= cost / quantity <= high && cost / quantity * quantity == cost
  {
    var average := cost / quantity;
    assert average * quantity == cost;
    if average < low { SmallerTimes(average, low, quantity); }
    if average > high { SmallerTimes(high, average, quantity); }
  }

  datatype BookOp =
    | DoCreate(order: Order)
    | DoStatus(id: nat, status: Status)
    | DoFill(id: nat, fill: Fill)

  predicate Legal(op: BookOp) {
    op.DoCreate? ==> op.order.status == Pending && op.order.filled == 0.0 && op.order.avgPrice.None?
  }

  function ApplyOp(b: Book, op: BookOp, now: int): Book {
    match op
    case DoCreate(o) => OrderCreated(b, o, now)
    case DoStatus(id, status) => StatusUpdated(b, id, status, now).book
    case DoFill(id, f) => FillRecorded(b, id, f, now).book
  }

  lemma FillKeepsBook(b: Book, id: nat, f: Fill, now: int)
    requires BookOk(b) && id in b.orders
    ensures BookOk(FillRecorded(b, id, f, now).book)
  {
    var fs := b.fills[id] + [f];
    var o := WithFills(b.orders[id], fs);
    var stored := b.(orders := b.orders[id := o], fills := b.fills[id := fs]);
    assert BookOk(stored);
  }

  lemma ApplyKeepsBook(b: Book, op: BookOp, now: int)
    requires BookOk(b) && Legal(op)
    ensures BookOk(ApplyOp(b, op, now)) && b.nextId <= ApplyOp(b, op, now).nextId
  {
    if op.DoFill? && op.id in b.orders {
      FillKeepsBook(b, op.id, op.fill, now);
    }
  }

  lemma CreateKeepsBook(b: Book, o: Order, now: int)
    requires BookOk(b) && Legal(DoCreate(o))
    ensures var b' := OrderCreated(b, o, now);
            && BookOk(b') && b'.nextId == b.nextId + 1
            && b.nextId !in b.orders && b.nextId in b'.orders && b'.orders[b.nextId] == o && b'.fills[b.nextId] == []
            && (forall id :: id in b'.orders && id != b.nextId ==>
                  id in b.orders && b'.orders[id] == b.orders[id] && b'.fills[id] == b.fills[id])
            && (forall id :: id in b.orders ==>
                  (id in b'.orders <==> !(b.orders[id].status in TERMINAL && b.orders[id].updatedAt < now - RETENTION)))
  {
    ApplyKeepsBook(b, DoCreate(o), now);
  }

  lemma FillFrame(b: Book, id: nat, f: Fill, now: int)
    requires id in b.orders && id in b.fills
    ensures var b' := FillRecorded(b, id, f, now).book;
            b'.orders.Keys == b.orders.Keys && b'.fills == b.fills[id := b.fills[id] + [f]] && b'.nextId == b.nextId
  {
  }

  /** A fill reported on a SUBMITTED order always goes through. */
  lemma SubmittedTakesFills(b: Book, id: nat, f: Fill, now: int)
    requires BookOk(b) && id in b.orders && b.orders[id].status == Submitted
    ensures FillRecorded(b, id, f, now).Done?
    ensures var b' := FillRecorded(b, id, f, now).book;
            && b'.nextId == b.nextId && b'.orders.Keys == b.orders.Keys
            && b'.orders[id].status in {PartialFill, Filled}
            && (forall d :: d in b.orders && d != id ==> b'.orders[d] == b.orders[d])
  {
  }

  /** The moves an order can make, one by one. */
  predicate IsMove(s: Status, s': Status) {
    (s, s') in {
      (Pending, Submitted), (Pending, Rejected), (Pending, Cancelled),
      (Submitted, PartialFill), (Submitted, Filled), (Submitted, Cancelled), (Submitted, Rejected), (Submitted, Expired),
      (PartialFill, PartialFill), (PartialFill, Filled), (PartialFill, Cancelled)}
  }

  /** A requested change of status goes through exactly when the order is known and the move is one
      of those; it is stamped, and nothing else changes. */
  lemma StatusMovesExactlyWhen(b: Book, id: nat, status: Status, now: int)
    ensures var r := StatusUpdated(b, id, status, now);
            && (r.Done? <==> id in b.orders && IsMove(b.orders[id].status, status))
            && (r.Raised? ==> r.book == b)
            && (r.Done? ==>
                  && r.book.orders[id] == b.orders[id].(status := status, updatedAt := now)
                  && r.book == b.(orders := b.orders[id := r.book.orders[id]]))
  {
  }

  /** So an order that reaches a terminal status is kept, with its fills, for the whole retention
      period from then on, whatever is created meanwhile, and dropped by the first creation after
      it. */
  lemma TerminalIsKeptFor(b: Book, id: nat, status: Status, now: int, o: Order, later: int)
    requires BookOk(b) && StatusUpdated(b, id, status, now).Done? && status in TERMINAL
    ensures var b' := OrderCreated(StatusUpdated(b, id, status, now).book, o, later);
            && (id in b'.orders <==> later <= now + RETENTION)
            && (later <= now + RETENTION ==> b'.orders[id] == b.orders[id].(status := status, updatedAt := now) && b'.fills[id] == b.fills[id])
  {
    StatusMovesExactlyWhen(b, id, status, now);
  }

  /** The order machine moves forward: an operation leaves a retained order's status alone or
      moves it along one transition, and a terminal status never changes again. */
  lemma StatusMovesAlongTransitions(b: Book, op: BookOp, now: int, id: nat)
    requires BookOk(b) && id in b.orders && id in ApplyOp(b, op, now).orders
    ensures var s, s' := b.orders[id].status, ApplyOp(b, op, now).orders[id].status;
            && (s' == s || IsMove(s, s'))
            && (s in {Filled, Cancelled, Rejected, Expired} ==> s' == s)
  {
    forall s' | s' in Transitions(b.orders[id].status) ensures IsMove(b.orders[id].status, s') {
    }
    hide IsMove, TotalQuantity, TotalCost;
  }

  lemma ApplyMakesNoOldId(b: Book, op: BookOp, now: int, id: nat)
    requires BookOk(b) && id < b.nextId && id in ApplyOp(b, op, now).orders
    ensures id in b.orders
  {
  }

  function RunOps(b: Book, ops: seq<(BookOp, int)>): Book {
    if ops == [] then b else ApplyOp(RunOps(b, ops[..|ops| - 1]), ops[|ops| - 1].0, ops[|ops| - 1].1)
  }

  /** Over any run of the manager: the books stay consistent, an order that reached a terminal
      status keeps it for as long as it is retained, and an id once pruned never comes back. */
  lemma {:induction false} TerminalIsForever(b: Book, ops: seq<(BookOp, int)>, id: nat)
    requires BookOk(b) && forall i :: 0 <= i < |ops| ==> Legal(ops[i].0)
    requires id < b.nextId && (id in b.orders ==> b.orders[id].status in TERMINAL)
    ensures BookOk(RunOps(b, ops)) && id < RunOps(b, ops).nextId
    ensures id in RunOps(b, ops).orders ==> id in b.orders && RunOps(b, ops).orders[id].status == b.orders[id].status
  {
    if ops == [] {
    } else {
      var n := |ops| - 1;
      TerminalIsForever(b, ops[..n], id);
      var m := RunOps(b, ops[..n]);
      ApplyKeepsBook(m, ops[n].0, ops[n].1);
      if id in ApplyOp(m, ops[n].0, ops[n].1).orders {
        ApplyMakesNoOldId(m, ops[n].0, ops[n].1, id);
        StatusMovesAlongTransitions(m, ops[n].0, ops[n].1, id);
      }
    }
  }

  /** The status in which a completing fill is welcome. */
  predicate TakesCompletion(s: Status) {
    s == Submitted || s == PartialFill
  }

  function StatusAfterFill(o: Order, f: Fill): Status {
    if o.filled + f.quantity >= o.quantity then Filled
    else if o.status == Submitted then PartialFill
    else o.status
  }

  /** `record_fill` keeps every fill, also one it raises about: it raises exactly when the fill
      completes an order that is neither SUBMITTED nor partly filled, and then only the status
      stays behind. */
  lemma FillIsStoredAndRaisesExactlyWhen(b: Book, id: nat, f: Fill, now: int)
    requires BookOk(b) && id in b.orders
    ensures var o, r := b.orders[id], FillRecorded(b, id, f, now);
            && r.book.fills[id] == b.fills[id] + [f]
            && r.book.orders[id].filled == o.filled + f.quantity
            && (r.Raised? <==> o.filled + f.quantity >= o.quantity && !TakesCompletion(o.status))
            && (r.Raised? ==> r.book.orders[id].status == o.status)
            && (r.Done? ==> r.book.orders[id].status == StatusAfterFill(o, f))
  {
    var fs := b.fills[id] + [f];
    assert fs[..|fs| - 1] == b.fills[id];
  }

  // ---------------------------------------------------------------- the manager itself

  class OrderManager {
    var orders: map<nat, Order>
    var fills: map<nat, seq<Fill>>
    var nextId: nat

    ghost function View(): Book
      reads this
    {
      Book(orders, fills, nextId)
    }

    constructor ()
      ensures View() == EMPTY
    {
      orders, fills, nextId := map[], map[], 0;
    }

    method PruneTerminal(now: int)
      modifies this
      ensures View() == Pruned(old(View()), now)
    {
      ghost var before := View();
      var expired := set id | id in orders && Prunable(orders[id], now);
      ghost var gone: set<nat> := {};
      ghost var all := expired;
      while expired != {}
        invariant gone + expired == all && gone !! expired
        invariant orders == before.orders - gone && fills == before.fills - gone && nextId == before.nextId
        decreases expired
      {
        var id :| id in expired;
        orders := orders - {id};
        fills := fills - {id};
        gone := gone + {id};
        expired := expired - {id};
      }
      assert gone == all;
    }

    method CreateOrder(symbol: string, side: string, orderType: string, quantity: real, limitPrice: Option<real>,
                       clientId: Option<string>, now: int) returns (id: nat)
      modifies this
      ensures id == old(nextId)
      ensures View() == OrderCreated(old(View()), NewOrder(symbol, side, orderType, quantity, limitPrice, clientId, now), now)
    {
      PruneTerminal(now);
      id := nextId;
      orders := orders[id := NewOrder(symbol, side, orderType, quantity, limitPrice, clientId, now)];
      fills := fills[id := []];
      nextId := nextId + 1;
    }

    method UpdateStatus(id: nat, status: Status, now: int) returns (raised: bool)
      modifies this`orders
      ensures (if raised then Raised(View()) else Done(View())) == old(StatusUpdated(View(), id, status, now))
    {
      if id !in orders || status !in Transitions(orders[id].status) {
        return true;
      }
      orders := orders[id := orders[id].(status := status, updatedAt := now)];
      return false;
    }

    method RecordFill(id: nat, price: real, quantity: real, now: int) returns (raised: bool)
      modifies this
      ensures (if raised then Raised(View()) else Done(View()))
              == old(FillRecorded(View(), id, Fill(price, quantity), now))
    {
      if id !in orders || id !in fills {
        return true;
      }
      fills := fills[id := fills[id] + [Fill(price, quantity)]];
      var totalCost, totalQty := 0.0, 0.0;
      var i := 0;
      while i < |fills[id]|
        invariant 0 <= i <= |fills[id]|
        invariant totalCost == TotalCost(fills[id][..i]) && totalQty == TotalQuantity(fills[id][..i])
      {
        assert fills[id][..i + 1][..i] == fills[id][..i];
        totalCost := totalCost + fills[id][i].price * fills[id][i].quantity;
        totalQty := totalQty + fills[id][i].quantity;
        i := i + 1;
      }
      assert fills[id][..i] == fills[id];
      orders := orders[id := orders[id].(filled := totalQty,
                                         avgPrice := if totalQty != 0.0 then Some(totalCost / totalQty) else None)];
      raised := false;
      if totalQty >= orders[id].quantity {
        raised := UpdateStatus(id, Filled, now);
      } else if orders[id].status == Submitted {
        raised := UpdateStatus(id, PartialFill, now);
      }
    }
  }
}
