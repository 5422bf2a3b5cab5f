/** Order fills against one bar: `backtesting/simulator.py`, in exact arithmetic. */
module Simulator {
  import opened Arithmetic
  import opened Wrappers

  datatype Side = Buy | Sell

  datatype OrderType = MarketOrder | LimitOrder | StopOrder | OtherOrder

  datatype Bar = Bar(open: real, high: real, low: real, close: real, timestamp: Option<int>)

  datatype SimOrder = SimOrder(symbol: string, side: Side, orderType: OrderType, quantity: real,
                               limitPrice: Option<real>, stopPrice: Option<real>)

  datatype SimFill = SimFill(symbol: string, side: Side, price: real, quantity: real, commission: real)

  datatype Costs = Costs(commissionPerShare: real, slippageBps: real)

  /** `Decimal.quantize` to four and to two places. */
  function QuantizePrice(x: real): real {
    RoundHalfEven(x * 10000.0) as real / 10000.0
  }

  function QuantizeMoney(x: real): real {
    RoundHalfEven(x * 100.0) as real / 100.0
  }

  function SlippedPrice(reference: real, side: Side, bps: real): real {
    var slip := bps / 10000.0;
    if side == Buy then reference * (1.0 + slip) else reference * (1.0 - slip)
  }

  function FillAt(o: SimOrder, price: real, costs: Costs): SimFill {
    SimFill(o.symbol, o.side, price, o.quantity, QuantizeMoney(costs.commissionPerShare * o.quantity))
  }

  function SimulateFill(o: SimOrder, bar: Bar, costs: Costs): Option<SimFill> {
    match o.orderType
    case MarketOrder =>
      Some(FillAt(o, QuantizePrice(SlippedPrice(bar.open, o.side, costs.slippageBps)), costs))
    case LimitOrder =>
      if o.limitPrice.None? then None
      else if o.side == Buy then
        if bar.low <= o.limitPrice.value then Some(FillAt(o, o.limitPrice.value, costs)) else None
      else
        if bar.high >= o.limitPrice.value then Some(FillAt(o, o.limitPrice.value, costs)) else None
    case StopOrder =>
      if o.stopPrice.None? then None
      else
        var crossed := if o.side == Buy then bar.high >= o.stopPrice.value else bar.low <= o.stopPrice.value;
        if crossed
        then Some(FillAt(o, QuantizePrice(SlippedPrice(o.stopPrice.value, o.side, costs.slippageBps)), costs))
        else None
    case OtherOrder => None
  }

  /** Rounding moves a price by at most half of its fourth place, an amount of money by at most
      half a cent. */
  lemma QuantizeIsNear(x: real)
    ensures -0.00005 <= QuantizePrice(x) - x <= 0.00005
    ensures -0.005 <= QuantizeMoney(x) - x <= 0.005
  {
    RoundIsNearestEven(x * 10000.0);
    RoundIsNearestEven(x * 100.0);
  }

  predicate Near(x: real, y: real, within: real) {
    y - within <= x <= y + within
  }

  /** A market order always fills, at the open moved against the trader by the slippage: the rest
      of the bar plays no part. */
  lemma MarketFillsAtTheOpen(o: SimOrder, bar: Bar, costs: Costs)
    requires o.orderType == MarketOrder
    ensures var f := SimulateFill(o, bar, costs);
            && f.Some?
            && (o.side == Buy ==> Near(f.value.price, bar.open * (1.0 + costs.slippageBps / 10000.0), 0.00005))
            && (o.side == Sell ==> Near(f.value.price, bar.open * (1.0 - costs.slippageBps / 10000.0), 0.00005))
    ensures forall other: Bar :: other.open == bar.open ==> SimulateFill(o, other, costs) == SimulateFill(o, bar, costs)
  {
    QuantizeIsNear(SlippedPrice(bar.open, o.side, costs.slippageBps));
    hide QuantizePrice;
  }

  /** The price of the order is crossed by the bar's range. */
  predicate Crossed(o: SimOrder, bar: Bar) {
    match (o.orderType, o.side)
    case (LimitOrder, Buy) => o.limitPrice.Some? && bar.low <= o.limitPrice.value
    case (LimitOrder, Sell) => o.limitPrice.Some? && bar.high >= o.limitPrice.value
    case (StopOrder, Buy) => o.stopPrice.Some? && bar.high >= o.stopPrice.value
    case (StopOrder, Sell) => o.stopPrice.Some? && bar.low <= o.stopPrice.value
    case _ => false
  }

  /** Any other order fills exactly when its price is crossed: a limit order at the limit, a stop
      order at the stop moved against the trader by the slippage. */
  lemma RestingOrderFillsExactlyWhenCrossed(o: SimOrder, bar: Bar, costs: Costs)
    requires o.orderType != MarketOrder
    ensures SimulateFill(o, bar, costs).Some? <==> Crossed(o, bar)
    ensures Crossed(o, bar) && o.orderType == LimitOrder ==> Some(SimulateFill(o, bar, costs).value.price) == o.limitPrice
    ensures Crossed(o, bar) && o.orderType == StopOrder ==>
              var price, slip := SimulateFill(o, bar, costs).value.price, costs.slippageBps / 10000.0;
              && (o.side == Buy ==> Near(price, o.stopPrice.value * (1.0 + slip), 0.00005))
              && (o.side == Sell ==> Near(price, o.stopPrice.value * (1.0 - slip), 0.00005))
  {
    if Crossed(o, bar) && o.orderType == StopOrder {
      QuantizeIsNear(SlippedPrice(o.stopPrice.value, o.side, costs.slippageBps));
      hide QuantizePrice;
    }
  }

  lemma QuantizeIsMonotone(x: real, y: real)
    requires x <= y
    ensures QuantizePrice(x) <= QuantizePrice(y)
  {
    RoundIsMonotone(x * 10000.0, y * 10000.0);
  }

  /** Slippage only ever works against the trader: on the same bar, and whatever the rounding,
      a market or stop buy fills no lower than the matching sell, with the rounded reference
      price in between. */
  lemma SlippageIsAdverse(reference: real, bps: real)
    requires reference >= 0.0 && bps >= 0.0
    ensures var sell := QuantizePrice(SlippedPrice(reference, Sell, bps));
            var buy := QuantizePrice(SlippedPrice(reference, Buy, bps));
            sell <= QuantizePrice(reference) <= buy
  {
    var slip := bps / 10000.0;
    assert reference * slip >= 0.0;
    assert reference * (1.0 + slip) == reference + reference * slip;
    assert reference * (1.0 - slip) == reference - reference * slip;
    QuantizeIsMonotone(SlippedPrice(reference, Sell, bps), reference);
    QuantizeIsMonotone(reference, SlippedPrice(reference, Buy, bps));
  }

  /** A fill is for the whole order and costs the rate per share to within half a cent.  A limit order fills at its limit, which is a price of the
      bar exactly when a buy limit is not above the high, a sell limit not below the low: a
      limit the market gapped through fills at a price the bar never traded. */
  lemma FillHonoursOrder(o: SimOrder, bar: Bar, costs: Costs)
    requires SimulateFill(o, bar, costs).Some?
    ensures var f := SimulateFill(o, bar, costs).value;
            && f.symbol == o.symbol && f.side == o.side && f.quantity == o.quantity
            && Near(f.commission, costs.commissionPerShare * o.quantity, 0.005)
    ensures o.orderType == LimitOrder ==>
              var price := SimulateFill(o, bar, costs).value.price;
              && o.limitPrice == Some(price)
              && (bar.low <= price <= bar.high <==> if o.side == Buy then price <= bar.high else bar.low <= price)
  {
    QuantizeIsNear(costs.commissionPerShare * o.quantity);
    hide QuantizePrice, SlippedPrice;
  }

  /** A stop that triggers lies inside the bar exactly when a buy stop is not below the low, a
      sell stop not above the high; a gap through it is filled at the stop all the same. */
  lemma StopLiesInsideExactlyWhen(o: SimOrder, bar: Bar, costs: Costs)
    requires o.orderType == StopOrder && SimulateFill(o, bar, costs).Some?
    ensures var stop := o.stopPrice.value;
            && SimulateFill(o, bar, costs).value.price == QuantizePrice(SlippedPrice(stop, o.side, costs.slippageBps))
            && (bar.low <= stop <= bar.high <==> if o.side == Buy then bar.low <= stop else stop <= bar.high)
  {
  }

  /** The failing inputs: a buy limit above the high and a sell stop above it both fill at a price
      the bar never traded. */
  lemma GapsFillOutsideTheBar()
    ensures var bar := Bar(90.0, 92.0, 85.0, 88.0, None);
            var limit := SimulateFill(SimOrder("X", Buy, LimitOrder, 1.0, Some(100.0), None), bar, Costs(0.0, 0.0));
            var stop := SimulateFill(SimOrder("X", Sell, StopOrder, 1.0, None, Some(100.0)), bar, Costs(0.0, 0.0));
            && limit.Some? && limit.value.price == 100.0 > bar.high
            && stop.Some? && stop.value.price == 100.0 > bar.high
  {
    assert SlippedPrice(100.0, Sell, 0.0) == 100.0;
    assert RoundHalfEven(1000000.0) == 1000000;
    assert QuantizePrice(100.0) == 100.0;
  }
}
