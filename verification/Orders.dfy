/** Orders and the in-memory executor. An `Order` is an object: the bot, the
    executor's list and the stop manager all hold the same one. */
module Orders {
  import opened Common

  datatype Status = OPEN | CLOSED | REJECTED

  datatype CloseReason = Stop | Target

  /** The `extra` dict that travels on the order object. */
  datatype Extra = Extra(initialStop: Option<real>, peak: Option<real>, booked: Option<real>, weight: Option<real>)
  const NO_EXTRA := Extra(None, None, None, None)

  /** The value of an order at one moment. */
  datatype OrderV = OrderV(
    id: int, symbol: string, side: Side, strategy: string,
    lot: real, entry: real, stop: real, target: real, openedAt: int,
    status: Status, exit: Option<real>, pnl: real, ticket: Option<int>, extra: Extra)

  class Order {
    const symbol: string
    const side: Side
    const strategy: string
    const openedAt: int
    var id: int
    var lot: real
    var entry: real
    var stop: real
    var target: real
    var status: Status
    var exit: Option<real>
    var pnl: real
    var ticket: Option<int>
    var extra: Extra

    constructor (v: OrderV)
      ensures Val() == v
    {
      symbol, side, strategy, openedAt, id := v.symbol, v.side, v.strategy, v.openedAt, v.id;
      lot, entry, stop, target := v.lot, v.entry, v.stop, v.target;
      status, exit, pnl, ticket, extra := v.status, v.exit, v.pnl, v.ticket, v.extra;
    }

    function Val(): OrderV
      reads this
    {
      OrderV(id, symbol, side, strategy, lot, entry, stop, target, openedAt, status, exit, pnl, ticket, extra)
    }
  }

  /** The mock's rough $10-per-pip-per-lot profit. */
  function MockPnl(o: OrderV, exit: real): real {
    var diff := if o.side == Buy then exit - o.entry else o.entry - exit;
    (diff * 10000.0) * (10.0 * o.lot)
  }

  /** What the mock's `close` makes of an order. */
  function MockClosed(o: OrderV, reason: CloseReason): OrderV {
    var exit := if reason == Target then o.target else o.stop;
    o.(status := CLOSED, exit := Some(exit), pnl := MockPnl(o, exit))
  }

  class MockExecutor {
    var balance: real
    var orders: seq<Order>
    var nextId: int

    constructor (startingBalance: real)
      ensures balance == startingBalance && orders == [] && nextId == 1
    {
      balance, orders, nextId := startingBalance, [], 1;
    }

    ghost predicate Distinct()
      reads this
    {
      forall i, j :: 0 <= i < j < |orders| ==> orders[i] != orders[j]
    }

    /** The open orders in list order; `at` says where each one sits in the list. */
    method OpenOrders() returns (r: seq<Order>, ghost at: seq<nat>)
      ensures |at| == |r| && forall k :: 0 <= k < |r| ==>
              at[k] < |orders| && orders[at[k]] == r[k] && r[k].status == OPEN
      ensures forall k :: 0 <= k < |orders| && orders[k].status == OPEN ==> k in at
      ensures forall j, k :: 0 <= j < k < |at| ==> at[j] < at[k]
      ensures forall o :: o in r <==> o in orders && o.status == OPEN
    {
      r, at := [], [];
      for i := 0 to |orders|
        invariant |at| == |r| && forall k :: 0 <= k < |r| ==> at[k] < i && orders[at[k]] == r[k] && r[k].status == OPEN
        invariant forall k :: 0 <= k < i && orders[k].status == OPEN ==> k in at
        invariant forall j, k :: 0 <= j < k < |at| ==> at[j] < at[k]
      {
        if orders[i].status == OPEN {
          r, at := r + [orders[i]], at + [i];
        }
      }
    }

    method Place(order: Order)
      requires order !in orders && Distinct()
      modifies this`orders, this`nextId, order
      ensures orders == old(orders) + [order] && Distinct() && nextId == old(nextId) + 1
      ensures order.Val() == old(order.Val()).(id := old(nextId), status := OPEN)
    {
      order.id := nextId;
      nextId := nextId + 1;
      order.status := OPEN;
      orders := orders + [order];
    }

    method Close(order: Order, reason: CloseReason)
      modifies this`balance, order
      ensures order.Val() == MockClosed(old(order.Val()), reason)
      ensures balance == old(balance) + order.pnl
    {
      order.status := CLOSED;
      order.exit := Some(if reason == Target then order.target else order.stop);
      order.pnl := MockPnl(order.Val(), order.exit.value);
      balance := balance + order.pnl;
    }

    method Modify(order: Order, stop: Option<real>, target: Option<real>)
      modifies order
      ensures order.Val() == old(order.Val()).(
                stop := if stop.Some? then stop.value else old(order.stop),
                target := if target.Some? then target.value else old(order.target))
    {
      if stop.Some? { order.stop := stop.value; }
      if target.Some? { order.target := target.value; }
    }
  }
}
