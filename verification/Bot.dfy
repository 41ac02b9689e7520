/** `Bot`: the event loop over the in-memory executor. Each method is proved to do
    exactly what the transition system says. */
module Bot {
  import opened Common
  import opened Orders
  import opened Journal
  import opened Risk
  import opened Stops
  import opened Dedup
  import opened BotModel
  import opened TickModel
  import PropFirm
  import Throttle

  /** The values of a list of orders. */
  ghost function Vals(os: seq<Order>): (r: seq<OrderV>)
    reads os
    ensures |r| == |os| && forall i :: 0 <= i < |os| ==> r[i] == os[i].Val()
  {
    seq(|os|, i requires 0 <= i < |os| reads os => os[i].Val())
  }

  class Bot {
    const cfg: Config
    const executor: MockExecutor
    const risk: RiskManager
    const journal: TradeJournal
    const dedup: SignalDedupStore
    const stops: Option<StopManager>
    var lastBar: map<string, int>
    ghost var placed: seq<Setup>

    ghost predicate Valid()
      reads this, executor
    {
      && executor.Distinct()
      && risk.limits == cfg.limits
      && (risk.guard.Some? <==> cfg.guard.Some?)
      && (risk.guard.Some? ==> risk.guard.value.policy == cfg.guard.value)
      && (stops.Some? <==> cfg.stops.Some?)
      && (stops.Some? ==> stops.value.policy == cfg.stops.value)
    }

    /** The state the transition system speaks about. */
    ghost function Abs(): BotV
      reads this, executor, executor.orders, risk, risk.Guards(), journal, dedup
    {
      BotV(Vals(executor.orders), executor.balance, executor.nextId, risk.state,
           journal.rows, journal.mods, dedup.last, GuardRow(), placed)
    }

    ghost function GuardRow(): Option<PropFirm.State>
      reads risk.Guards()
    {
      if risk.guard.Some? then risk.guard.value.row else None
    }

    constructor (cfg: Config, balance: real)
      ensures Valid() && this.cfg == cfg && lastBar == map[]
      ensures FirstStart(Abs()) && executor.balance == balance
      ensures fresh(executor) && fresh(risk) && fresh(risk.Guards()) && fresh(journal) && fresh(dedup)
    {
      this.cfg := cfg;
      executor := new MockExecutor(balance);
      var guard: Option<PropFirm.PropFirmGuard> := None;
      if cfg.guard.Some? {
        var wired := new PropFirm.PropFirmGuard(cfg.guard.value);
        guard := Some(wired);
      }
      risk := new RiskManager(cfg.limits, guard);
      journal := new TradeJournal();
      dedup := new SignalDedupStore();
      if cfg.stops.Some? {
        var manager := new StopManager(cfg.stops.value);
        stops := Some(manager);
      } else {
        stops := None;
      }
      lastBar, placed := map[], [];
    }

    method ApplyTrailing(manager: StopManager, order: Order, bar: Bar, now: int, ghost i: nat)
      requires Valid() && stops == Some(manager)
      requires i < |executor.orders| && executor.orders[i] == order && order.status == OPEN
      modifies order, journal
      ensures Valid() && Abs() == TrailOrder(manager.policy, old(Abs()), i, bar, now)
    {
      ghost var orders := Abs().orders;
      manager.UpdatePeak(order, bar);
      var proposed := manager.Proposed(order);
      if proposed.None? {
        OneOrderChanged(executor.orders, order, i, orders);
        return;
      }
      var prev := order.stop;
      executor.Modify(order, proposed, None);
      if order.stop == prev {
        return;
      }
      OneOrderChanged(executor.orders, order, i, orders);
      journal.RecordModify(order.id, Some(order.stop), Some(order.target), now);
      assert Vals(executor.orders) == orders[i := order.Val()];
    }

    method CloseOne(order: Order, reason: CloseReason, now: int, ghost i: nat)
      requires Valid()
      requires i < |executor.orders| && executor.orders[i] == order && order.status == OPEN
      modifies order, executor`balance, journal`rows, risk
      ensures Valid() && Abs() == CloseOrder(cfg.limits, old(Abs()), i, reason, now)
    {
      Exit(order, reason, i);
      Settle(order, reason, now);
    }

    /** The executor closes the order and books its profit. */
    method Exit(order: Order, reason: CloseReason, ghost i: nat)
      requires Valid()
      requires i < |executor.orders| && executor.orders[i] == order && order.status == OPEN
      modifies order, executor`balance
      ensures Valid() && Abs() == Exited(old(Abs()), i, reason) && order.Val() == MockClosed(old(order.Val()), reason)
    {
      ghost var orders := Abs().orders;
      executor.Close(order, reason);
      OneOrderChanged(executor.orders, order, i, orders);
    }

    /** The journal row is closed and the ledger credited with the booked risk. */
    method Settle(order: Order, reason: CloseReason, now: int)
      requires Valid()
      modifies journal`rows, risk
      ensures Valid() && Abs() == Credited(cfg.limits, old(Abs()), order.Val(), reason, now)
    {
      journal.RecordClose(order.Val(), ReasonText(reason), now);
      var refund := if order.extra.booked.Some? then order.extra.booked.value
                    else risk.limits.riskPerTrade * if order.extra.weight.Some? then order.extra.weight.value else 1.0;
      risk.RegisterClosed(refund, order.pnl);
      assert Vals(executor.orders) == old(Vals(executor.orders));
    }

    method OpenPositionsSnapshot() returns (r: seq<Throttle.OpenPosition>)
      ensures r == Snapshot(Vals(executor.orders), risk.limits.riskPerTrade)
    {
      ghost var vals := Vals(executor.orders);
      r := [];
      for i := 0 to |executor.orders|
        invariant r == Snapshot(vals[..i], risk.limits.riskPerTrade)
      {
        var o := executor.orders[i];
        assert vals[..i + 1][..i] == vals[..i];
        if o.status == OPEN {
          r := r + [Throttle.OpenPosition(o.symbol, o.side, risk.limits.riskPerTrade)];
        }
      }
      assert vals[..|executor.orders|] == vals;
    }

    method HandleOne(s: Signal, ctx: Context) returns (outcome: Outcome)
      requires Valid()
      modifies this`placed, executor`orders, executor`nextId, risk, risk.Guards(), journal`rows, dedup
      ensures Valid() && (Abs(), outcome) == HandleSignal(cfg, old(Abs()), s, ctx)
    {
      if s.stop.None? || s.target.None? {
        return NotPlaced;
      }
      if dedup.AlreadyActed(s.strategy, s.symbol, s.ts) {
        return NotPlaced;
      }
      dedup.Remember(s.strategy, s.symbol, s.ts, s.side);
      if ctx.alertOnly {
        return NotPlaced;
      }
      outcome := PassGates(s, ctx);
    }

    method PassGates(s: Signal, ctx: Context) returns (outcome: Outcome)
      requires Valid() && s.stop.Some? && s.target.Some? && !ctx.alertOnly
      modifies this`placed, executor`orders, executor`nextId, risk, risk.Guards(), journal`rows
      ensures Valid() && (Abs(), outcome) == Gate(cfg, old(Abs()), s, ctx)
    {
      var positions := OpenPositionsSnapshot();
      var opposite := OppositeSide(positions, s);
      SnapshotShowsOpposite(Vals(executor.orders), risk.limits.riskPerTrade, s);
      if opposite {
        return NotPlaced;
      }
      var decision := Decide(s, ctx, positions);
      match decision {
        case Rejected(_) => return NotPlaced;
        case Raised => return Aborted;
        case Approved(lots) => outcome := Place(s, lots, ctx);
      }
    }

    /** Asks the risk manager. */
    method Decide(s: Signal, ctx: Context, positions: seq<Throttle.OpenPosition>) returns (d: Decision)
      requires Valid() && s.stop.Some?
      modifies risk
      ensures Valid() && Abs() == old(Abs()).(risk := Reset(old(risk.state), ctx.env.today))
      ensures d == Evaluate(cfg.limits, risk.state, executor.balance, CandidateOf(cfg, s, ctx.weight), positions,
                            ctx.env, GuardOf(cfg, Abs()))
    {
      ghost var orders := Vals(executor.orders);
      d := risk.EvaluateSignal(executor.balance, CandidateOf(cfg, s, ctx.weight), positions, ctx.env);
      assert Vals(executor.orders) == orders;
    }

    /** The tail of `_handle_signal`, once the gates approved. */
    method Place(s: Signal, lots: real, ctx: Context) returns (outcome: Outcome)
      requires Valid() && s.stop.Some? && s.target.Some?
      modifies this`placed, executor`orders, executor`nextId, risk, risk.Guards(), journal`rows
      ensures Valid() && (Abs(), outcome) == PlaceOrder(cfg, old(Abs()), s, lots, ctx)
    {
      ghost var b := Abs();
      var balanceAtSend := executor.balance;
      var order := Send(s, lots, ctx);
      outcome := Register(order, balanceAtSend, ctx, |b.orders|);
    }

    /** Journals and books an order; a taken id raises and leaves it unbooked. */
    method Register(order: Order, balance: real, ctx: Context, ghost i: nat) returns (outcome: Outcome)
      requires Valid() && i < |executor.orders| && executor.orders[i] == order
      modifies order, risk, risk.Guards(), journal`rows
      ensures Valid() && (Abs(), outcome) == Registered(cfg, old(Abs()), i, balance, ctx)
    {
      var raised := journal.RecordOpen(order.Val());
      if raised {
        assert Vals(executor.orders) == old(Vals(executor.orders));
        return Aborted;
      }
      Book(order, balance, ctx, i);
      return Placed;
    }

    /** Builds the order and hands it to the executor. */
    method Send(s: Signal, lots: real, ctx: Context) returns (order: Order)
      requires Valid() && s.stop.Some? && s.target.Some?
      modifies this`placed, executor`orders, executor`nextId
      ensures Valid() && Abs() == Sent(old(Abs()), s, lots, ctx)
      ensures fresh(order) && executor.orders == old(executor.orders) + [order]
      ensures order.Val() == NewOrder(s, old(executor.nextId), lots, ctx)
    {
      ghost var orders := Abs().orders;
      order := new Order(NewOrder(s, 0, lots, ctx));
      executor.Place(order);
      placed := placed + [(s.strategy, s.symbol, s.ts)];
      assert Vals(executor.orders) == orders + [order.Val()];
    }

    /** Re-derives the order's risk from its lots, stamps it and books it, and counts the
        trading day. */
    method Book(order: Order, balance: real, ctx: Context, ghost i: nat)
      requires Valid() && i < |executor.orders| && executor.orders[i] == order
      modifies order, risk, risk.Guards()
      ensures Valid() && Abs() == BookedAs(cfg, old(Abs()), i, balance, ctx)
    {
      ghost var orders := Abs().orders;
      var booked := RiskEstimate(order.entry, order.stop, order.lot, cfg.pips(order.symbol), balance);
      order.extra := order.extra.(booked := Some(booked));
      OneOrderChanged(executor.orders, order, i, orders);
      risk.RegisterOpened(booked);
      if risk.guard.Some? {
        risk.guard.value.NoteTradeOpened(ctx.env.today);
      }
    }

    method ManageOne(order: Order, t: TickInput, ghost i: nat) returns (aborted: bool)
      requires Valid()
      requires i < |executor.orders| && executor.orders[i] == order && order.status == OPEN
      modifies order, executor`balance, journal, risk
      ensures Valid() && (Abs(), aborted) == ManageOrder(cfg, old(Abs()), i, t)
    {
      aborted := TrailOne(order, t, i);
      if aborted {
        return true;
      }
      var read := t.check(order.id);
      if read.Failed? {
        return true;
      }
      CheckOne(order, t, i);
      return false;
    }

    /** The first read of the feed, and the trailing it asks for. */
    method TrailOne(order: Order, t: TickInput, ghost i: nat) returns (aborted: bool)
      requires Valid()
      requires i < |executor.orders| && executor.orders[i] == order && order.status == OPEN
      modifies order, journal
      ensures Valid() && order.status == OPEN
      ensures aborted <==> TrailRead(cfg, old(Abs()).orders[i], t).Failed?
      ensures Abs() == if aborted then old(Abs()) else TrailedBy(cfg, old(Abs()), i, t)
    {
      if stops.None? {
        return false;
      }
      match t.trail(order.id) {
        case Failed => return true;
        case NoBars => return false;
        case Latest(bar) =>
          ApplyTrailing(stops.value, order, bar, t.now, i);
          assert order.Val() == Abs().orders[i];
          return false;
      }
    }

    method CheckOne(order: Order, t: TickInput, ghost i: nat)
      requires Valid()
      requires i < |executor.orders| && executor.orders[i] == order && order.status == OPEN
      modifies order, executor`balance, journal`rows, risk
      ensures Valid() && Abs() == CheckedBy(cfg, old(Abs()), i, t)
    {
      var trigger := TriggerOf(order.Val(), t);
      if trigger.Some? {
        CloseOne(order, trigger.value, t.now, i);
      }
    }

    method ManageOrders(t: TickInput) returns (aborted: bool)
      requires Valid()
      modifies executor.orders, executor`balance, journal, risk
      ensures Valid()
      ensures (Abs(), aborted) == ManageAll(cfg, old(Abs()), t)
    {
      ghost var b := Abs();
      var open, at := ListOpen();
      for k := 0 to |open|
        invariant Valid()
        invariant (Abs(), false) == ManageUpTo(cfg, b, t, Handled(at, k))
      {
        aborted := ManageNext(open[k], t, b, at, k);
        if aborted {
          return;
        }
      }
      NoneLeft(cfg, b, t, at);
      return false;
    }

    method ListOpen() returns (r: seq<Order>, ghost at: seq<nat>)
      requires Valid()
      ensures |at| == |r| && Listed(Abs().orders, at)
      ensures forall k :: 0 <= k < |r| ==> at[k] < |executor.orders| && executor.orders[at[k]] == r[k]
    {
      r, at := executor.OpenOrders();
    }

    /** The k-th open order, and the closed ones before it. */
    method ManageNext(order: Order, t: TickInput, ghost b: BotV, ghost at: seq<nat>, ghost k: nat)
      returns (aborted: bool)
      requires Valid() && Listed(b.orders, at) && k < |at|
      requires (Abs(), false) == ManageUpTo(cfg, b, t, Handled(at, k))
      requires at[k] < |executor.orders| == |b.orders| && executor.orders[at[k]] == order
      modifies order, executor`balance, journal, risk
      ensures Valid()
      ensures (Abs(), aborted) == if aborted then ManageAll(cfg, b, t) else ManageUpTo(cfg, b, t, Handled(at, k + 1))
    {
      NextOpen(cfg, b, t, at, k);
      assert order.Val() == Abs().orders[at[k]];
      aborted := ManageOne(order, t, at[k]);
    }

    /** The next strategy's signal. */
    method EvaluateNext(signals: seq<(Signal, Context)>, k: nat, acted: nat, ghost b: BotV)
      returns (acted': nat, aborted: bool)
      requires Valid() && k < |signals| && (Abs(), acted, false) == EvalUpTo(cfg, b, signals, k)
      modifies this`placed, executor`orders, executor`nextId, risk, risk.Guards(), journal`rows, dedup
      ensures Valid()
      ensures (Abs(), acted', aborted) == if aborted then EvalSignals(cfg, b, signals)
                                          else EvalUpTo(cfg, b, signals, k + 1)
    {
      AbortEndsSignals(cfg, b, signals, k + 1);
      var outcome := HandleOne(signals[k].0, signals[k].1);
      return if outcome == Placed then acted + 1 else acted, outcome == Aborted;
    }

    method EvaluateStrategies(signals: seq<(Signal, Context)>) returns (acted: nat, aborted: bool)
      requires Valid()
      modifies this`placed, executor`orders, executor`nextId, risk, risk.Guards(), journal`rows, dedup
      ensures Valid() && (Abs(), acted, aborted) == EvalSignals(cfg, old(Abs()), signals)
    {
      acted, aborted := 0, false;
      ghost var b := Abs();
      for k := 0 to |signals|
        invariant Valid() && !aborted
        invariant (Abs(), acted, aborted) == EvalUpTo(cfg, b, signals, k)
      {
        acted, aborted := EvaluateNext(signals, k, acted, b);
        if aborted {
          return;
        }
      }
    }

    method EvaluatePass(p: SymbolPass) returns (acted: nat, aborted: bool)
      requires Valid()
      modifies this, executor`orders, executor`nextId, risk, risk.Guards(), journal`rows, dedup
      ensures Valid()
      ensures (TickState(Abs(), lastBar), acted, aborted) == EvalPass(cfg, TickState(old(Abs()), old(lastBar)), p)
    {
      if p.symbol in lastBar && lastBar[p.symbol] == p.ts {
        return 0, false;
      }
      lastBar := lastBar[p.symbol := p.ts];
      acted, aborted := EvaluateStrategies(p.signals);
    }

    method EvaluatePasses(passes: seq<SymbolPass>) returns (acted: nat, aborted: bool)
      requires Valid()
      modifies this, executor`orders, executor`nextId, risk, risk.Guards(), journal`rows, dedup
      ensures Valid()
      ensures (TickState(Abs(), lastBar), acted, aborted)
           == EvalPasses(cfg, TickState(old(Abs()), old(lastBar)), passes)
    {
      acted, aborted := 0, false;
      ghost var s := TickState(Abs(), lastBar);
      for k := 0 to |passes|
        invariant Valid() && !aborted
        invariant (TickState(Abs(), lastBar), acted, aborted) == EvalPassesUpTo(cfg, s, passes, k)
      {
        acted, aborted := EvaluateNextPass(passes, k, acted, s);
        if aborted {
          return;
        }
      }
    }

    /** The next symbol. */
    method EvaluateNextPass(passes: seq<SymbolPass>, k: nat, acted: nat, ghost s: TickState)
      returns (acted': nat, aborted: bool)
      requires Valid() && k < |passes|
      requires (TickState(Abs(), lastBar), acted, false) == EvalPassesUpTo(cfg, s, passes, k)
      modifies this, executor`orders, executor`nextId, risk, risk.Guards(), journal`rows, dedup
      ensures Valid()
      ensures (TickState(Abs(), lastBar), acted', aborted)
           == if aborted then EvalPasses(cfg, s, passes) else EvalPassesUpTo(cfg, s, passes, k + 1)
    {
      AbortEndsPasses(cfg, s, passes, k + 1);
      var more, stop := EvaluatePass(passes[k]);
      return acted + more, stop;
    }

    method RunTick(t: TickInput) returns (acted: nat, aborted: bool)
      requires Valid()
      modifies this, executor, executor.orders, risk, risk.Guards(), journal, dedup
      ensures Valid()
      ensures (TickState(Abs(), lastBar), acted, aborted) == Tick(cfg, TickState(old(Abs()), old(lastBar)), t)
    {
      aborted := ManageOrders(t);
      if aborted {
        return 0, true;
      }
      if risk.guard.Some? {
        var raised := risk.guard.value.ObserveBalance(t.day, executor.balance);
      }
      acted, aborted := EvaluatePasses(t.passes);
    }
  }

  /** After writing to one order of the list, only its value differs. */
  lemma OneOrderChanged(os: seq<Order>, order: Order, i: nat, before: seq<OrderV>)
    requires i < |os| == |before| && os[i] == order
    requires forall j :: 0 <= j < |os| && j != i ==> os[j].Val() == before[j]
    ensures Vals(os) == before[i := order.Val()]
  {
  }

  predicate Opposes(p: Throttle.OpenPosition, s: Signal) {
    p.symbol == s.symbol && p.side != s.side
  }

  method OppositeSide(positions: seq<Throttle.OpenPosition>, s: Signal) returns (r: bool)
    ensures r <==> exists p :: p in positions && Opposes(p, s)
  {
    for k := 0 to |positions|
      invariant forall j :: 0 <= j < k ==> !Opposes(positions[j], s)
    {
      if Opposes(positions[k], s) {
        return true;
      }
    }
    return false;
  }

  lemma {:induction false} SnapshotShowsOpposite(orders: seq<OrderV>, riskPct: real, s: Signal)
    ensures OppositeOpen(orders, s) <==> exists p :: p in Snapshot(orders, riskPct) && Opposes(p, s)
  {
    if orders != [] {
      var n := |orders| - 1;
      SnapshotShowsOpposite(orders[..n], riskPct, s);
      var last := orders[n];
      assert forall i :: 0 <= i < n ==> orders[..n][i] == orders[i];
      assert OppositeOpen(orders, s) <==>
             OppositeOpen(orders[..n], s) || (last.status == OPEN && last.symbol == s.symbol && last.side != s.side);
      if last.status == OPEN {
        assert Throttle.OpenPosition(last.symbol, last.side, riskPct) in Snapshot(orders, riskPct);
      }
    }
  }

  /** `at` lists the positions of the open orders, in order. */
  ghost predicate Listed(orders: seq<OrderV>, at: seq<nat>) {
    && (forall k :: 0 <= k < |at| ==> at[k] < |orders| && orders[at[k]].status == OPEN)
    && (forall i :: 0 <= i < |orders| && orders[i].status == OPEN ==> i in at)
    && (forall i, j :: 0 <= i < j < |at| ==> at[i] < at[j])
  }

  /** How many orders precede and include the first `k` open ones. */
  ghost function Handled(at: seq<nat>, k: nat): nat
    requires k <= |at|
  {
    if k == 0 then 0 else at[k - 1] + 1
  }

  /** Between two consecutive open positions of the list nothing is open. */
  lemma NoneOpenBetween(orders: seq<OrderV>, at: seq<nat>, k: nat, lo: nat)
    requires Listed(orders, at) && k <= |at| && lo == Handled(at, k)
    ensures var hi := if k < |at| then at[k] else |orders|;
            && lo <= hi <= |orders|
            && (k < |at| ==> orders[hi].status == OPEN)
            && forall i :: lo <= i < hi ==> orders[i].status != OPEN
  {
    var hi := if k < |at| then at[k] else |orders|;
    forall i | lo <= i < hi ensures orders[i].status != OPEN {
      if orders[i].status == OPEN {
        var m :| 0 <= m < |at| && at[m] == i;
        assert false;
      }
    }
  }

  /** The closed orders before the k-th open one are passed over, and it is still as it was. */
  lemma NextOpen(cfg: Config, b: BotV, t: TickInput, at: seq<nat>, k: nat)
    requires Listed(b.orders, at) && k < |at| && !ManageUpTo(cfg, b, t, Handled(at, k)).1
    ensures at[k] < |b.orders| && Handled(at, k + 1) == at[k] + 1
    ensures var b' := ManageUpTo(cfg, b, t, at[k]).0;
            && ManageUpTo(cfg, b, t, at[k]) == ManageUpTo(cfg, b, t, Handled(at, k))
            && |b'.orders| == |b.orders| && b'.orders[at[k]] == b.orders[at[k]] && IsOpenAt(b', at[k])
            && var r := ManageOrder(cfg, b', at[k], t);
            && r == if r.1 then ManageAll(cfg, b, t) else ManageUpTo(cfg, b, t, Handled(at, k + 1))
  {
    NoneOpenBetween(b.orders, at, k, Handled(at, k));
    SkipClosed(cfg, b, t, Handled(at, k), at[k]);
    ManageFrame(cfg, b, t, at[k]);
    if ManageUpTo(cfg, b, t, at[k] + 1).1 {
      ManageAborted(cfg, b, t, at[k] + 1, |b.orders|);
    }
  }

  /** After the last open order nothing is left to manage. */
  lemma NoneLeft(cfg: Config, b: BotV, t: TickInput, at: seq<nat>)
    requires Listed(b.orders, at)
    ensures ManageUpTo(cfg, b, t, Handled(at, |at|)) == ManageAll(cfg, b, t)
  {
    NoneOpenBetween(b.orders, at, |at|, Handled(at, |at|));
    SkipClosed(cfg, b, t, Handled(at, |at|), |b.orders|);
  }
}
