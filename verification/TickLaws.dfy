/** What a tick does to orders, journal and ledger, in the numbers of the bar, the order and
    the signal. */
module TickLaws {
  import opened Common
  import opened Orders
  import opened PositionSizing
  import opened Journal
  import opened Risk
  import opened BotModel
  import opened TickModel
  import Stops
  import Throttle

  // ------------------------------------------------------------ the exits

  predicate TouchesStop(side: Side, stop: real, b: Bar) {
    if side == Buy then b.low <= stop else b.high >= stop
  }

  predicate TouchesTarget(side: Side, target: real, b: Bar) {
    if side == Buy then b.high >= target else b.low <= target
  }

  /** What moving from entry to exit earns: 100000 units to the lot. */
  function Earned(o: OrderV, exit: real): real {
    (if o.side == Buy then exit - o.entry else o.entry - exit) * 100000.0 * o.lot
  }

  /** Between a bar and an order whose stop has already trailed: out at the stop when the bar
      touches it, a touched target notwithstanding, else out at a touched target, else still
      open and as it was. */
  predicate ExitsAs(o: OrderV, after: OrderV, b: Bar) {
    && after.id == o.id && after.side == o.side && after.entry == o.entry && after.lot == o.lot
    && after.target == o.target && after.symbol == o.symbol
    && if TouchesStop(o.side, after.stop, b) then
         after.status == CLOSED && after.exit == Some(after.stop) && after.pnl == Earned(o, after.stop)
       else if TouchesTarget(o.side, o.target, b) then
         after.status == CLOSED && after.exit == Some(o.target) && after.pnl == Earned(o, o.target)
       else after.status == OPEN && after.exit == o.exit && after.pnl == o.pnl
  }

  /** The stop an order has after the tick's first read of the feed. */
  function TrailedStop(cfg: Config, o: OrderV, t: TickInput): real {
    if cfg.stops.Some? && t.trail(o.id).Latest? then Stops.Trail(o, t.trail(o.id).bar, cfg.stops.value).stop else o.stop
  }

  lemma MockPnlIs(o: OrderV, exit: real)
    ensures MockPnl(o, exit) == Earned(o, exit)
  {
    var diff := if o.side == Buy then exit - o.entry else o.entry - exit;
    HundredThousand(diff, o.lot);
  }

  lemma HundredThousand(diff: real, lot: real)
    ensures (diff * 10000.0) * (10.0 * lot) == diff * 100000.0 * lot
  {
  }

  /** Balance and ledger take the profit of the order that closed. */
  predicate BooksProfit(b: BotV, b': BotV, after: OrderV) {
    var profit := if after.status == CLOSED then after.pnl else 0.0;
    b'.balance == b.balance + profit && b'.risk.dailyPnl == b.risk.dailyPnl + profit
  }

  /** The journal tells the close: outcome, time and which level it was. */
  predicate Journals(rows: seq<Row>, after: OrderV, stopped: bool, now: int) {
    after.status == CLOSED ==>
      forall i :: 0 <= i < |rows| && rows[i].id == after.id ==>
        && rows[i].status == CLOSED && rows[i].exit == after.exit && rows[i].closedAt == Some(now)
        && rows[i].pnl == after.pnl && rows[i].reason == Some(if stopped then "stop" else "target")
  }

  /** A close lands at the level of its reason, earns the move from the entry, counts the order out
      and gives its risk back, neither ever below zero. */
  lemma CloseCredits(lim: RiskLimits, b: BotV, i: nat, reason: CloseReason, now: int)
    requires IsOpenAt(b, i)
    ensures var b', o := CloseOrder(lim, b, i, reason, now), b.orders[i];
            var level := if reason == Stop then o.stop else o.target;
            && b'.orders[i].exit == Some(level) && b'.balance == b.balance + Earned(o, level)
            && b'.risk.dailyPnl == b.risk.dailyPnl + Earned(o, level)
            && b'.risk.count == (if b.risk.count > 0 then b.risk.count - 1 else 0)
            && GivesBack(lim, o.extra, b.risk.heat, b'.risk.heat)
  {
    MockPnlIs(b.orders[i], if reason == Stop then b.orders[i].stop else b.orders[i].target);
  }

  lemma TrailingIs(cfg: Config, b: BotV, i: nat, t: TickInput)
    requires IsOpenAt(b, i) && !TrailRead(cfg, b.orders[i], t).Failed?
    ensures var b' := TrailedBy(cfg, b, i, t);
            && |b'.orders| == |b.orders| && b'.balance == b.balance && b'.risk == b.risk
            && var o, o' := b.orders[i], b'.orders[i];
            && o' == o.(stop := TrailedStop(cfg, o, t), extra := o'.extra)
  {
  }

  lemma CheckingIs(cfg: Config, b: BotV, i: nat, t: TickInput, bar: Bar)
    requires IsOpenAt(b, i) && t.check(b.orders[i].id) == Latest(bar)
    ensures var b', o := CheckedBy(cfg, b, i, t), b.orders[i];
            && |b'.orders| == |b.orders| && ExitsAs(o, b'.orders[i], bar) && b'.orders[i].stop == o.stop
            && BooksProfit(b, b', b'.orders[i])
            && Journals(b'.rows, b'.orders[i], TouchesStop(o.side, o.stop, bar), t.now)
  {
    MockPnlIs(b.orders[i], b.orders[i].stop);
    MockPnlIs(b.orders[i], b.orders[i].target);
  }

  /** Managing one open order whose bars could be read. */
  lemma ManagedExits(cfg: Config, b: BotV, i: nat, t: TickInput, bar: Bar)
    requires IsOpenAt(b, i) && !TrailRead(cfg, b.orders[i], t).Failed? && t.check(b.orders[i].id) == Latest(bar)
    ensures !ManageOrder(cfg, b, i, t).1
    ensures var b', o := ManageOrder(cfg, b, i, t).0, b.orders[i];
            && |b'.orders| == |b.orders| && b'.orders[i].stop == TrailedStop(cfg, o, t)
            && ExitsAs(o, b'.orders[i], bar) && BooksProfit(b, b', b'.orders[i])
            && Journals(b'.rows, b'.orders[i], TouchesStop(o.side, TrailedStop(cfg, o, t), bar), t.now)
  {
    TrailingIs(cfg, b, i, t);
    CheckingIs(cfg, TrailedBy(cfg, b, i, t), i, t, bar);
  }

  // ----------------------------------------------------- over a whole tick

  predicate SameAt(a: seq<OrderV>, b: seq<OrderV>, i: nat) {
    |a| == |b| && (i < |a| ==> b[i] == a[i])
  }

  lemma {:induction false} LaterLeaveAlone(cfg: Config, b: BotV, t: TickInput, i: nat, m: nat, k: nat, was: seq<OrderV>)
    requires i < m <= k && SameAt(was, ManageUpTo(cfg, b, t, m).0.orders, i)
    ensures SameAt(was, ManageUpTo(cfg, b, t, k).0.orders, i)
    decreases k - m
  {
    if m < k {
      NextLeavesAlone(cfg, b, t, i, m, was);
      LaterLeaveAlone(cfg, b, t, i, m + 1, k, was);
    }
  }

  lemma NextLeavesAlone(cfg: Config, b: BotV, t: TickInput, i: nat, k: nat, was: seq<OrderV>)
    requires i < k && SameAt(was, ManageUpTo(cfg, b, t, k).0.orders, i)
    ensures SameAt(was, ManageUpTo(cfg, b, t, k + 1).0.orders, i)
  {
    OrderFrame(cfg, ManageUpTo(cfg, b, t, k).0, k, t);
  }

  lemma SignalKeepsOrders(cfg: Config, b: BotV, s: Signal, ctx: Context)
    ensures b.orders <= HandleSignal(cfg, b, s, ctx).0.orders
  {
  }

  lemma {:induction false} SignalsKeepOrders(cfg: Config, b: BotV, signals: seq<(Signal, Context)>, k: nat)
    requires k <= |signals|
    ensures b.orders <= EvalUpTo(cfg, b, signals, k).0.orders
    decreases k
  {
    if k > 0 {
      SignalsKeepOrders(cfg, b, signals, k - 1);
      SignalKeepsOrders(cfg, EvalUpTo(cfg, b, signals, k - 1).0, signals[k - 1].0, signals[k - 1].1);
    }
  }

  lemma {:induction false} PassesKeepOrders(cfg: Config, s: TickState, passes: seq<SymbolPass>, k: nat)
    requires k <= |passes|
    ensures s.bot.orders <= EvalPassesUpTo(cfg, s, passes, k).0.bot.orders
    decreases k
  {
    if k > 0 {
      PassesKeepOrders(cfg, s, passes, k - 1);
      var r, p := EvalPassesUpTo(cfg, s, passes, k - 1), passes[k - 1];
      SignalsKeepOrders(cfg, r.0.bot, p.signals, |p.signals|);
    }
  }

  lemma NotAbortedBefore(cfg: Config, b: BotV, t: TickInput, i: nat, k: nat)
    requires i <= k && !ManageUpTo(cfg, b, t, k).1
    ensures !ManageUpTo(cfg, b, t, i).1
  {
    if ManageUpTo(cfg, b, t, i).1 {
      ManageAborted(cfg, b, t, i, k);
    }
  }

  lemma ManagedInTurn(cfg: Config, b: BotV, t: TickInput, i: nat, bar: Bar)
    requires IsOpenAt(b, i) && !ManageAll(cfg, b, t).1 && t.check(b.orders[i].id) == Latest(bar)
    ensures var o, orders := b.orders[i], ManageUpTo(cfg, b, t, i + 1).0.orders;
            i < |orders| && orders[i].stop == TrailedStop(cfg, o, t) && ExitsAs(o, orders[i], bar)
  {
    ManageFrame(cfg, b, t, i);
    NotAbortedBefore(cfg, b, t, i, |b.orders|);
    NotAbortedBefore(cfg, b, t, i + 1, |b.orders|);
    ManagedExits(cfg, ManageUpTo(cfg, b, t, i).0, i, t, bar);
  }

  lemma EvaluationKeeps(cfg: Config, s: TickState, t: TickInput)
    requires !ManageAll(cfg, s.bot, t).1
    ensures ManageAll(cfg, s.bot, t).0.orders <= Tick(cfg, s, t).0.bot.orders
  {
    PassesKeepOrders(cfg, Observed(cfg, s, t), t.passes, |t.passes|);
  }

  /** In a tick whose reads succeed, every order open at its start leaves it exactly so. */
  lemma TickExits(cfg: Config, s: TickState, t: TickInput, i: nat, bar: Bar)
    requires IsOpenAt(s.bot, i) && !ManageAll(cfg, s.bot, t).1 && t.check(s.bot.orders[i].id) == Latest(bar)
    ensures var o, orders := s.bot.orders[i], Tick(cfg, s, t).0.bot.orders;
            i < |orders| && orders[i].stop == TrailedStop(cfg, o, t) && ExitsAs(o, orders[i], bar)
  {
    var n, first := |s.bot.orders|, ManageUpTo(cfg, s.bot, t, i + 1).0.orders;
    ManagedInTurn(cfg, s.bot, t, i, bar);
    LaterLeaveAlone(cfg, s.bot, t, i, i + 1, n, first);
    EvaluationKeeps(cfg, s, t);
  }

  // ------------------------------------------------------------ the log

  /** Trailing an order writes to the journal exactly when its stop moved: one modification
      with the new stop, and the new stop in the rows of that id. */
  lemma TrailLogs(cfg: Config, b: BotV, i: nat, t: TickInput, bar: Bar)
    requires IsOpenAt(b, i) && cfg.stops.Some? && t.trail(b.orders[i].id) == Latest(bar)
    ensures var b', o := TrailedBy(cfg, b, i, t), b.orders[i];
            var stop := b'.orders[i].stop;
            if stop == o.stop then b'.mods == b.mods && b'.rows == b.rows
            else
              && b'.mods == b.mods + [ModRow(o.id, t.now, Some(stop), Some(o.target))]
              && |b'.rows| == |b.rows|
              && forall k :: 0 <= k < |b.rows| ==>
                   b'.rows[k] == if b.rows[k].id != o.id then b.rows[k]
                                 else b.rows[k].(stop := stop, target := o.target)
  {
  }

  // ------------------------------------------------------------ placing

  /** Exactly when a signal is placed: it has both levels, its bar was not acted on, the
      strategy trades, nothing is open against it, and the gates approve it. */
  lemma PlacesIff(cfg: Config, b: BotV, s: Signal, ctx: Context)
    ensures Places(cfg, b, Signalled(s, ctx)) <==>
            && s.stop.Some? && s.target.Some?
            && !((s.strategy, s.symbol) in b.dedup && b.dedup[(s.strategy, s.symbol)].0 == s.ts)
            && !ctx.alertOnly
            && (forall o :: o in b.orders && o.status == OPEN && o.symbol == s.symbol ==> o.side == s.side)
            && DecisionOn(cfg, b, s, ctx).Approved?
  {
    assert OppositeOpen(b.orders, s) <==>
           exists o :: o in b.orders && o.status == OPEN && o.symbol == s.symbol && o.side != s.side;
    if s.stop.Some? && s.target.Some? {
      var lots := if DecisionOn(cfg, b, s, ctx).Approved? then DecisionOn(cfg, b, s, ctx).lots else 0.0;
      PlacedLeaves(cfg, b.(dedup := b.dedup[(s.strategy, s.symbol) := (s.ts, s.side)],
                           risk := Reset(b.risk, ctx.env.today)), s, lots, ctx);
    }
  }

  /** The risk of an order in shares of the balance, from its own numbers. */
  function ShareAtRisk(entry: real, stop: real, lots: real, ins: Instrument, balance: real): real {
    if balance <= 0.0 then 0.0 else Abs(entry - stop) / ins.size * ins.value * lots / balance
  }

  lemma EstimateIs(entry: real, stop: real, lots: real, ins: Instrument, balance: real)
    ensures RiskEstimate(entry, stop, lots, ins, balance) == ShareAtRisk(entry, stop, lots, ins, balance)
  {
  }

  /** The order a signal becomes. */
  predicate IsOrderFor(o: OrderV, s: Signal, ctx: Context, id: int, lots: real)
    requires s.stop.Some? && s.target.Some?
  {
    && o == OrderV(id, s.symbol, s.side, s.strategy, lots, s.price, s.stop.value, s.target.value, ctx.now,
                   OPEN, None, 0.0, None, o.extra)
    && o.extra.initialStop == s.stop && o.extra.peak == None && o.extra.weight == Some(ctx.weight)
  }

  /** The row it gets. */
  function RowFor(o: OrderV): Row {
    Row(o.id, o.symbol, o.side, o.lot, o.entry, o.stop, o.target, o.strategy, OPEN, o.openedAt, None, None, 0.0, None,
        None)
  }

  lemma PlaceOrderCarries(cfg: Config, b: BotV, s: Signal, lots: real, ctx: Context)
    requires s.stop.Some? && s.target.Some?
    ensures var b', n := PlaceOrder(cfg, b, s, lots, ctx).0, |b.orders|;
            && |b'.orders| == n + 1 && b'.orders[..n] == b.orders && b'.nextId == b.nextId + 1
            && b'.placed == b.placed + [(s.strategy, s.symbol, s.ts)]
            && b'.dedup == b.dedup && b'.balance == b.balance && b'.mods == b.mods
            && IsOrderFor(b'.orders[n], s, ctx, b.nextId, lots)
            && if HasId(b.rows, b.nextId) then b'.rows == b.rows && b'.risk == b.risk
               else
                 var share := ShareAtRisk(s.price, s.stop.value, lots, cfg.pips(s.symbol), b.balance);
                 && b'.rows == b.rows + [RowFor(b'.orders[n])] && b'.orders[n].extra.booked == Some(share)
                 && b'.risk == b.risk.(count := b.risk.count + 1, heat := b.risk.heat + share)
  {
    EstimateIs(s.price, s.stop.value, lots, cfg.pips(s.symbol), b.balance);
  }

  lemma ApprovedIsHandled(cfg: Config, b: BotV, s: Signal, ctx: Context)
    requires Places(cfg, b, Signalled(s, ctx))
    ensures s.stop.Some? && s.target.Some? && DecisionOn(cfg, b, s, ctx).Approved?
    ensures var marked := b.(dedup := b.dedup[(s.strategy, s.symbol) := (s.ts, s.side)],
                             risk := Reset(b.risk, ctx.env.today));
            HandleSignal(cfg, b, s, ctx) == PlaceOrder(cfg, marked, s, DecisionOn(cfg, b, s, ctx).lots, ctx)
  {
  }

  /** What a placed order is made of, and what journal, ledger and dedup table then say. */
  lemma PlacedCarries(cfg: Config, b: BotV, s: Signal, ctx: Context)
    requires Places(cfg, b, Signalled(s, ctx))
    ensures s.stop.Some? && s.target.Some? && DecisionOn(cfg, b, s, ctx).Approved?
    ensures var b', n, lots := HandleSignal(cfg, b, s, ctx).0, |b.orders|, DecisionOn(cfg, b, s, ctx).lots;
            && |b'.orders| == n + 1 && b'.orders[..n] == b.orders && b'.nextId == b.nextId + 1
            && b'.placed == b.placed + [(s.strategy, s.symbol, s.ts)]
            && b'.dedup == b.dedup[(s.strategy, s.symbol) := (s.ts, s.side)]
            && b'.balance == b.balance && b'.mods == b.mods
            && IsOrderFor(b'.orders[n], s, ctx, b.nextId, lots)
            && if HasId(b.rows, b.nextId) then b'.rows == b.rows && b'.risk.count == b.risk.count
               else
                 var share := ShareAtRisk(s.price, s.stop.value, lots, cfg.pips(s.symbol), b.balance);
                 && b'.rows == b.rows + [RowFor(b'.orders[n])] && b'.orders[n].extra.booked == Some(share)
                 && b'.risk.count == b.risk.count + 1 && b'.risk.heat == b.risk.heat + share
  {
    ApprovedIsHandled(cfg, b, s, ctx);
    PlaceOrderCarries(cfg, b.(dedup := b.dedup[(s.strategy, s.symbol) := (s.ts, s.side)],
                              risk := Reset(b.risk, ctx.env.today)), s, DecisionOn(cfg, b, s, ctx).lots, ctx);
  }

  // ------------------------------------------- open risk on the same symbol

  /** The per-trade risk of every open order on the symbol, together. */
  function Stacked(orders: seq<OrderV>, symbol: string, risk: real): real {
    if orders == [] then 0.0
    else
      var o := orders[|orders| - 1];
      Stacked(orders[..|orders| - 1], symbol, risk) + if o.status == OPEN && o.symbol == symbol then risk else 0.0
  }

  /** On the candidate's own symbol and side a position counts in full. */
  lemma OwnSymbolCounts(pol: Throttle.Policy, c: Throttle.Candidate, p: Throttle.OpenPosition)
    requires pol.floor <= 1.0 && p.riskPct >= 0.0 && p.symbol == c.symbol && p.side == c.side
    ensures Throttle.Contribution(pol, c, p) == p.riskPct
  {
    assert Throttle.EffectiveCorrelation(pol, c, p) == 1.0;
  }

  lemma HeatStep(pol: Throttle.Policy, c: Throttle.Candidate, open: seq<Throttle.OpenPosition>,
                 p: Throttle.OpenPosition)
    ensures Throttle.Heat(pol, c, open + [p]) == Throttle.Heat(pol, c, open) + Throttle.Contribution(pol, c, p)
  {
    assert (open + [p])[..|open|] == open;
  }

  lemma {:induction false} StackedHeat(pol: Throttle.Policy, c: Throttle.Candidate, orders: seq<OrderV>, risk: real)
    requires pol.floor <= 1.0 && risk >= 0.0
    requires forall o :: o in orders && o.status == OPEN && o.symbol == c.symbol ==> o.side == c.side
    ensures Throttle.Heat(pol, c, Snapshot(orders, risk)) >= Stacked(orders, c.symbol, risk)
    decreases |orders|
  {
    if orders != [] {
      var rest, o := orders[..|orders| - 1], orders[|orders| - 1];
      StackedHeat(pol, c, rest, risk);
      if o.status == OPEN {
        var p := Throttle.OpenPosition(o.symbol, o.side, risk);
        HeatStep(pol, c, Snapshot(rest, risk), p);
        if o.symbol == c.symbol {
          OwnSymbolCounts(pol, c, p);
        }
      }
    }
  }

  lemma {:induction false} SnapshotHolds(orders: seq<OrderV>, symbol: string, risk: real)
    requires Stacked(orders, symbol, risk) != 0.0
    ensures Snapshot(orders, risk) != []
    decreases |orders|
  {
    var rest, o := orders[..|orders| - 1], orders[|orders| - 1];
    if !(o.status == OPEN && o.symbol == symbol) {
      SnapshotHolds(rest, symbol, risk);
    }
  }

  /** A second order on a symbol counts in full: when one is placed beside open ones, the
      per-trade risk of every open order on its symbol and its own fit the cap together. */
  lemma StackedNeedsRoom(cfg: Config, b: BotV, s: Signal, ctx: Context)
    requires Places(cfg, b, Signalled(s, ctx)) && cfg.limits.riskPerTrade >= 0.0
    requires Stacked(b.orders, s.symbol, cfg.limits.riskPerTrade) > 0.0
    requires ctx.env.throttle.Some? && ctx.env.throttle.value.enabled && ctx.env.throttle.value.floor <= 1.0
    ensures Stacked(b.orders, s.symbol, cfg.limits.riskPerTrade) + cfg.limits.riskPerTrade * ctx.weight
         <= ctx.env.throttle.value.maxHeat
  {
    PlacesIff(cfg, b, s, ctx);
    SnapshotHolds(b.orders, s.symbol, cfg.limits.riskPerTrade);
    PlacedWithinHeat(cfg, b, s, ctx);
    var own := cfg.limits.riskPerTrade * ctx.weight;
    StackedHeat(ctx.env.throttle.value, Throttle.Candidate(s.symbol, s.side, own, ctx.env.pair), b.orders,
                cfg.limits.riskPerTrade);
  }

  lemma PlacedWithinHeat(cfg: Config, b: BotV, s: Signal, ctx: Context)
    requires Places(cfg, b, Signalled(s, ctx)) && Snapshot(b.orders, cfg.limits.riskPerTrade) != []
    requires ctx.env.throttle.Some? && ctx.env.throttle.value.enabled
    ensures var own := cfg.limits.riskPerTrade * ctx.weight;
            Throttle.Heat(ctx.env.throttle.value, Throttle.Candidate(s.symbol, s.side, own, ctx.env.pair),
                          Snapshot(b.orders, cfg.limits.riskPerTrade)) + own <= ctx.env.throttle.value.maxHeat
  {
    PlacementRespectsVetoes(cfg, b, Signalled(s, ctx));
    OwnCandidate(cfg, s, ctx);
  }

  lemma OwnCandidate(cfg: Config, s: Signal, ctx: Context)
    requires s.stop.Some?
    ensures var c, own := CandidateOf(cfg, s, ctx.weight), cfg.limits.riskPerTrade * ctx.weight;
            && EffectiveRisk(cfg.limits, c) == own
            && Throttle.Candidate(c.symbol, c.side, EffectiveRisk(cfg.limits, c), ctx.env.pair)
            == Throttle.Candidate(s.symbol, s.side, own, ctx.env.pair)
  {
  }

  // ------------------------------------------------------ counting and bars

  lemma SignalCounts(cfg: Config, b: BotV, s: Signal, ctx: Context)
    ensures var (b', outcome) := HandleSignal(cfg, b, s, ctx);
            |b'.rows| == |b.rows| + if outcome == Placed then 1 else 0
  {
  }

  lemma {:induction false} SignalsCount(cfg: Config, b: BotV, signals: seq<(Signal, Context)>, k: nat)
    requires k <= |signals|
    ensures EvalUpTo(cfg, b, signals, k).1 == |EvalUpTo(cfg, b, signals, k).0.rows| - |b.rows|
    decreases k
  {
    if k > 0 {
      SignalsCount(cfg, b, signals, k - 1);
      SignalCounts(cfg, EvalUpTo(cfg, b, signals, k - 1).0, signals[k - 1].0, signals[k - 1].1);
    }
  }

  lemma {:induction false} PassesCount(cfg: Config, s: TickState, passes: seq<SymbolPass>, k: nat)
    requires k <= |passes|
    ensures EvalPassesUpTo(cfg, s, passes, k).1 == |EvalPassesUpTo(cfg, s, passes, k).0.bot.rows| - |s.bot.rows|
    decreases k
  {
    if k > 0 {
      PassesCount(cfg, s, passes, k - 1);
      var r, p := EvalPassesUpTo(cfg, s, passes, k - 1), passes[k - 1];
      SignalsCount(cfg, r.0.bot, p.signals, |p.signals|);
    }
  }

  lemma ManagingAddsNoRow(cfg: Config, b: BotV, i: nat, t: TickInput)
    ensures |ManageOrder(cfg, b, i, t).0.rows| == |b.rows|
  {
  }

  lemma {:induction false} ManageAddsNoRow(cfg: Config, b: BotV, t: TickInput, k: nat)
    ensures |ManageUpTo(cfg, b, t, k).0.rows| == |b.rows|
    decreases k
  {
    if k > 0 {
      ManageAddsNoRow(cfg, b, t, k - 1);
      ManagingAddsNoRow(cfg, ManageUpTo(cfg, b, t, k - 1).0, k - 1, t);
    }
  }

  /** The number a tick returns is the number of trades it wrote into the journal. */
  lemma TickCounts(cfg: Config, s: TickState, t: TickInput)
    ensures Tick(cfg, s, t).1 == |Tick(cfg, s, t).0.bot.rows| - |s.bot.rows|
  {
    ManageAddsNoRow(cfg, s.bot, t, |s.bot.orders|);
    PassesCount(cfg, Observed(cfg, s, t), t.passes, |t.passes|);
  }

  /** A symbol is evaluated once per bar: its strategies' signals are handed on exactly when
      the feed's last timestamp is new, which is then remembered. */
  lemma OncePerBar(cfg: Config, s: TickState, symbol: string, ts: int, signal: Signal, ctx: Context)
    ensures var (s', _, _) := EvalPass(cfg, s, SymbolPass(symbol, ts, [(signal, ctx)]));
            if symbol in s.bars && s.bars[symbol] == ts then s' == s
            else s'.bot == HandleSignal(cfg, s.bot, signal, ctx).0 && s'.bars == s.bars[symbol := ts]
  {
    var signals := [(signal, ctx)];
    assert EvalUpTo(cfg, s.bot, signals, 0) == (s.bot, 0, false);
    assert EvalUpTo(cfg, s.bot, signals, 1).0 == HandleSignal(cfg, s.bot, signal, ctx).0;
  }

  lemma {:induction false} OldBarsDoNothing(cfg: Config, s: TickState, passes: seq<SymbolPass>, k: nat)
    requires k <= |passes| && forall p :: p in passes ==> p.symbol in s.bars && s.bars[p.symbol] == p.ts
    ensures EvalPassesUpTo(cfg, s, passes, k) == (s, 0, false)
    decreases k
  {
    if k > 0 {
      OldBarsDoNothing(cfg, s, passes, k - 1);
      assert passes[k - 1] in passes;
    }
  }

  /** A tick that finds no new bar places nothing. */
  lemma NoNewBarNoOrder(cfg: Config, s: TickState, t: TickInput)
    requires forall p :: p in t.passes ==> p.symbol in s.bars && s.bars[p.symbol] == p.ts
    ensures Tick(cfg, s, t).0.bot.placed == s.bot.placed && Tick(cfg, s, t).1 == 0
  {
    ManagePlacesNothing(cfg, s.bot, t, |s.bot.orders|);
    OldBarsDoNothing(cfg, Observed(cfg, s, t), t.passes, |t.passes|);
  }

  // ---------------------------------------------------------- a restart

  /** What one more journal row means for the process that starts: nothing unless the row is open
      and has a ticket; else one trade more, and in the heat the share of the account's balance
      at the start that lies between the row's entry and its stop. */
  lemma RestartSeeds(cfg: Config, b: BotV, r: Row, balance: real)
    ensures var without, with := Restart(cfg, b, balance), Restart(cfg, b.(rows := b.rows + [r]), balance);
            && with.orders == [] && with.nextId == 1 && with.balance == balance && with.risk.dailyPnl == 0.0
            && with.dedup == b.dedup && with.guard == b.guard
            && if r.status != OPEN || r.closedAt != None || r.ticket == None then with.risk == without.risk
               else
                 && with.risk.count == without.risk.count + 1
                 && with.risk.heat == without.risk.heat + StopShare(r, cfg.pips(r.symbol), balance)
  {
    assert (b.rows + [r])[..|b.rows|] == b.rows;
    SeededRow(ListOpen(b.rows), r, cfg.pips, balance);
  }
}
