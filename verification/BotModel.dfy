/** The bot with the in-memory executor, as a transition system over values: every
    step a tick can take, and what every run of steps keeps. */
module BotModel {
  import opened Common
  import opened Orders
  import opened PositionSizing
  import opened Journal
  import opened Risk
  import opened Stops
  import opened Dedup
  import PropFirm
  import Throttle

  /** Wiring that does not change while the process runs. */
  datatype Config = Config(limits: RiskLimits, stops: Option<StopPolicy>, guard: Option<PropFirm.Policy>,
                           pips: string -> Instrument)

  datatype Signal = Signal(strategy: string, symbol: string, side: Side, ts: int, price: real,
                           stop: Option<real>, target: Option<real>)

  /** `alertOnly` is the strategy's mode, `weight` the allocator's, `now` the clock. */
  datatype Context = Context(weight: real, alertOnly: bool, env: Environment, now: int)

  /** (strategy, symbol, bar timestamp) */
  type Setup = (string, string, int)

  datatype BotV = BotV(
    orders: seq<OrderV>, balance: real, nextId: int,
    risk: RiskState,
    rows: seq<Row>, mods: seq<ModRow>,
    dedup: LastBars,
    guard: Option<PropFirm.State>,
    placed: seq<Setup>)

  datatype Step =
    | Trailed(i: nat, bar: Bar, now: int)
    | ClosedOut(i: nat, reason: CloseReason, now: int)
    | GuardObserved(day: int)
    | Signalled(signal: Signal, ctx: Context)
    | Restarted(balance: real)

  // ------------------------------------------------------------- the steps

  function CloseTrigger(o: OrderV, b: Bar): Option<CloseReason> {
    var hitStop := if o.side == Buy then b.low <= o.stop else b.high >= o.stop;
    var hitTarget := if o.side == Buy then b.high >= o.target else b.low <= o.target;
    if hitStop then Some(Stop) else if hitTarget then Some(Target) else None
  }

  function ReasonText(r: CloseReason): string {
    if r == Target then "target" else "stop"
  }

  predicate IsOpenAt(b: BotV, i: nat) {
    i < |b.orders| && b.orders[i].status == OPEN
  }

  /** `_apply_trailing`: the peak always moves, the journal only when the stop does. */
  function TrailOrder(pol: StopPolicy, b: BotV, i: nat, bar: Bar, now: int): BotV
    requires IsOpenAt(b, i)
  {
    var o := WithPeak(b.orders[i], bar);
    match ProposedStop(o, pol)
    case None => b.(orders := b.orders[i := o])
    case Some(s) =>
      b.(orders := b.orders[i := o.(stop := s)],
         rows := Modified(b.rows, o.id, Some(s), Some(o.target)),
         mods := b.mods + [ModRow(o.id, now, Some(s), Some(o.target))])
  }

  /** What a close credits back: the booked risk, or an estimate when none is recorded. */
  function Refund(lim: RiskLimits, x: Extra): real {
    if x.booked.Some? then x.booked.value
    else lim.riskPerTrade * if x.weight.Some? then x.weight.value else 1.0
  }

  /** What a close hands back to the heat: what was booked for the order, or its weight's part of
      the per-trade risk when nothing was. */
  predicate GivesBack(lim: RiskLimits, x: Extra, heat: real, heat': real) {
    var back := if x.booked != None then x.booked.value
                else if x.weight != None then lim.riskPerTrade * x.weight.value else lim.riskPerTrade;
    heat' == if heat > back then heat - back else 0.0
  }

  /** The executor's part of a close. */
  function Exited(b: BotV, i: nat, reason: CloseReason): BotV
    requires IsOpenAt(b, i)
  {
    var o := MockClosed(b.orders[i], reason);
    b.(orders := b.orders[i := o], balance := b.balance + o.pnl)
  }

  /** The journal's and the ledger's part. */
  function Credited(lim: RiskLimits, b: BotV, o: OrderV, reason: CloseReason, now: int): BotV {
    b.(rows := ClosedById(b.rows, o, ReasonText(reason), now), risk := Closed(b.risk, Refund(lim, o.extra), o.pnl))
  }

  /** `_close_order`; the in-memory executor never refuses. */
  function CloseOrder(lim: RiskLimits, b: BotV, i: nat, reason: CloseReason, now: int): BotV
    requires IsOpenAt(b, i)
  {
    Credited(lim, Exited(b, i, reason), MockClosed(b.orders[i], reason), reason, now)
  }

  function Snapshot(orders: seq<OrderV>, riskPct: real): seq<Throttle.OpenPosition> {
    if orders == [] then []
    else
      var rest, o := Snapshot(orders[..|orders| - 1], riskPct), orders[|orders| - 1];
      if o.status == OPEN then rest + [Throttle.OpenPosition(o.symbol, o.side, riskPct)] else rest
  }

  predicate OppositeOpen(orders: seq<OrderV>, s: Signal) {
    exists i :: 0 <= i < |orders| && orders[i].status == OPEN
             && orders[i].symbol == s.symbol && orders[i].side != s.side
  }

  function CandidateOf(cfg: Config, s: Signal, weight: real): Candidate
    requires s.stop.Some?
  {
    var ins := cfg.pips(s.symbol);
    Candidate(s.symbol, s.side, Abs(s.price - s.stop.value) / ins.size, weight, ins)
  }

  function NewOrder(s: Signal, id: int, lots: real, ctx: Context): OrderV
    requires s.stop.Some? && s.target.Some?
  {
    OrderV(id, s.symbol, s.side, s.strategy, lots, s.price, s.stop.value, s.target.value, ctx.now,
           OPEN, None, 0.0, None, Extra(Some(s.stop.value), None, None, Some(ctx.weight)))
  }

  /** The guard's row after one event, when a challenge is wired. */
  function GuardAfter(cfg: Config, row: Option<PropFirm.State>, e: PropFirm.Event): Option<PropFirm.State> {
    if cfg.guard.Some? then PropFirm.Step(cfg.guard.value, row, e) else row
  }

  function GuardOf(cfg: Config, b: BotV): Option<Challenge> {
    if cfg.guard.Some? then Some(Challenge(cfg.guard.value, b.guard)) else None
  }

  datatype Outcome = NotPlaced | Placed | Aborted

  /** The order has been handed to the executor. */
  function Sent(b: BotV, s: Signal, lots: real, ctx: Context): BotV
    requires s.stop.Some? && s.target.Some?
  {
    b.(orders := b.orders + [NewOrder(s, b.nextId, lots, ctx)], nextId := b.nextId + 1,
       placed := b.placed + [(s.strategy, s.symbol, s.ts)])
  }

  /** Stamps the i-th order with its re-derived risk, books it and counts the day. */
  function BookedAs(cfg: Config, b: BotV, i: nat, balance: real, ctx: Context): BotV
    requires i < |b.orders|
  {
    var o := b.orders[i];
    var booked := RiskEstimate(o.entry, o.stop, o.lot, cfg.pips(o.symbol), balance);
    b.(orders := b.orders[i := o.(extra := o.extra.(booked := Some(booked)))],
       risk := Opened(b.risk, booked),
       guard := GuardAfter(cfg, b.guard, PropFirm.TradeOpened(ctx.env.today)))
  }

  /** Journal, then book; a taken id raises in between, after the order is placed. */
  function Registered(cfg: Config, b: BotV, i: nat, balance: real, ctx: Context): (BotV, Outcome)
    requires i < |b.orders|
  {
    if HasId(b.rows, b.orders[i].id) then (b, Aborted)
    else (BookedAs(cfg, b.(rows := b.rows + [OpenRow(b.orders[i])]), i, balance, ctx), Placed)
  }

  /** Place, journal, book, count the trading day: the part of `_handle_signal` after the
      gates approved. */
  function PlaceOrder(cfg: Config, b: BotV, s: Signal, lots: real, ctx: Context): (BotV, Outcome)
    requires s.stop.Some? && s.target.Some?
  {
    Registered(cfg, Sent(b, s, lots, ctx), |b.orders|, b.balance, ctx)
  }

  predicate AlreadyActed(b: BotV, s: Signal) {
    Remembers(b.dedup, s.strategy, s.symbol, s.ts)
  }

  /** `_handle_signal`, in the source's order: bar dedup, alert-only mode,
      opposite-side guard, risk gates, placement. */
  function HandleSignal(cfg: Config, b: BotV, s: Signal, ctx: Context): (BotV, Outcome) {
    if s.stop.None? || s.target.None? then (b, NotPlaced)
    else if AlreadyActed(b, s) then (b, NotPlaced)
    else
      Gate(cfg, b.(dedup := b.dedup[(s.strategy, s.symbol) := (s.ts, s.side)]), s, ctx)
  }

  /** The part after the bar has been marked. */
  function Gate(cfg: Config, b: BotV, s: Signal, ctx: Context): (BotV, Outcome)
    requires s.stop.Some? && s.target.Some?
  {
    if ctx.alertOnly || OppositeOpen(b.orders, s) then (b, NotPlaced)
    else
      var b := b.(risk := Reset(b.risk, ctx.env.today));
      match Evaluate(cfg.limits, b.risk, b.balance, CandidateOf(cfg, s, ctx.weight),
                     Snapshot(b.orders, cfg.limits.riskPerTrade), ctx.env, GuardOf(cfg, b))
      case Rejected(_) => (b, NotPlaced)
      case Raised => (b, Aborted)
      case Approved(lots) => PlaceOrder(cfg, b, s, lots, ctx)
  }

  /** A new process: a new executor and ledger, seeded from the surviving journal; the
      dedup table survives too. */
  function Restart(cfg: Config, b: BotV, balance: real): BotV {
    b.(orders := [], balance := balance, nextId := 1, risk := Seeded(b.rows, cfg.pips, balance))
  }

  function Apply(cfg: Config, b: BotV, step: Step): BotV {
    match step
    case Trailed(i, bar, now) =>
      if IsOpenAt(b, i) && cfg.stops.Some? then TrailOrder(cfg.stops.value, b, i, bar, now) else b
    case ClosedOut(i, reason, now) => if IsOpenAt(b, i) then CloseOrder(cfg.limits, b, i, reason, now) else b
    case GuardObserved(day) => b.(guard := GuardAfter(cfg, b.guard, PropFirm.Observe(day, b.balance)))
    case Signalled(s, ctx) => HandleSignal(cfg, b, s, ctx).0
    case Restarted(balance) => Restart(cfg, b, balance)
  }

  function Run(cfg: Config, b: BotV, steps: seq<Step>): BotV {
    if steps == [] then b else Apply(cfg, Run(cfg, b, steps[..|steps| - 1]), steps[|steps| - 1])
  }

  lemma {:induction false} RunConcat(cfg: Config, b: BotV, xs: seq<Step>, ys: seq<Step>)
    ensures Run(cfg, b, xs + ys) == Run(cfg, Run(cfg, b, xs), ys)
  {
    if ys == [] {
      assert xs + ys == xs;
    } else {
      RunConcat(cfg, b, xs, ys[..|ys| - 1]);
      assert (xs + ys)[..|xs + ys| - 1] == xs + ys[..|ys| - 1];
    }
  }

  predicate FirstStart(b: BotV) {
    && b.orders == [] && b.nextId == 1 && b.risk == NEW_STATE && b.rows == []
    && b.placed == [] && b.dedup == map[] && b.guard == None
  }

  // ---------------------------------------- executor, journal and ledger agree

  function BookedRisk(o: OrderV): real {
    if o.status == OPEN && o.extra.booked.Some? then o.extra.booked.value else 0.0
  }

  function OpenHeat(orders: seq<OrderV>): real {
    if orders == [] then 0.0 else OpenHeat(orders[..|orders| - 1]) + BookedRisk(orders[|orders| - 1])
  }

  function OpenCount(orders: seq<OrderV>): int {
    if orders == [] then 0
    else OpenCount(orders[..|orders| - 1]) + if orders[|orders| - 1].status == OPEN then 1 else 0
  }

  /** The i-th order and the i-th journal row describe the same trade. */
  predicate InStepAt(o: OrderV, r: Row, i: nat) {
    && o.id == r.id == i + 1
    && o.symbol == r.symbol && o.side == r.side && o.lot == r.lot && o.entry == r.entry
    && o.stop == r.stop && o.target == r.target && o.status == r.status
    && o.status in {OPEN, CLOSED}
    && (o.status == OPEN <==> r.closedAt.None?)
    && (o.status == OPEN ==> o.extra.booked.Some? && o.extra.booked.value >= 0.0)
  }

  ghost predicate RowsInStep(b: BotV) {
    && b.nextId == |b.orders| + 1
    && |b.rows| == |b.orders|
    && forall i :: 0 <= i < |b.orders| ==> InStepAt(b.orders[i], b.rows[i], i)
  }

  /** The ledger equals the open orders and respects both caps. */
  ghost predicate LedgerInStep(lim: RiskLimits, b: BotV) {
    && b.risk.count == OpenCount(b.orders)
    && b.risk.heat == OpenHeat(b.orders)
    && (b.risk.count > 0 ==> b.risk.count <= lim.maxOpenTrades && b.risk.heat <= lim.maxHeat)
  }

  ghost predicate InStep(lim: RiskLimits, b: BotV) {
    RowsInStep(b) && LedgerInStep(lim, b)
  }

  lemma {:induction false} UpdateTotals(orders: seq<OrderV>, i: nat, o: OrderV)
    requires i < |orders|
    ensures OpenHeat(orders[i := o]) == OpenHeat(orders) - BookedRisk(orders[i]) + BookedRisk(o)
    ensures OpenCount(orders[i := o]) ==
            OpenCount(orders) - (if orders[i].status == OPEN then 1 else 0) + if o.status == OPEN then 1 else 0
  {
    var n := |orders| - 1;
    if i == n {
      assert orders[i := o][..n] == orders[..n];
    } else {
      UpdateTotals(orders[..n], i, o);
      assert orders[i := o][..n] == orders[..n][i := o];
    }
  }

  /** The clamps at zero never fire: what is refunded is part of the total. */
  lemma {:induction false} TotalsCover(orders: seq<OrderV>, i: nat)
    requires i < |orders| && orders[i].status == OPEN
    requires forall k :: 0 <= k < |orders| ==> BookedRisk(orders[k]) >= 0.0
    ensures OpenHeat(orders) >= BookedRisk(orders[i])
    ensures OpenCount(orders) >= 1
  {
    var n := |orders| - 1;
    NonNegative(orders[..n]);
    if i < n { TotalsCover(orders[..n], i); }
  }

  lemma {:induction false} NonNegative(orders: seq<OrderV>)
    requires forall k :: 0 <= k < |orders| ==> BookedRisk(orders[k]) >= 0.0
    ensures OpenHeat(orders) >= 0.0 && OpenCount(orders) >= 0
    ensures OpenCount(orders) == 0 ==> OpenHeat(orders) == 0.0
  {
    if orders != [] { NonNegative(orders[..|orders| - 1]); }
  }

  lemma TrailKeepsInStep(lim: RiskLimits, pol: StopPolicy, b: BotV, i: nat, bar: Bar, now: int)
    requires InStep(lim, b) && IsOpenAt(b, i)
    ensures InStep(lim, TrailOrder(pol, b, i, bar, now))
  {
    var b' := TrailOrder(pol, b, i, bar, now);
    UpdateTotals(b.orders, i, b'.orders[i]);
    forall k | 0 <= k < |b'.orders| ensures InStepAt(b'.orders[k], b'.rows[k], k) {
      assert InStepAt(b.orders[k], b.rows[k], k);
    }
  }

  lemma CloseKeepsInStep(lim: RiskLimits, b: BotV, i: nat, reason: CloseReason, now: int)
    requires InStep(lim, b) && IsOpenAt(b, i)
    ensures InStep(lim, CloseOrder(lim, b, i, reason, now))
    ensures var b' := CloseOrder(lim, b, i, reason, now);
            b'.risk.count == b.risk.count - 1 && b'.risk.heat == b.risk.heat - b.orders[i].extra.booked.value
  {
    var b' := CloseOrder(lim, b, i, reason, now);
    assert InStepAt(b.orders[i], b.rows[i], i);
    forall k | 0 <= k < |b.orders| ensures BookedRisk(b.orders[k]) >= 0.0 {
      assert InStepAt(b.orders[k], b.rows[k], k);
    }
    TotalsCover(b.orders, i);
    UpdateTotals(b.orders, i, b'.orders[i]);
    forall k | 0 <= k < |b'.orders| ensures InStepAt(b'.orders[k], b'.rows[k], k) {
      assert InStepAt(b.orders[k], b.rows[k], k);
    }
  }

  lemma PlaceKeepsInStep(cfg: Config, b: BotV, s: Signal, lots: real, ctx: Context)
    requires s.stop.Some? && s.target.Some? && InStep(cfg.limits, b)
    requires var booked := RiskEstimate(s.price, s.stop.value, lots, cfg.pips(s.symbol), b.balance);
             b.risk.count + 1 <= cfg.limits.maxOpenTrades && booked >= 0.0 && b.risk.heat + booked <= cfg.limits.maxHeat
    ensures InStep(cfg.limits, PlaceOrder(cfg, b, s, lots, ctx).0)
    ensures PlaceOrder(cfg, b, s, lots, ctx).1 == Placed
  {
    var b' := PlaceOrder(cfg, b, s, lots, ctx).0;
    forall k | 0 <= k < |b.rows| ensures b.rows[k].id != b.nextId {
      assert InStepAt(b.orders[k], b.rows[k], k);
    }
    var n := |b.orders|;
    assert b'.orders[..n] == b.orders;
    forall k | 0 <= k < |b'.orders| ensures InStepAt(b'.orders[k], b'.rows[k], k) {
      if k < n { assert InStepAt(b.orders[k], b.rows[k], k); }
    }
  }

  lemma SignalKeepsInStep(cfg: Config, b: BotV, s: Signal, ctx: Context)
    requires InStep(cfg.limits, b)
    ensures InStep(cfg.limits, HandleSignal(cfg, b, s, ctx).0)
  {
    if s.stop.Some? && s.target.Some? && !AlreadyActed(b, s) && !ctx.alertOnly && !OppositeOpen(b.orders, s) {
      var b1 := b.(dedup := b.dedup[(s.strategy, s.symbol) := (s.ts, s.side)], risk := Reset(b.risk, ctx.env.today));
      var c := CandidateOf(cfg, s, ctx.weight);
      var open := Snapshot(b1.orders, cfg.limits.riskPerTrade);
      var guard := GuardOf(cfg, b1);
      var d := Evaluate(cfg.limits, b1.risk, b1.balance, c, open, ctx.env, guard);
      if d.Approved? {
        ApprovalLeavesRoom(cfg.limits, b1.risk, b1.balance, c, open, ctx.env, guard, s.price, s.stop.value);
        PlaceKeepsInStep(cfg, b1, s, d.lots, ctx);
      }
    }
  }

  lemma StepKeepsInStep(cfg: Config, b: BotV, step: Step)
    requires InStep(cfg.limits, b) && !step.Restarted?
    ensures InStep(cfg.limits, Apply(cfg, b, step))
  {
    match step
    case Trailed(i, bar, now) =>
      if IsOpenAt(b, i) && cfg.stops.Some? { TrailKeepsInStep(cfg.limits, cfg.stops.value, b, i, bar, now); }
    case ClosedOut(i, reason, now) =>
      if IsOpenAt(b, i) { CloseKeepsInStep(cfg.limits, b, i, reason, now); }
    case GuardObserved(_) =>
    case Signalled(s, ctx) => SignalKeepsInStep(cfg, b, s, ctx);
  }

  /** Every state any run of ticks reaches: the executor, the journal and the ledger
      describe the same trades, the heat is exactly the booked risk of the open
      orders, and neither cap is exceeded. */
  lemma {:induction false} EveryRunInStep(cfg: Config, b: BotV, steps: seq<Step>)
    requires InStep(cfg.limits, b)
    requires forall k :: 0 <= k < |steps| ==> !steps[k].Restarted?
    ensures InStep(cfg.limits, Run(cfg, b, steps))
  {
    if steps != [] {
      var b1, step := Run(cfg, b, steps[..|steps| - 1]), steps[|steps| - 1];
      EveryRunInStep(cfg, b, steps[..|steps| - 1]);
      StepKeepsInStep(cfg, b1, step);
    }
  }

  lemma FirstStartInStep(cfg: Config, b: BotV, steps: seq<Step>)
    requires FirstStart(b) && forall k :: 0 <= k < |steps| ==> !steps[k].Restarted?
    ensures InStep(cfg.limits, Run(cfg, b, steps))
  {
    EveryRunInStep(cfg, b, steps);
  }

  // ------------------------------------------------------ across restarts

  /** The step hands an order to the executor. */
  predicate Places(cfg: Config, b: BotV, step: Step) {
    Apply(cfg, b, step).placed != b.placed
  }

  /** It does so under an id the journal already holds: the in-memory executor numbers its
      orders from 1 in every process, and the journal outlives the process. */
  predicate Collides(cfg: Config, b: BotV, step: Step) {
    Places(cfg, b, step) && HasId(b.rows, b.nextId)
  }

  /** Booking depends on the journal accepting the id: with an id already taken the
      position is open, yet neither counted nor booked. */
  lemma BookedIffIdFree(cfg: Config, b: BotV, s: Signal, lots: real, ctx: Context)
    requires s.stop.Some? && s.target.Some? && b.risk.count == OpenCount(b.orders)
    ensures var b' := PlaceOrder(cfg, b, s, lots, ctx).0;
            b'.risk.count == OpenCount(b'.orders) <==> !HasId(b.rows, b.nextId)
  {
    var b' := PlaceOrder(cfg, b, s, lots, ctx).0;
    assert b'.orders[..|b.orders|] == b.orders;
  }

  /** Whether the running process began with rows already in its journal. */
  predicate Inherited(cfg: Config, b: BotV, steps: seq<Step>) {
    if steps == [] then b.rows != []
    else
      var before := steps[..|steps| - 1];
      if steps[|steps| - 1].Restarted? then Run(cfg, b, before).rows != [] else Inherited(cfg, b, before)
  }

  /** What holds until the first collision: in a process that began with an empty journal all
      three books agree; in one that inherited rows nothing has been placed, and id 1 is taken. */
  ghost predicate Follows(lim: RiskLimits, b: BotV, inherited: bool) {
    && LedgerInStep(lim, b)
    && (forall r :: r in b.rows ==> r.ticket == None)
    && if inherited then b.orders == [] && b.nextId == 1 && HasId(b.rows, 1) else RowsInStep(b)
  }

  /** The ledger is exact: it equals the open orders, respects both caps, and every open order
      carries its booking. The journal is not looked at. */
  ghost predicate LedgerExact(lim: RiskLimits, b: BotV) {
    && LedgerInStep(lim, b)
    && forall o :: o in b.orders && o.status == OPEN ==> o.extra.booked.Some?
  }

  /** The row tells the order's trade as it stands. */
  predicate Describes(r: Row, o: OrderV) {
    && r.id == o.id && r.symbol == o.symbol && r.side == o.side && r.lot == o.lot && r.entry == o.entry
    && r.stop == o.stop && r.target == o.target && r.status == o.status
  }

  predicate Recorded(rows: seq<Row>, o: OrderV) {
    exists r :: r in rows && Describes(r, o)
  }

  predicate Backed(orders: seq<OrderV>, r: Row) {
    exists o :: o in orders && Describes(r, o)
  }

  /** The open rows of the journal are the open orders, one for the other. */
  ghost predicate JournalAgrees(b: BotV) {
    && (forall o {:trigger Recorded(b.rows, o)} :: o in b.orders && o.status == OPEN ==> Recorded(b.rows, o))
    && (forall r {:trigger Backed(b.orders, r)} :: r in b.rows && r.status == OPEN ==> Backed(b.orders, r))
  }

  predicate HasOpen(orders: seq<OrderV>) {
    exists o :: o in orders && o.status == OPEN
  }

  /** A restart that loses an open order: its row stays OPEN with no order behind it. */
  predicate Orphans(b: BotV, step: Step) {
    step.Restarted? && HasOpen(b.orders)
  }

  lemma FreeInOwnJournal(b: BotV)
    requires RowsInStep(b)
    ensures !HasId(b.rows, b.nextId)
  {
    forall k | 0 <= k < |b.rows| ensures b.rows[k].id != b.nextId {
      assert InStepAt(b.orders[k], b.rows[k], k);
    }
  }

  lemma RestartCollides(cfg: Config, b: BotV, balance: real)
    requires RowsInStep(b) && b.orders != []
    ensures HasId(Restart(cfg, b, balance).rows, Restart(cfg, b, balance).nextId)
  {
    assert InStepAt(b.orders[0], b.rows[0], 0);
  }

  lemma {:induction false} NothingToSeed(rows: seq<Row>)
    requires forall r :: r in rows ==> r.ticket == None
    ensures ListOpen(rows) == []
  {
    if rows != [] {
      NothingToSeed(rows[..|rows| - 1]);
    }
  }

  lemma RestartFollows(cfg: Config, b: BotV, inherited: bool, balance: real)
    requires Follows(cfg.limits, b, inherited)
    ensures Follows(cfg.limits, Restart(cfg, b, balance), b.rows != [])
  {
    NothingToSeed(b.rows);
    if !inherited && b.rows != [] {
      RestartCollides(cfg, b, balance);
    }
  }

  /** The tickets stay empty: no order of the in-memory executor has one. */
  lemma TicketsStayEmpty(cfg: Config, b: BotV, step: Step)
    requires forall r :: r in b.rows ==> r.ticket == None
    ensures forall r :: r in Apply(cfg, b, step).rows ==> r.ticket == None
  {
  }

  /** A signal in a process that inherited its journal: nothing happens, or a collision. */
  lemma SignalAfterInheriting(cfg: Config, b: BotV, s: Signal, ctx: Context)
    requires Follows(cfg.limits, b, true)
    ensures var b' := HandleSignal(cfg, b, s, ctx).0;
            if b'.placed == b.placed
            then b'.orders == [] && b'.nextId == 1 && b'.rows == b.rows && LedgerInStep(cfg.limits, b')
            else !LedgerInStep(cfg.limits, b')
  {
    assert b.orders + [] == b.orders;
  }

  lemma StepAfterInheriting(cfg: Config, b: BotV, step: Step)
    requires Follows(cfg.limits, b, true) && !step.Restarted?
    ensures if Collides(cfg, b, step) then !LedgerInStep(cfg.limits, Apply(cfg, b, step))
            else Follows(cfg.limits, Apply(cfg, b, step), true)
  {
    TicketsStayEmpty(cfg, b, step);
    if step.Signalled? {
      SignalAfterInheriting(cfg, b, step.signal, step.ctx);
    }
  }

  lemma StepInOwnJournal(cfg: Config, b: BotV, step: Step)
    requires Follows(cfg.limits, b, false) && !step.Restarted?
    ensures !Collides(cfg, b, step) && Follows(cfg.limits, Apply(cfg, b, step), false)
  {
    TicketsStayEmpty(cfg, b, step);
    FreeInOwnJournal(b);
    StepKeepsInStep(cfg, b, step);
  }

  /** What one step does, a restart included: it collides exactly when it places an order in
      a process that inherited its journal, and the ledger is exact after it exactly when it
      does not. */
  lemma StepFollows(cfg: Config, b: BotV, inherited: bool, step: Step)
    requires Follows(cfg.limits, b, inherited)
    ensures Collides(cfg, b, step) <==> inherited && Places(cfg, b, step)
    ensures LedgerExact(cfg.limits, Apply(cfg, b, step)) <==> !Collides(cfg, b, step)
    ensures !Collides(cfg, b, step) ==>
              Follows(cfg.limits, Apply(cfg, b, step), if step.Restarted? then b.rows != [] else inherited)
  {
    if step.Restarted? {
      RestartFollows(cfg, b, inherited, step.balance);
    } else if inherited {
      StepAfterInheriting(cfg, b, step);
    } else {
      StepInOwnJournal(cfg, b, step);
    }
    if !Collides(cfg, b, step) {
      FollowsIsExact(cfg.limits, Apply(cfg, b, step), if step.Restarted? then b.rows != [] else inherited);
    }
  }

  lemma FollowsIsExact(lim: RiskLimits, b: BotV, inherited: bool)
    requires Follows(lim, b, inherited)
    ensures LedgerExact(lim, b)
    ensures !inherited ==> JournalAgrees(b)
  {
    if !inherited {
      RowsAgree(b);
    }
  }

  lemma RowsAgree(b: BotV)
    requires RowsInStep(b)
    ensures JournalAgrees(b)
    ensures forall o :: o in b.orders && o.status == OPEN ==> o.extra.booked.Some?
  {
    forall o | o in b.orders
      ensures Recorded(b.rows, o)
      ensures o.status == OPEN ==> o.extra.booked.Some?
    {
      var k :| 0 <= k < |b.orders| && b.orders[k] == o;
      assert InStepAt(b.orders[k], b.rows[k], k) && b.rows[k] in b.rows;
    }
    forall r | r in b.rows ensures Backed(b.orders, r) {
      var k :| 0 <= k < |b.rows| && b.rows[k] == r;
      assert InStepAt(b.orders[k], b.rows[k], k) && b.orders[k] in b.orders;
    }
  }

  /** What one step does to the journal: it goes on agreeing unless the step is a restart over
      an open order. */
  lemma StepAgrees(cfg: Config, b: BotV, inherited: bool, step: Step)
    requires Follows(cfg.limits, b, inherited) && JournalAgrees(b) && !Collides(cfg, b, step)
    ensures JournalAgrees(Apply(cfg, b, step)) <==> !Orphans(b, step)
  {
    if step.Restarted? {
      RestartAgreesIff(cfg, b, step.balance);
    } else if inherited {
      InheritedStepAgrees(cfg, b, step);
    } else {
      OwnStepAgrees(cfg, b, step);
    }
  }

  lemma OwnStepAgrees(cfg: Config, b: BotV, step: Step)
    requires Follows(cfg.limits, b, false) && !step.Restarted?
    ensures JournalAgrees(Apply(cfg, b, step))
  {
    StepInOwnJournal(cfg, b, step);
    RowsAgree(Apply(cfg, b, step));
  }

  lemma InheritedStepAgrees(cfg: Config, b: BotV, step: Step)
    requires Follows(cfg.limits, b, true) && JournalAgrees(b) && !step.Restarted? && !Collides(cfg, b, step)
    ensures JournalAgrees(Apply(cfg, b, step))
  {
    InheritedStepKeeps(cfg, b, step);
    SameBooksAgree(b, Apply(cfg, b, step));
  }

  lemma InheritedStepKeeps(cfg: Config, b: BotV, step: Step)
    requires Follows(cfg.limits, b, true) && !step.Restarted? && !Collides(cfg, b, step)
    ensures var b' := Apply(cfg, b, step); b'.orders == b.orders && b'.rows == b.rows
  {
    StepAfterInheriting(cfg, b, step);
    if step.Signalled? {
      SignalAfterInheriting(cfg, b, step.signal, step.ctx);
    }
  }

  lemma SameBooksAgree(b: BotV, b': BotV)
    requires b'.orders == b.orders && b'.rows == b.rows && JournalAgrees(b)
    ensures JournalAgrees(b')
  {
  }

  lemma RestartAgreesIff(cfg: Config, b: BotV, balance: real)
    requires JournalAgrees(b)
    ensures JournalAgrees(Restart(cfg, b, balance)) <==> !HasOpen(b.orders)
  {
    if HasOpen(b.orders) {
      var o :| o in b.orders && o.status == OPEN;
      assert Recorded(b.rows, o);
      var r :| r in b.rows && Describes(r, o);
      assert r.status == OPEN && !Backed([], r);
    } else {
      forall r | r in b.rows ensures r.status != OPEN {
        assert r.status == OPEN ==> Backed(b.orders, r);
      }
    }
  }

  /** The ledger is exact at every moment of the run. */
  ghost predicate AlwaysExact(cfg: Config, b: BotV, steps: seq<Step>) {
    LedgerExact(cfg.limits, Run(cfg, b, steps)) && (steps == [] || AlwaysExact(cfg, b, steps[..|steps| - 1]))
  }

  /** The journal agrees with the open orders at every moment of the run. */
  ghost predicate AlwaysAgrees(cfg: Config, b: BotV, steps: seq<Step>) {
    JournalAgrees(Run(cfg, b, steps)) && (steps == [] || AlwaysAgrees(cfg, b, steps[..|steps| - 1]))
  }

  /** No restart of the run finds an open order. */
  ghost predicate NeverOrphans(cfg: Config, b: BotV, steps: seq<Step>) {
    steps == [] ||
    (NeverOrphans(cfg, b, steps[..|steps| - 1]) &&
     !Orphans(Run(cfg, b, steps[..|steps| - 1]), steps[|steps| - 1]))
  }

  ghost predicate NeverCollides(cfg: Config, b: BotV, steps: seq<Step>) {
    steps == [] ||
    (NeverCollides(cfg, b, steps[..|steps| - 1]) &&
     !Collides(cfg, Run(cfg, b, steps[..|steps| - 1]), steps[|steps| - 1]))
  }

  /** No order is placed by a process that began with rows in its journal. */
  ghost predicate OnlyFreshTrade(cfg: Config, b: BotV, steps: seq<Step>) {
    steps == [] ||
    (var before := steps[..|steps| - 1];
     OnlyFreshTrade(cfg, b, before) &&
     !(Inherited(cfg, b, before) && Places(cfg, Run(cfg, b, before), steps[|steps| - 1])))
  }

  /** The ledger alone. Over any run from a first start, restarts included, it is exact at
      every moment exactly when no order is placed under a taken id; that is, exactly when
      every process that began with rows in its journal places nothing. */
  lemma {:induction false} LedgerExactIff(cfg: Config, b: BotV, steps: seq<Step>)
    requires FirstStart(b)
    ensures AlwaysExact(cfg, b, steps) <==> NeverCollides(cfg, b, steps)
    ensures NeverCollides(cfg, b, steps) <==> OnlyFreshTrade(cfg, b, steps)
    ensures NeverCollides(cfg, b, steps) ==> Follows(cfg.limits, Run(cfg, b, steps), Inherited(cfg, b, steps))
  {
    if steps == [] {
      FollowsIsExact(cfg.limits, b, false);
    } else {
      var before, step := steps[..|steps| - 1], steps[|steps| - 1];
      LedgerExactIff(cfg, b, before);
      if NeverCollides(cfg, b, before) {
        StepFollows(cfg, Run(cfg, b, before), Inherited(cfg, b, before), step);
      }
    }
  }

  /** All three books. Over any run from a first start the ledger, the journal and the open
      orders agree at every moment exactly when no order is placed under a taken id and no
      restart finds an open order. */
  lemma {:induction false} EveryRunAgreesIff(cfg: Config, b: BotV, steps: seq<Step>)
    requires FirstStart(b)
    ensures AlwaysExact(cfg, b, steps) && AlwaysAgrees(cfg, b, steps) <==>
            NeverCollides(cfg, b, steps) && NeverOrphans(cfg, b, steps)
  {
    LedgerExactIff(cfg, b, steps);
    if steps != [] {
      var before, step := steps[..|steps| - 1], steps[|steps| - 1];
      EveryRunAgreesIff(cfg, b, before);
      LedgerExactIff(cfg, b, before);
      if NeverCollides(cfg, b, steps) && NeverOrphans(cfg, b, before) {
        AgreesNow(cfg, b, before);
        StepAgrees(cfg, Run(cfg, b, before), Inherited(cfg, b, before), step);
      }
    }
  }

  lemma AgreesNow(cfg: Config, b: BotV, steps: seq<Step>)
    requires AlwaysAgrees(cfg, b, steps)
    ensures JournalAgrees(Run(cfg, b, steps))
  {
  }

  // ------------------------------------------------------ two runs that fail

  lemma TwoSteps(cfg: Config, b: BotV, s1: Step, s2: Step)
    ensures Run(cfg, b, [s1]) == Apply(cfg, b, s1)
    ensures Run(cfg, b, [s1, s2]) == Apply(cfg, Apply(cfg, b, s1), s2)
  {
    assert [s1][..0] == [] && [s1, s2][..1] == [s1];
  }

  lemma TwoStepsNever(cfg: Config, b: BotV, s1: Step, s2: Step)
    ensures NeverCollides(cfg, b, [s1, s2]) <==> !Collides(cfg, b, s1) && !Collides(cfg, Apply(cfg, b, s1), s2)
    ensures NeverOrphans(cfg, b, [s1, s2]) <==> !Orphans(b, s1) && !Orphans(Apply(cfg, b, s1), s2)
  {
    assert [s1][..0] == [] && [s1, s2][..1] == [s1];
    assert NeverCollides(cfg, b, [s1]) <==> !Collides(cfg, b, s1);
    assert NeverOrphans(cfg, b, [s1]) <==> !Orphans(b, s1);
  }

  /** What placing leaves behind, taken id or not. */
  lemma PlacedLeaves(cfg: Config, b: BotV, s: Signal, lots: real, ctx: Context)
    requires s.stop.Some? && s.target.Some?
    ensures var b' := PlaceOrder(cfg, b, s, lots, ctx).0;
            && |b'.placed| == |b.placed| + 1 && HasOpen(b'.orders)
            && b'.rows == (if HasId(b.rows, b.nextId) then b.rows
                           else b.rows + [OpenRow(NewOrder(s, b.nextId, lots, ctx))])
  {
    var b', n := PlaceOrder(cfg, b, s, lots, ctx).0, |b.orders|;
    assert b'.orders[n] in b'.orders && b'.orders[n].status == OPEN;
  }

  /** The first order of a new bot: open, and in the journal under id 1. */
  lemma FirstOrder(cfg: Config, b: BotV, step: Step)
    requires FirstStart(b) && Places(cfg, b, step)
    ensures var b' := Apply(cfg, b, step);
            && HasOpen(b'.orders) && |b'.rows| == 1 && b'.dedup == map[(step.signal.strategy, step.signal.symbol) :=
                                                                       (step.signal.ts, step.signal.side)]
            && b'.rows[0].id == 1 && b'.rows[0].status == OPEN && b'.rows[0].ticket == None
  {
    var s, ctx := step.signal, step.ctx;
    var b1 := b.(dedup := b.dedup[(s.strategy, s.symbol) := (s.ts, s.side)], risk := Reset(b.risk, ctx.env.today));
    var d := Evaluate(cfg.limits, b1.risk, b1.balance, CandidateOf(cfg, s, ctx.weight),
                      Snapshot(b1.orders, cfg.limits.riskPerTrade), ctx.env, GuardOf(cfg, b1));
    PlacedLeaves(cfg, b1, s, d.lots, ctx);
  }

  /** One order and a restart: the ledger is exact throughout and no id is taken twice, yet the
      journal ends with an OPEN row that no order has. */
  lemma OrphanRun(cfg: Config, b: BotV, placing: Step, balance: real)
    requires FirstStart(b) && Places(cfg, b, placing)
    ensures var steps := [placing, Restarted(balance)];
            var end := Run(cfg, b, steps);
            && AlwaysExact(cfg, b, steps) && NeverCollides(cfg, b, steps) && !NeverOrphans(cfg, b, steps)
            && end.orders == [] && |end.rows| == 1 && end.rows[0].status == OPEN
  {
    TwoSteps(cfg, b, placing, Restarted(balance));
    FirstOrder(cfg, b, placing);
    OrphanLedger(cfg, b, placing, balance);
  }

  lemma OrphanLedger(cfg: Config, b: BotV, placing: Step, balance: real)
    requires FirstStart(b) && HasOpen(Apply(cfg, b, placing).orders)
    ensures var steps := [placing, Restarted(balance)];
            AlwaysExact(cfg, b, steps) && NeverCollides(cfg, b, steps) && !NeverOrphans(cfg, b, steps)
  {
    TwoStepsNever(cfg, b, placing, Restarted(balance));
    LedgerExactIff(cfg, b, [placing, Restarted(balance)]);
  }

  /** The state that restart leaves. */
  lemma AfterRestart(cfg: Config, b: BotV, first: Step, balance: real)
    requires FirstStart(b) && Places(cfg, b, first)
    ensures var b2 := Run(cfg, b, [first, Restarted(balance)]);
            && b2.orders == [] && b2.balance == balance && b2.risk == NEW_STATE
            && b2.dedup == map[(first.signal.strategy, first.signal.symbol) := (first.signal.ts, first.signal.side)]
            && Follows(cfg.limits, b2, true)
  {
    TwoSteps(cfg, b, first, Restarted(balance));
    FirstOrder(cfg, b, first);
    RestartEmpties(cfg, Apply(cfg, b, first), balance);
  }

  lemma RestartEmpties(cfg: Config, b: BotV, balance: real)
    requires |b.rows| == 1 && b.rows[0].id == 1 && b.rows[0].ticket == None
    ensures var b' := Restart(cfg, b, balance);
            b'.orders == [] && b'.balance == balance && b'.risk == NEW_STATE && Follows(cfg.limits, b', true)
  {
    NothingToSeed(b.rows);
  }

  /** An order, a restart and an order: the second one is placed under the taken id 1. It is
      open, and the ledger does not count it. */
  lemma CollisionRun(cfg: Config, b: BotV, first: Step, balance: real, second: Step)
    requires FirstStart(b) && Places(cfg, b, first)
    requires Places(cfg, Run(cfg, b, [first, Restarted(balance)]), second)
    ensures var b2 := Run(cfg, b, [first, Restarted(balance)]);
            && Collides(cfg, b2, second)
            && !LedgerInStep(cfg.limits, Apply(cfg, b2, second))
  {
    AfterRestart(cfg, b, first, balance);
    InheritedCollides(cfg, Run(cfg, b, [first, Restarted(balance)]), second);
  }

  lemma InheritedCollides(cfg: Config, b: BotV, step: Step)
    requires Follows(cfg.limits, b, true) && Places(cfg, b, step)
    ensures Collides(cfg, b, step) && !LedgerInStep(cfg.limits, Apply(cfg, b, step))
  {
    StepAfterInheriting(cfg, b, step);
  }

  const PLAIN := Config(RiskLimits(0.01, 5, 0.05, 0.06, 100.0, 0.0), None, None, _ => PipInfo(1.0, 100.0))
  const QUIET := Context(1.0, false, Environment(0, false, None, (_: string, _: string) => None), 0)

  /** A buy one pip above its stop on the given bar. */
  function PlainSignal(ts: int): Signal {
    Signal("A", "X", Buy, ts, 2.0, Some(1.0), Some(3.0))
  }

  /** Nothing open, nothing booked, 10000 on the account. */
  predicate Flat(b: BotV) {
    b.orders == [] && b.balance == 10000.0 && b.risk.count == 0 && b.risk.heat == 0.0 && b.risk.dailyPnl == 0.0
  }

  /** The gates' answer to a signal that reaches them. */
  function DecisionOn(cfg: Config, b: BotV, s: Signal, ctx: Context): Decision
    requires s.stop.Some?
  {
    Evaluate(cfg.limits, Reset(b.risk, ctx.env.today), b.balance, CandidateOf(cfg, s, ctx.weight),
             Snapshot(b.orders, cfg.limits.riskPerTrade), ctx.env, GuardOf(cfg, b))
  }

  lemma ApprovedPlaces(cfg: Config, b: BotV, s: Signal, ctx: Context)
    requires s.stop.Some? && s.target.Some? && !AlreadyActed(b, s) && !ctx.alertOnly && b.orders == []
    requires DecisionOn(cfg, b, s, ctx).Approved?
    ensures Places(cfg, b, Signalled(s, ctx))
  {
    var b1 := b.(dedup := b.dedup[(s.strategy, s.symbol) := (s.ts, s.side)], risk := Reset(b.risk, ctx.env.today));
    PlacedLeaves(cfg, b1, s, DecisionOn(cfg, b, s, ctx).lots, ctx);
  }

  lemma PlainIsApproved(b: BotV, ts: int)
    requires Flat(b)
    ensures DecisionOn(PLAIN, b, PlainSignal(ts), QUIET) == Approved(1.0)
  {
    assert CandidateOf(PLAIN, PlainSignal(ts), 1.0).stopPips == 1.0;
    assert Quotient(100.0, 100.0) == 1.0;
    RoundedWhole(100);
    assert GridLots(1.0, DEFAULT_LIMITS) == 1.0;
  }

  /** Both runs happen: with ordinary limits and 10000 on the account, a buy on bar 1, a
      restart, and a buy on bar 2. */
  lemma RestartExample(b: BotV)
    requires FirstStart(b) && b.balance == 10000.0
    ensures var first, second := Signalled(PlainSignal(1), QUIET), Signalled(PlainSignal(2), QUIET);
            Places(PLAIN, b, first) && Places(PLAIN, Run(PLAIN, b, [first, Restarted(10000.0)]), second)
  {
    var first, again := Signalled(PlainSignal(1), QUIET), Restarted(10000.0);
    PlainIsApproved(b, 1);
    ApprovedPlaces(PLAIN, b, PlainSignal(1), QUIET);
    AfterRestart(PLAIN, b, first, 10000.0);
    var b2 := Run(PLAIN, b, [first, again]);
    PlainIsApproved(b2, 2);
    ApprovedPlaces(PLAIN, b2, PlainSignal(2), QUIET);
  }

  // --------------------------------------------------- one side per symbol

  ghost predicate OneSidePerSymbol(orders: seq<OrderV>) {
    forall i, j ::
      0 <= i < |orders| && 0 <= j < |orders| && orders[i].status == orders[j].status == OPEN
          && orders[i].symbol == orders[j].symbol
      ==> orders[i].side == orders[j].side
  }

  /** Opening an order keeps one side per symbol exactly when no opposite order is
      open; the guard refuses precisely the others. */
  lemma OpeningKeepsOneSideIff(orders: seq<OrderV>, o: OrderV, s: Signal)
    requires OneSidePerSymbol(orders) && o.status == OPEN && o.symbol == s.symbol && o.side == s.side
    ensures OneSidePerSymbol(orders + [o]) <==> !OppositeOpen(orders, s)
  {
    var all := orders + [o];
    assert forall i :: 0 <= i < |orders| ==> all[i] == orders[i];
    assert all[|orders|] == o;
  }

  /** Over all strategies and any interleaving, restarts included, the open orders on
      a symbol are on the same side. */
  lemma {:induction false} EveryRunOneSided(cfg: Config, b: BotV, steps: seq<Step>)
    requires OneSidePerSymbol(b.orders)
    ensures OneSidePerSymbol(Run(cfg, b, steps).orders)
  {
    if steps != [] {
      var b1, step := Run(cfg, b, steps[..|steps| - 1]), steps[|steps| - 1];
      EveryRunOneSided(cfg, b, steps[..|steps| - 1]);
      if step.Signalled? {
        var s, b2 := step.signal, Apply(cfg, b1, step);
        if |b2.orders| > |b1.orders| {
          assert b2.orders == b1.orders + [b2.orders[|b1.orders|]];
          OpeningKeepsOneSideIff(b1.orders, b2.orders[|b1.orders|], s);
        }
      }
    }
  }

  // ------------------------------------------------- one order per setup

  /** The signal reaches the dedup gate. */
  predicate Actionable(step: Step) {
    step.Signalled? && step.signal.stop.Some? && step.signal.target.Some?
  }

  predicate SignalledOn(steps: seq<Step>, k: int, key: (string, string)) {
    0 <= k < |steps| && Actionable(steps[k]) && (steps[k].signal.strategy, steps[k].signal.symbol) == key
  }

  /** The environment's promise: on one (strategy, symbol) the signals of a bar come
      together, with no other bar's signal between them. */
  ghost predicate BarsContiguous(steps: seq<Step>) {
    forall key, i, j, k ::
      i < j < k && SignalledOn(steps, i, key) && SignalledOn(steps, j, key) && SignalledOn(steps, k, key) &&
      steps[i].signal.ts == steps[k].signal.ts
      ==> steps[j].signal.ts == steps[i].signal.ts
  }

  ghost predicate BarsNeverGoBack(steps: seq<Step>) {
    forall key, i, j :: i < j && SignalledOn(steps, i, key) && SignalledOn(steps, j, key)
      ==> steps[i].signal.ts <= steps[j].signal.ts
  }

  lemma ForwardIsContiguous(steps: seq<Step>)
    requires BarsNeverGoBack(steps)
    ensures BarsContiguous(steps)
  {
  }

  ghost predicate AtMostOnce(placed: seq<Setup>) {
    forall i, j :: 0 <= i < j < |placed| ==> placed[i] != placed[j]
  }

  /** Bar of the latest signal on `key`. */
  function LatestTs(steps: seq<Step>, key: (string, string)): Option<int> {
    if steps == [] then None
    else if SignalledOn(steps, |steps| - 1, key) then Some(steps[|steps| - 1].signal.ts)
    else LatestTs(steps[..|steps| - 1], key)
  }

  lemma {:induction false} LatestIsLast(steps: seq<Step>, key: (string, string), i: int)
    requires SignalledOn(steps, i, key)
    ensures exists j :: i <= j && SignalledOn(steps, j, key) && LatestTs(steps, key) == Some(steps[j].signal.ts)
  {
    var n := |steps| - 1;
    if !SignalledOn(steps, n, key) {
      LatestIsLast(steps[..n], key, i);
      var j :| i <= j && SignalledOn(steps[..n], j, key) && LatestTs(steps[..n], key) == Some(steps[..n][j].signal.ts);
      assert SignalledOn(steps, j, key);
    } else {
      assert i <= n && SignalledOn(steps, n, key);
    }
  }

  ghost predicate WasSignalled(steps: seq<Step>, setup: Setup) {
    exists k :: SignalledOn(steps, k, (setup.0, setup.1)) && steps[k].signal.ts == setup.2
  }

  /** Every placed setup was signalled; the store knows each key's latest bar, and
      only that. */
  ghost predicate StoreTracks(steps: seq<Step>, b: BotV) {
    && (forall i :: 0 <= i < |b.placed| ==> WasSignalled(steps, b.placed[i]))
    && TableTracksLatest(steps, b.dedup)
  }

  lemma SignalledLater(before: seq<Step>, step: Step, setup: Setup)
    requires WasSignalled(before, setup)
    ensures WasSignalled(before + [step], setup)
  {
    var k :| SignalledOn(before, k, (setup.0, setup.1)) && before[k].signal.ts == setup.2;
    assert SignalledOn(before + [step], k, (setup.0, setup.1));
  }

  /** A setup whose bar is not the latest one on its key is new, if bars are contiguous. */
  lemma NewSetup(before: seq<Step>, step: Step, setup: Setup)
    requires BarsContiguous(before + [step]) && Actionable(step)
    requires setup == (step.signal.strategy, step.signal.symbol, step.signal.ts)
    requires LatestTs(before, (setup.0, setup.1)) != Some(setup.2)
    ensures !WasSignalled(before, setup)
  {
    var key := (setup.0, setup.1);
    if WasSignalled(before, setup) {
      var i :| SignalledOn(before, i, key) && before[i].signal.ts == setup.2;
      LatestIsLast(before, key, i);
      var j :| i <= j && SignalledOn(before, j, key) && LatestTs(before, key) == Some(before[j].signal.ts);
      var all := before + [step];
      assert SignalledOn(all, i, key) && SignalledOn(all, j, key) && SignalledOn(all, |before|, key);
      assert false;
    }
  }

  /** What a step does to the order log and the dedup table. */
  lemma StepMarks(cfg: Config, b: BotV, step: Step)
    ensures var b' := Apply(cfg, b, step);
            if !Actionable(step) then b'.placed == b.placed && b'.dedup == b.dedup
            else
              var s := step.signal;
              && (b'.placed == b.placed
                  || (b'.placed == b.placed + [(s.strategy, s.symbol, s.ts)] && !AlreadyActed(b, s)))
              && b'.dedup == if AlreadyActed(b, s) then b.dedup else b.dedup[(s.strategy, s.symbol) := (s.ts, s.side)]
  {
  }

  lemma StepTracks(cfg: Config, before: seq<Step>, step: Step, b: BotV)
    requires BarsContiguous(before + [step]) && StoreTracks(before, b) && AtMostOnce(b.placed)
    ensures StoreTracks(before + [step], Apply(cfg, b, step)) && AtMostOnce(Apply(cfg, b, step).placed)
  {
    var all, b' := before + [step], Apply(cfg, b, step);
    assert all[..|before|] == before && all[|before|] == step;
    forall i | 0 <= i < |b.placed| ensures WasSignalled(all, b.placed[i]) {
      SignalledLater(before, step, b.placed[i]);
    }
    StepMarks(cfg, b, step);
    TableTracks(before, step, b.dedup, b'.dedup);
    if b'.placed != b.placed {
      var s := step.signal;
      var setup := (s.strategy, s.symbol, s.ts);
      assert SignalledOn(all, |before|, (s.strategy, s.symbol));
      NewSetup(before, step, setup);
    }
  }

  ghost predicate TableTracksLatest(steps: seq<Step>, dedup: LastBars) {
    forall key :: LatestTs(steps, key) == if key in dedup then Some(dedup[key].0) else None
  }

  lemma TableTracks(before: seq<Step>, step: Step, dedup: LastBars, dedup': LastBars)
    requires TableTracksLatest(before, dedup)
    requires dedup' == (
      if !Actionable(step) then dedup
      else
        var s := step.signal;
        var key := (s.strategy, s.symbol);
        if key in dedup && dedup[key].0 == s.ts then dedup else dedup[key := (s.ts, s.side)])
    ensures TableTracksLatest(before + [step], dedup')
  {
    assert (before + [step])[..|before|] == before;
  }

  lemma ContiguousPrefix(steps: seq<Step>)
    requires BarsContiguous(steps) && steps != []
    ensures BarsContiguous(steps[..|steps| - 1])
  {
    var before := steps[..|steps| - 1];
    forall key, i, j, k | i < j < k && SignalledOn(before, i, key) && SignalledOn(before, j, key) &&
                          SignalledOn(before, k, key) && before[i].signal.ts == before[k].signal.ts
      ensures before[j].signal.ts == before[i].signal.ts
    {
      assert SignalledOn(steps, i, key) && SignalledOn(steps, j, key) && SignalledOn(steps, k, key);
    }
  }

  /** At most one order per (strategy, symbol, bar) over any run, restarts included,
      although the store remembers only the latest bar of each key. */
  lemma {:induction false} AtMostOneOrderPerBar(cfg: Config, b: BotV, steps: seq<Step>)
    requires FirstStart(b) && BarsContiguous(steps)
    ensures AtMostOnce(Run(cfg, b, steps).placed) && StoreTracks(steps, Run(cfg, b, steps))
  {
    if steps != [] {
      var before, step := steps[..|steps| - 1], steps[|steps| - 1];
      ContiguousPrefix(steps);
      AtMostOneOrderPerBar(cfg, b, before);
      assert before + [step] == steps;
      StepTracks(cfg, before, step, Run(cfg, b, before));
    }
  }

  // ------------------------------------------------- the challenge account

  /** What the guard was told along a run: the balances observed and the trades opened. */
  function GuardHistory(cfg: Config, b: BotV, steps: seq<Step>): seq<PropFirm.Event> {
    if steps == [] then []
    else
      var before, step := steps[..|steps| - 1], steps[|steps| - 1];
      GuardHistory(cfg, b, before) + GuardEvents(cfg, Run(cfg, b, before), step)
  }

  function GuardEvents(cfg: Config, b: BotV, step: Step): seq<PropFirm.Event> {
    match step
    case GuardObserved(day) => [PropFirm.Observe(day, b.balance)]
    case Signalled(s, ctx) =>
      if HandleSignal(cfg, b, s, ctx).1 == Placed then [PropFirm.TradeOpened(ctx.env.today)] else []
    case _ => []
  }

  lemma GuardStep(cfg: Config, b: BotV, step: Step)
    requires cfg.guard.Some?
    ensures var es := GuardEvents(cfg, b, step);
            Apply(cfg, b, step).guard == if es == [] then b.guard else PropFirm.Step(cfg.guard.value, b.guard, es[0])
  {
  }

  /** The stored row is the guard's own run over that history, across restarts. */
  lemma {:induction false} GuardFollows(cfg: Config, b: BotV, steps: seq<Step>)
    requires cfg.guard.Some? && b.guard == None
    ensures Run(cfg, b, steps).guard == PropFirm.Run(cfg.guard.value, GuardHistory(cfg, b, steps))
  {
    if steps != [] {
      var before, step := steps[..|steps| - 1], steps[|steps| - 1];
      GuardFollows(cfg, b, before);
      GuardStep(cfg, Run(cfg, b, before), step);
      var h, es := GuardHistory(cfg, b, before), GuardEvents(cfg, Run(cfg, b, before), step);
      if es == [] {
        assert h + es == h;
      } else {
        assert es == [es[0]] && (h + es)[..|h|] == h;
      }
    }
  }

  /** A killed account places nothing and stays killed. */
  lemma KilledStep(cfg: Config, b: BotV, step: Step)
    requires cfg.guard.Some? && PropFirm.Killed(b.guard)
    ensures Apply(cfg, b, step).placed == b.placed && PropFirm.Killed(Apply(cfg, b, step).guard)
  {
    GuardStep(cfg, b, step);
    if step.Signalled? {
      KilledRefuses(cfg, b, step.signal, step.ctx);
    }
  }

  lemma KilledRefuses(cfg: Config, b: BotV, s: Signal, ctx: Context)
    requires cfg.guard.Some? && PropFirm.Killed(b.guard)
    ensures HandleSignal(cfg, b, s, ctx).0.placed == b.placed
    ensures HandleSignal(cfg, b, s, ctx).0.guard == b.guard
  {
  }

  /** An order is placed only while the correlated heat of the open positions leaves room for
      its risk and the challenge account is alive. */
  lemma PlacementRespectsVetoes(cfg: Config, b: BotV, step: Step)
    requires Places(cfg, b, step)
    ensures step.Signalled? && step.signal.stop.Some?
    ensures var env, open := step.ctx.env, Snapshot(b.orders, cfg.limits.riskPerTrade);
            var c := CandidateOf(cfg, step.signal, step.ctx.weight);
            env.throttle.Some? && env.throttle.value.enabled && open != [] ==>
              var risk := EffectiveRisk(cfg.limits, c);
              Throttle.Heat(env.throttle.value, Throttle.Candidate(c.symbol, c.side, risk, env.pair), open) + risk
              <= env.throttle.value.maxHeat
    ensures cfg.guard.Some? && b.guard.Some? ==> !b.guard.value.killedToday && !b.guard.value.killedForever
  {
    var s, ctx := step.signal, step.ctx;
    ApprovalRespectsVetoes(cfg.limits, Reset(b.risk, ctx.env.today), b.balance, CandidateOf(cfg, s, ctx.weight),
                           Snapshot(b.orders, cfg.limits.riskPerTrade), ctx.env, GuardOf(cfg, b));
  }

  /** A blocked account places nothing, and stays blocked while the day lasts. */
  lemma BlockedStep(cfg: Config, b: BotV, step: Step, day: int)
    requires cfg.guard.Some? && PropFirm.Blocked(b.guard, day) && (step.GuardObserved? ==> step.day == day)
    ensures Apply(cfg, b, step).placed == b.placed && PropFirm.Blocked(Apply(cfg, b, step).guard, day)
  {
    if Places(cfg, b, step) {
      PlacementRespectsVetoes(cfg, b, step);
    }
    GuardStep(cfg, b, step);
  }

  ghost predicate ObservesOn(steps: seq<Step>, day: int) {
    forall k :: 0 <= k < |steps| && steps[k].GuardObserved? ==> steps[k].day == day
  }

  lemma {:induction false} BlockedPlacesNothing(cfg: Config, b: BotV, steps: seq<Step>, day: int)
    requires cfg.guard.Some? && PropFirm.Blocked(b.guard, day) && ObservesOn(steps, day)
    ensures Run(cfg, b, steps).placed == b.placed && PropFirm.Blocked(Run(cfg, b, steps).guard, day)
  {
    if steps != [] {
      BlockedPlacesNothing(cfg, b, steps[..|steps| - 1], day);
      BlockedStep(cfg, Run(cfg, b, steps[..|steps| - 1]), steps[|steps| - 1], day);
    }
  }

  lemma {:induction false} KilledPlacesNothing(cfg: Config, b: BotV, steps: seq<Step>)
    requires cfg.guard.Some? && PropFirm.Killed(b.guard)
    ensures Run(cfg, b, steps).placed == b.placed && PropFirm.Killed(Run(cfg, b, steps).guard)
  {
    if steps != [] {
      KilledPlacesNothing(cfg, b, steps[..|steps| - 1]);
      KilledStep(cfg, Run(cfg, b, steps[..|steps| - 1]), steps[|steps| - 1]);
    }
  }

  /** Once an observed balance breached the drawdown of an ordinary challenge, no order is
      ever placed again, over any further run and any restart. */
  lemma BreachStopsTrading(cfg: Config, b: BotV, steps: seq<Step>, later: seq<Step>)
    requires FirstStart(b) && cfg.guard.Some? && PropFirm.Ordinary(cfg.guard.value)
    requires PropFirm.DrawnDown(cfg.guard.value, GuardHistory(cfg, b, steps))
    ensures Run(cfg, b, steps + later).placed == Run(cfg, b, steps).placed
  {
    GuardFollows(cfg, b, steps);
    PropFirm.BreachIsKept(cfg.guard.value, GuardHistory(cfg, b, steps));
    RunConcat(cfg, b, steps, later);
    KilledPlacesNothing(cfg, Run(cfg, b, steps), later);
  }
}
