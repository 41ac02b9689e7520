/** One pass of the bot's loop, as a function; every tick is a run of steps. */
module TickModel {
  import opened Common
  import opened Orders
  import opened BotModel
  import PropFirm

  /** One symbol's pass: the feed's last timestamp and the signals that survived the
      toggles, the regime gate and the signal filter, in strategy order. */
  datatype SymbolPass = SymbolPass(symbol: string, ts: int, signals: seq<(Signal, Context)>)

  /** What one call of the feed gave: the latest bar, no bars at all, or an exception. */
  datatype Read = Latest(bar: Bar) | NoBars | Failed

  /** `trail` and `check` are the two reads of the feed made for the order with a given id;
      `passes` the symbols whose feed answered with enough bars. */
  datatype TickInput = TickInput(day: int, now: int, trail: int -> Read, check: int -> Read, passes: seq<SymbolPass>)

  /** `bars` remembers the last processed timestamp per symbol. */
  datatype TickState = TickState(bot: BotV, bars: map<string, int>)

  /** The read behind the trailing; without a stop manager there is none. */
  function TrailRead(cfg: Config, o: OrderV, t: TickInput): Read {
    if cfg.stops.Some? then t.trail(o.id) else NoBars
  }

  function TrailedBy(cfg: Config, b: BotV, i: nat, t: TickInput): BotV
    requires IsOpenAt(b, i)
  {
    match TrailRead(cfg, b.orders[i], t)
    case Latest(bar) => Apply(cfg, b, Trailed(i, bar, t.now))
    case _ => b
  }

  function CheckedBy(cfg: Config, b: BotV, i: nat, t: TickInput): BotV
    requires i < |b.orders|
  {
    match TriggerOf(b.orders[i], t)
    case None => b
    case Some(reason) => Apply(cfg, b, ClosedOut(i, reason, t.now))
  }

  /** The level the bar read for this order touched. */
  function TriggerOf(o: OrderV, t: TickInput): Option<CloseReason> {
    match t.check(o.id)
    case Latest(bar) => CloseTrigger(o, bar)
    case _ => None
  }

  /** Trail, then close if the bar touched a level; whether the feed's exception ended the tick. */
  function ManageOrder(cfg: Config, b: BotV, i: nat, t: TickInput): (BotV, bool) {
    if !IsOpenAt(b, i) then (b, false)
    else if TrailRead(cfg, b.orders[i], t).Failed? then (b, true)
    else
      var b1 := TrailedBy(cfg, b, i, t);
      if t.check(b1.orders[i].id).Failed? then (b1, true) else (CheckedBy(cfg, b1, i, t), false)
  }

  /** The first `k` orders, until an exception. */
  function ManageUpTo(cfg: Config, b: BotV, t: TickInput, k: nat): (BotV, bool) {
    if k == 0 then (b, false)
    else
      var (b1, aborted) := ManageUpTo(cfg, b, t, k - 1);
      if aborted then (b1, true) else ManageOrder(cfg, b1, k - 1, t)
  }

  function ManageAll(cfg: Config, b: BotV, t: TickInput): (BotV, bool) {
    ManageUpTo(cfg, b, t, |b.orders|)
  }

  lemma {:induction false} ManageAborted(cfg: Config, b: BotV, t: TickInput, k: nat, n: nat)
    requires k <= n && ManageUpTo(cfg, b, t, k).1
    ensures ManageUpTo(cfg, b, t, n) == ManageUpTo(cfg, b, t, k)
    decreases n - k
  {
    if k < n {
      StaysAborted(cfg, b, t, k);
      ManageAborted(cfg, b, t, k + 1, n);
    }
  }

  lemma StaysAborted(cfg: Config, b: BotV, t: TickInput, k: nat)
    requires ManageUpTo(cfg, b, t, k).1
    ensures ManageUpTo(cfg, b, t, k + 1) == ManageUpTo(cfg, b, t, k)
  {
  }

  /** After the first `k` strategies' signals: the bot, the orders placed, and whether an
      exception ended the tick, in which case the rest is skipped. */
  function EvalUpTo(cfg: Config, b: BotV, signals: seq<(Signal, Context)>, k: nat): (BotV, nat, bool)
    requires k <= |signals|
  {
    if k == 0 then (b, 0, false)
    else
      var (b1, acted, aborted) := EvalUpTo(cfg, b, signals, k - 1);
      if aborted then (b1, acted, true)
      else
        var (b2, outcome) := HandleSignal(cfg, b1, signals[k - 1].0, signals[k - 1].1);
        (b2, if outcome == Placed then acted + 1 else acted, outcome == Aborted)
  }

  function EvalSignals(cfg: Config, b: BotV, signals: seq<(Signal, Context)>): (BotV, nat, bool) {
    EvalUpTo(cfg, b, signals, |signals|)
  }

  lemma {:induction false} AbortedStays(cfg: Config, b: BotV, signals: seq<(Signal, Context)>, k: nat, n: nat)
    requires k <= n <= |signals| && EvalUpTo(cfg, b, signals, k).2
    ensures EvalUpTo(cfg, b, signals, n) == EvalUpTo(cfg, b, signals, k)
  {
    if k < n {
      AbortedStays(cfg, b, signals, k, n - 1);
    }
  }

  lemma AbortEndsSignals(cfg: Config, b: BotV, signals: seq<(Signal, Context)>, k: nat)
    requires k <= |signals|
    ensures EvalUpTo(cfg, b, signals, k).2 ==> EvalSignals(cfg, b, signals) == EvalUpTo(cfg, b, signals, k)
  {
    if EvalUpTo(cfg, b, signals, k).2 {
      AbortedStays(cfg, b, signals, k, |signals|);
    }
  }

  /** One symbol; a bar already processed is skipped. */
  function EvalPass(cfg: Config, s: TickState, p: SymbolPass): (TickState, nat, bool) {
    if p.symbol in s.bars && s.bars[p.symbol] == p.ts then (s, 0, false)
    else
      var (b1, acted, aborted) := EvalSignals(cfg, s.bot, p.signals);
      (TickState(b1, s.bars[p.symbol := p.ts]), acted, aborted)
  }

  /** The first `k` symbols in turn, until one aborts. */
  function EvalPassesUpTo(cfg: Config, s: TickState, passes: seq<SymbolPass>, k: nat): (TickState, nat, bool)
    requires k <= |passes|
  {
    if k == 0 then (s, 0, false)
    else
      var (s1, acted, aborted) := EvalPassesUpTo(cfg, s, passes, k - 1);
      if aborted then (s1, acted, true)
      else
        var (s2, more, ab) := EvalPass(cfg, s1, passes[k - 1]);
        (s2, acted + more, ab)
  }

  function EvalPasses(cfg: Config, s: TickState, passes: seq<SymbolPass>): (TickState, nat, bool) {
    EvalPassesUpTo(cfg, s, passes, |passes|)
  }

  lemma {:induction false} PassesAborted(cfg: Config, s: TickState, passes: seq<SymbolPass>, k: nat, n: nat)
    requires k <= n <= |passes| && EvalPassesUpTo(cfg, s, passes, k).2
    ensures EvalPassesUpTo(cfg, s, passes, n) == EvalPassesUpTo(cfg, s, passes, k)
    decreases n
  {
    if k < n {
      PassesAborted(cfg, s, passes, k, n - 1);
    }
  }

  lemma AbortEndsPasses(cfg: Config, s: TickState, passes: seq<SymbolPass>, k: nat)
    requires k <= |passes|
    ensures EvalPassesUpTo(cfg, s, passes, k).2 ==> EvalPasses(cfg, s, passes) == EvalPassesUpTo(cfg, s, passes, k)
  {
    if EvalPassesUpTo(cfg, s, passes, k).2 {
      PassesAborted(cfg, s, passes, k, |passes|);
    }
  }

  /** The state in which the symbols are evaluated: orders managed, balance observed. */
  function Observed(cfg: Config, s: TickState, t: TickInput): TickState {
    s.(bot := Apply(cfg, ManageAll(cfg, s.bot, t).0, GuardObserved(t.day)))
  }

  /** Manage every open order, show the guard the balance, then evaluate the symbols. */
  function Tick(cfg: Config, s: TickState, t: TickInput): (TickState, nat, bool) {
    var (b1, aborted) := ManageAll(cfg, s.bot, t);
    if aborted then (s.(bot := b1), 0, true) else EvalPasses(cfg, Observed(cfg, s, t), t.passes)
  }

  function Ticks(cfg: Config, s: TickState, ts: seq<TickInput>): TickState {
    if ts == [] then s else Tick(cfg, Ticks(cfg, s, ts[..|ts| - 1]), ts[|ts| - 1]).0
  }

  lemma {:induction false} TicksConcat(cfg: Config, s: TickState, xs: seq<TickInput>, ys: seq<TickInput>)
    ensures Ticks(cfg, s, xs + ys) == Ticks(cfg, Ticks(cfg, s, xs), ys)
  {
    if ys == [] {
      assert xs + ys == xs;
    } else {
      TicksConcat(cfg, s, xs, ys[..|ys| - 1]);
      assert (xs + ys)[..|xs + ys| - 1] == xs + ys[..|ys| - 1];
    }
  }

  // ------------------------------------------------- the steps of a tick

  function OrderSteps(cfg: Config, b: BotV, i: nat, t: TickInput): seq<Step> {
    if !IsOpenAt(b, i) || TrailRead(cfg, b.orders[i], t).Failed? then []
    else
      var read, b1 := TrailRead(cfg, b.orders[i], t), TrailedBy(cfg, b, i, t);
      (if read.Latest? then [Trailed(i, read.bar, t.now)] else []) +
      match TriggerOf(b1.orders[i], t)
      case None => []
      case Some(reason) => [ClosedOut(i, reason, t.now)]
  }

  function ManageSteps(cfg: Config, b: BotV, t: TickInput, k: nat): seq<Step> {
    if k == 0 then []
    else
      var before, (b1, aborted) := ManageSteps(cfg, b, t, k - 1), ManageUpTo(cfg, b, t, k - 1);
      if aborted then before else before + OrderSteps(cfg, b1, k - 1, t)
  }

  function SignalSteps(cfg: Config, b: BotV, signals: seq<(Signal, Context)>, k: nat): seq<Step>
    requires k <= |signals|
  {
    if k == 0 then []
    else
      var before := SignalSteps(cfg, b, signals, k - 1);
      if EvalUpTo(cfg, b, signals, k - 1).2 then before
      else before + [Signalled(signals[k - 1].0, signals[k - 1].1)]
  }

  function PassSteps(cfg: Config, s: TickState, p: SymbolPass): seq<Step> {
    if p.symbol in s.bars && s.bars[p.symbol] == p.ts then [] else SignalSteps(cfg, s.bot, p.signals, |p.signals|)
  }

  function PassesSteps(cfg: Config, s: TickState, passes: seq<SymbolPass>, k: nat): seq<Step>
    requires k <= |passes|
  {
    if k == 0 then []
    else
      var before, r := PassesSteps(cfg, s, passes, k - 1), EvalPassesUpTo(cfg, s, passes, k - 1);
      if r.2 then before else before + PassSteps(cfg, r.0, passes[k - 1])
  }

  /** The steps of a tick up to and including the observation of the balance. */
  function StepsToObserved(cfg: Config, b: BotV, t: TickInput): seq<Step> {
    var managed := ManageSteps(cfg, b, t, |b.orders|);
    if ManageAll(cfg, b, t).1 then managed else managed + [GuardObserved(t.day)]
  }

  function TickSteps(cfg: Config, s: TickState, t: TickInput): seq<Step> {
    var first := StepsToObserved(cfg, s.bot, t);
    if ManageAll(cfg, s.bot, t).1 then first
    else first + PassesSteps(cfg, Observed(cfg, s, t), t.passes, |t.passes|)
  }

  function TicksSteps(cfg: Config, s: TickState, ts: seq<TickInput>): seq<Step> {
    if ts == [] then []
    else
      var before := ts[..|ts| - 1];
      TicksSteps(cfg, s, before) + TickSteps(cfg, Ticks(cfg, s, before), ts[|ts| - 1])
  }

  /** Managing orders takes no other kind of step. */
  ghost predicate OnlyManages(steps: seq<Step>) {
    forall k :: 0 <= k < |steps| ==> steps[k].Trailed? || steps[k].ClosedOut?
  }

  lemma OrderOnlyManages(cfg: Config, b: BotV, i: nat, t: TickInput)
    ensures OnlyManages(OrderSteps(cfg, b, i, t))
  {
  }

  lemma {:induction false} ManageOnlyManages(cfg: Config, b: BotV, t: TickInput, k: nat)
    ensures OnlyManages(ManageSteps(cfg, b, t, k))
  {
    if k > 0 {
      ManageOnlyManages(cfg, b, t, k - 1);
      OrderOnlyManages(cfg, ManageUpTo(cfg, b, t, k - 1).0, k - 1, t);
    }
  }

  // ------------------------------------------------- ticks are runs of steps

  /** The steps take one state to the other without leaving the process. */
  ghost predicate Leads(cfg: Config, b: BotV, steps: seq<Step>, b': BotV) {
    Run(cfg, b, steps) == b' && forall k :: 0 <= k < |steps| ==> !steps[k].Restarted?
  }

  lemma LeadsNowhere(cfg: Config, b: BotV)
    ensures Leads(cfg, b, [], b)
  {
  }

  lemma LeadsByOne(cfg: Config, b: BotV, step: Step)
    requires !step.Restarted?
    ensures Leads(cfg, b, [step], Apply(cfg, b, step))
  {
    assert [step][..0] == [];
  }

  lemma LeadsOn(cfg: Config, b: BotV, xs: seq<Step>, b1: BotV, ys: seq<Step>, b2: BotV)
    requires Leads(cfg, b, xs, b1) && Leads(cfg, b1, ys, b2)
    ensures Leads(cfg, b, xs + ys, b2)
  {
    RunConcat(cfg, b, xs, ys);
  }

  lemma OrderLeads(cfg: Config, b: BotV, i: nat, t: TickInput)
    ensures Leads(cfg, b, OrderSteps(cfg, b, i, t), ManageOrder(cfg, b, i, t).0)
  {
    LeadsNowhere(cfg, b);
    if IsOpenAt(b, i) && !TrailRead(cfg, b.orders[i], t).Failed? {
      var read, b1 := TrailRead(cfg, b.orders[i], t), TrailedBy(cfg, b, i, t);
      var trail := if read.Latest? then [Trailed(i, read.bar, t.now)] else [];
      if read.Latest? {
        LeadsByOne(cfg, b, trail[0]);
      }
      LeadsNowhere(cfg, b1);
      var trigger := TriggerOf(b1.orders[i], t);
      if trigger.Some? {
        LeadsByOne(cfg, b1, ClosedOut(i, trigger.value, t.now));
      }
      LeadsOn(cfg, b, trail, b1, OrderSteps(cfg, b, i, t)[|trail|..], ManageOrder(cfg, b, i, t).0);
    }
  }

  lemma {:induction false} ManageLeads(cfg: Config, b: BotV, t: TickInput, k: nat)
    ensures Leads(cfg, b, ManageSteps(cfg, b, t, k), ManageUpTo(cfg, b, t, k).0)
  {
    if k > 0 {
      var r := ManageUpTo(cfg, b, t, k - 1);
      ManageLeads(cfg, b, t, k - 1);
      if !r.1 {
        OrderLeads(cfg, r.0, k - 1, t);
        LeadsOn(cfg, b, ManageSteps(cfg, b, t, k - 1), r.0, OrderSteps(cfg, r.0, k - 1, t), ManageUpTo(cfg, b, t, k).0);
      }
    }
  }

  lemma SignalLeads(cfg: Config, b: BotV, b1: BotV, before: seq<Step>, x: (Signal, Context))
    requires Leads(cfg, b, before, b1)
    ensures Leads(cfg, b, before + [Signalled(x.0, x.1)], HandleSignal(cfg, b1, x.0, x.1).0)
  {
    LeadsByOne(cfg, b1, Signalled(x.0, x.1));
    LeadsOn(cfg, b, before, b1, [Signalled(x.0, x.1)], HandleSignal(cfg, b1, x.0, x.1).0);
  }

  lemma {:induction false} SignalsLead(cfg: Config, b: BotV, signals: seq<(Signal, Context)>, k: nat)
    requires k <= |signals|
    ensures Leads(cfg, b, SignalSteps(cfg, b, signals, k), EvalUpTo(cfg, b, signals, k).0)
    decreases k
  {
    if k > 0 {
      SignalsLead(cfg, b, signals, k - 1);
      SignalLeads(cfg, b, EvalUpTo(cfg, b, signals, k - 1).0, SignalSteps(cfg, b, signals, k - 1), signals[k - 1]);
    }
  }

  lemma PassLeads(cfg: Config, s: TickState, p: SymbolPass)
    ensures Leads(cfg, s.bot, PassSteps(cfg, s, p), EvalPass(cfg, s, p).0.bot)
  {
    LeadsNowhere(cfg, s.bot);
    SignalsLead(cfg, s.bot, p.signals, |p.signals|);
  }

  lemma OnePassMore(cfg: Config, b: BotV, before: seq<Step>, s: TickState, p: SymbolPass)
    requires Leads(cfg, b, before, s.bot)
    ensures Leads(cfg, b, before + PassSteps(cfg, s, p), EvalPass(cfg, s, p).0.bot)
  {
    PassLeads(cfg, s, p);
    LeadsOn(cfg, b, before, s.bot, PassSteps(cfg, s, p), EvalPass(cfg, s, p).0.bot);
  }

  lemma {:induction false} PassesLead(cfg: Config, s: TickState, passes: seq<SymbolPass>, k: nat)
    requires k <= |passes|
    ensures Leads(cfg, s.bot, PassesSteps(cfg, s, passes, k), EvalPassesUpTo(cfg, s, passes, k).0.bot)
    decreases k
  {
    if k > 0 {
      PassesLead(cfg, s, passes, k - 1);
      OnePassMore(cfg, s.bot, PassesSteps(cfg, s, passes, k - 1), EvalPassesUpTo(cfg, s, passes, k - 1).0,
                  passes[k - 1]);
    }
  }

  lemma ObservedLeads(cfg: Config, s: TickState, t: TickInput)
    requires !ManageAll(cfg, s.bot, t).1
    ensures Leads(cfg, s.bot, StepsToObserved(cfg, s.bot, t), Observed(cfg, s, t).bot)
  {
    var b1 := ManageAll(cfg, s.bot, t).0;
    ManageLeads(cfg, s.bot, t, |s.bot.orders|);
    LeadsByOne(cfg, b1, GuardObserved(t.day));
    LeadsOn(cfg, s.bot, ManageSteps(cfg, s.bot, t, |s.bot.orders|), b1, [GuardObserved(t.day)],
            Observed(cfg, s, t).bot);
  }

  lemma TickLeads(cfg: Config, s: TickState, t: TickInput)
    ensures Leads(cfg, s.bot, TickSteps(cfg, s, t), Tick(cfg, s, t).0.bot)
  {
    if ManageAll(cfg, s.bot, t).1 {
      ManageLeads(cfg, s.bot, t, |s.bot.orders|);
    } else {
      var s1 := Observed(cfg, s, t);
      ObservedLeads(cfg, s, t);
      PassesLead(cfg, s1, t.passes, |t.passes|);
      LeadsOn(cfg, s.bot, StepsToObserved(cfg, s.bot, t), s1.bot, PassesSteps(cfg, s1, t.passes, |t.passes|),
              Tick(cfg, s, t).0.bot);
    }
  }

  /** Every sequence of ticks is exactly the run of its steps. */
  lemma {:induction false} TicksLead(cfg: Config, s: TickState, ts: seq<TickInput>)
    ensures Leads(cfg, s.bot, TicksSteps(cfg, s, ts), Ticks(cfg, s, ts).bot)
  {
    if ts == [] {
      LeadsNowhere(cfg, s.bot);
    } else {
      var before, t := ts[..|ts| - 1], ts[|ts| - 1];
      TicksLead(cfg, s, before);
      var s1 := Ticks(cfg, s, before);
      TickLeads(cfg, s1, t);
      LeadsOn(cfg, s.bot, TicksSteps(cfg, s, before), s1.bot, TickSteps(cfg, s1, t), Ticks(cfg, s, ts).bot);
    }
  }

  /** After any sequence of ticks from a first start, aborted ticks included: the heat
      equals the booked risk of the open orders, both caps hold, the journal mirrors
      the orders, and every symbol is one-sided. */
  lemma TicksKeepTheBooks(cfg: Config, s: TickState, ts: seq<TickInput>)
    requires FirstStart(s.bot)
    ensures InStep(cfg.limits, Ticks(cfg, s, ts).bot)
    ensures OneSidePerSymbol(Ticks(cfg, s, ts).bot.orders)
  {
    TicksLead(cfg, s, ts);
    FirstStartInStep(cfg, s.bot, TicksSteps(cfg, s, ts));
    EveryRunOneSided(cfg, s.bot, TicksSteps(cfg, s, ts));
  }

  // ------------------------------------------------- the challenge account

  /** A killed challenge account places nothing over any sequence of ticks. */
  lemma KilledTicksPlaceNothing(cfg: Config, s: TickState, ts: seq<TickInput>)
    requires cfg.guard.Some? && PropFirm.Killed(s.bot.guard)
    ensures Ticks(cfg, s, ts).bot.placed == s.bot.placed
  {
    TicksLead(cfg, s, ts);
    KilledPlacesNothing(cfg, s.bot, TicksSteps(cfg, s, ts));
  }

  /** What the guard has been told by the time a tick has observed its balance. */
  function HistoryAt(cfg: Config, s: TickState, ts: seq<TickInput>, t: TickInput): seq<PropFirm.Event> {
    GuardHistory(cfg, s.bot, TicksSteps(cfg, s, ts) + StepsToObserved(cfg, Ticks(cfg, s, ts).bot, t))
  }

  /** If a balance observed so far, in this very tick or before, breached the drawdown of an
      ordinary challenge, the tick and all later ones place nothing. */
  lemma BreachStopsTheTick(cfg: Config, s: TickState, ts: seq<TickInput>, t: TickInput, later: seq<TickInput>)
    requires FirstStart(s.bot) && cfg.guard.Some? && PropFirm.Ordinary(cfg.guard.value)
    requires !ManageAll(cfg, Ticks(cfg, s, ts).bot, t).1
    requires PropFirm.DrawnDown(cfg.guard.value, HistoryAt(cfg, s, ts, t))
    ensures Ticks(cfg, s, ts + [t] + later).bot.placed == Ticks(cfg, s, ts).bot.placed
  {
    ObservedGuard(cfg, s, ts, t);
    PropFirm.BreachIsKept(cfg.guard.value, HistoryAt(cfg, s, ts, t));
    KilledTick(cfg, Ticks(cfg, s, ts), t);
    OneMoreTick(cfg, s, ts, t);
    TicksConcat(cfg, s, ts + [t], later);
    KilledTicksPlaceNothing(cfg, Ticks(cfg, s, ts + [t]), later);
  }

  lemma OneMoreTick(cfg: Config, s: TickState, ts: seq<TickInput>, t: TickInput)
    ensures Ticks(cfg, s, ts + [t]) == Tick(cfg, Ticks(cfg, s, ts), t).0
  {
    assert (ts + [t])[..|ts|] == ts;
  }

  /** A tick whose observation finds the account killed. */
  lemma KilledTick(cfg: Config, s: TickState, t: TickInput)
    requires cfg.guard.Some? && !ManageAll(cfg, s.bot, t).1 && PropFirm.Killed(Observed(cfg, s, t).bot.guard)
    ensures Tick(cfg, s, t).0.bot.placed == s.bot.placed && PropFirm.Killed(Tick(cfg, s, t).0.bot.guard)
  {
    var s1 := Observed(cfg, s, t);
    ManagePlacesNothing(cfg, s.bot, t, |s.bot.orders|);
    PassesLead(cfg, s1, t.passes, |t.passes|);
    KilledPlacesNothing(cfg, s1.bot, PassesSteps(cfg, s1, t.passes, |t.passes|));
  }

  /** A tick whose observation finds it blocked for the day. */
  lemma BlockedTick(cfg: Config, s: TickState, t: TickInput)
    requires cfg.guard.Some? && !ManageAll(cfg, s.bot, t).1 && PropFirm.Blocked(Observed(cfg, s, t).bot.guard, t.day)
    ensures Tick(cfg, s, t).0.bot.placed == s.bot.placed && PropFirm.Blocked(Tick(cfg, s, t).0.bot.guard, t.day)
  {
    var s1 := Observed(cfg, s, t);
    ManagePlacesNothing(cfg, s.bot, t, |s.bot.orders|);
    PassesLead(cfg, s1, t.passes, |t.passes|);
    PassesObserveNothing(cfg, s1, t.passes, |t.passes|, t.day);
    BlockedPlacesNothing(cfg, s1.bot, PassesSteps(cfg, s1, t.passes, |t.passes|), t.day);
  }

  lemma {:induction false} SignalsObserveNothing(cfg: Config, b: BotV, signals: seq<(Signal, Context)>, k: nat,
                                                 day: int)
    requires k <= |signals|
    ensures ObservesOn(SignalSteps(cfg, b, signals, k), day)
  {
    if k > 0 { SignalsObserveNothing(cfg, b, signals, k - 1, day); }
  }

  lemma {:induction false} PassesObserveNothing(cfg: Config, s: TickState, passes: seq<SymbolPass>, k: nat, day: int)
    requires k <= |passes|
    ensures ObservesOn(PassesSteps(cfg, s, passes, k), day)
  {
    if k > 0 {
      var r, p := EvalPassesUpTo(cfg, s, passes, k - 1), passes[k - 1];
      PassesObserveNothing(cfg, s, passes, k - 1, day);
      SignalsObserveNothing(cfg, r.0.bot, p.signals, |p.signals|, day);
    }
  }

  /** A tick observes the balance on its own day. */
  lemma TickObservesOn(cfg: Config, s: TickState, t: TickInput)
    ensures ObservesOn(TickSteps(cfg, s, t), t.day)
  {
    ManageOnlyManages(cfg, s.bot, t, |s.bot.orders|);
    PassesObserveNothing(cfg, Observed(cfg, s, t), t.passes, |t.passes|, t.day);
  }

  ghost predicate OnDay(ts: seq<TickInput>, day: int) {
    forall k :: 0 <= k < |ts| ==> ts[k].day == day
  }

  lemma {:induction false} BlockedTicksPlaceNothing(cfg: Config, s: TickState, ts: seq<TickInput>, day: int)
    requires cfg.guard.Some? && PropFirm.Blocked(s.bot.guard, day) && OnDay(ts, day)
    ensures Ticks(cfg, s, ts).bot.placed == s.bot.placed && PropFirm.Blocked(Ticks(cfg, s, ts).bot.guard, day)
  {
    if ts != [] {
      var before, t := ts[..|ts| - 1], ts[|ts| - 1];
      BlockedTicksPlaceNothing(cfg, s, before, day);
      var s1 := Ticks(cfg, s, before);
      TickLeads(cfg, s1, t);
      TickObservesOn(cfg, s1, t);
      BlockedPlacesNothing(cfg, s1.bot, TickSteps(cfg, s1, t), day);
    }
  }

  /** The daily limit in the same way: once a balance observed on this tick's day breached it,
      the tick and all later ones of that day place nothing. */
  lemma DailyBreachStopsTheDay(cfg: Config, s: TickState, ts: seq<TickInput>, t: TickInput, later: seq<TickInput>)
    requires FirstStart(s.bot) && cfg.guard.Some? && PropFirm.Ordinary(cfg.guard.value)
    requires !ManageAll(cfg, Ticks(cfg, s, ts).bot, t).1 && PropFirm.ClockMonotone(HistoryAt(cfg, s, ts, t))
    requires PropFirm.LostInADay(cfg.guard.value, HistoryAt(cfg, s, ts, t), t.day)
    requires OnDay(later, t.day)
    ensures Ticks(cfg, s, ts + [t] + later).bot.placed == Ticks(cfg, s, ts).bot.placed
  {
    ObservedGuard(cfg, s, ts, t);
    PropFirm.DailyBreachBlocks(cfg.guard.value, HistoryAt(cfg, s, ts, t), t.day);
    BlockedTick(cfg, Ticks(cfg, s, ts), t);
    OneMoreTick(cfg, s, ts, t);
    TicksConcat(cfg, s, ts + [t], later);
    BlockedTicksPlaceNothing(cfg, Ticks(cfg, s, ts + [t]), later, t.day);
  }

  /** After the observation the stored row is the guard's run over its history, whose last
      event is this tick's observation. */
  lemma ObservedGuard(cfg: Config, s: TickState, ts: seq<TickInput>, t: TickInput)
    requires FirstStart(s.bot) && cfg.guard.Some? && !ManageAll(cfg, Ticks(cfg, s, ts).bot, t).1
    ensures var h := HistoryAt(cfg, s, ts, t);
            && Observed(cfg, Ticks(cfg, s, ts), t).bot.guard == PropFirm.Run(cfg.guard.value, h)
            && PropFirm.LastDay(h) == Some(t.day)
  {
    var s1 := Ticks(cfg, s, ts);
    var first, managed := TicksSteps(cfg, s, ts), ManageSteps(cfg, s1.bot, t, |s1.bot.orders|);
    TicksLead(cfg, s, ts);
    ObservedLeads(cfg, s1, t);
    LeadsOn(cfg, s.bot, first, s1.bot, StepsToObserved(cfg, s1.bot, t), Observed(cfg, s1, t).bot);
    GuardFollows(cfg, s.bot, first + StepsToObserved(cfg, s1.bot, t));
    assert first + StepsToObserved(cfg, s1.bot, t) == (first + managed) + [GuardObserved(t.day)];
    ObservationIsLast(cfg, s.bot, first + managed, t.day);
  }

  lemma ObservationIsLast(cfg: Config, b: BotV, steps: seq<Step>, day: int)
    ensures PropFirm.LastDay(GuardHistory(cfg, b, steps + [GuardObserved(day)])) == Some(day)
  {
    assert (steps + [GuardObserved(day)])[..|steps|] == steps;
  }

  lemma {:induction false} ManagePlacesNothing(cfg: Config, b: BotV, t: TickInput, k: nat)
    ensures ManageUpTo(cfg, b, t, k).0.placed == b.placed
  {
    if k > 0 {
      ManagePlacesNothing(cfg, b, t, k - 1);
      OrderFrame(cfg, ManageUpTo(cfg, b, t, k - 1).0, k - 1, t);
    }
  }

  // ------------------------------------------------- one order per setup

  function SignalsIn(signals: seq<(Signal, Context)>, k: nat): seq<Signal>
    requires k <= |signals|
  {
    if k == 0 then [] else SignalsIn(signals, k - 1) + [signals[k - 1].0]
  }

  function OfferedIn(passes: seq<SymbolPass>, k: nat): seq<Signal>
    requires k <= |passes|
  {
    if k == 0 then []
    else OfferedIn(passes, k - 1) + SignalsIn(passes[k - 1].signals, |passes[k - 1].signals|)
  }

  /** All signals the strategies had to offer over the ticks, in their order. */
  function Offered(ts: seq<TickInput>): seq<Signal> {
    if ts == [] then []
    else Offered(ts[..|ts| - 1]) + OfferedIn(ts[|ts| - 1].passes, |ts[|ts| - 1].passes|)
  }

  predicate OfferedOn(xs: seq<Signal>, k: int, key: (string, string)) {
    0 <= k < |xs| && xs[k].stop.Some? && xs[k].target.Some? && (xs[k].strategy, xs[k].symbol) == key
  }

  /** On one (strategy, symbol) the signals of a bar come together. */
  ghost predicate Together(xs: seq<Signal>) {
    forall key, i, j, k ::
      i < j < k && OfferedOn(xs, i, key) && OfferedOn(xs, j, key) && OfferedOn(xs, k, key) && xs[i].ts == xs[k].ts
      ==> xs[j].ts == xs[i].ts
  }

  /** The signalled steps are among the offered signals, at the places `at`, in order. */
  ghost predicate DrawnAt(steps: seq<Step>, xs: seq<Signal>, at: seq<nat>) {
    && |at| == |steps|
    && (forall k :: 0 <= k < |steps| && steps[k].Signalled? ==> at[k] < |xs| && xs[at[k]] == steps[k].signal)
    && (forall j, k :: 0 <= j < k < |steps| && steps[j].Signalled? && steps[k].Signalled? ==> at[j] < at[k])
  }

  ghost predicate Drawn(steps: seq<Step>, xs: seq<Signal>) {
    exists at :: DrawnAt(steps, xs, at)
  }

  lemma DrawnConcat(s1: seq<Step>, x1: seq<Signal>, s2: seq<Step>, x2: seq<Signal>)
    requires Drawn(s1, x1) && Drawn(s2, x2)
    ensures Drawn(s1 + s2, x1 + x2)
  {
    var a1, a2 :| DrawnAt(s1, x1, a1) && DrawnAt(s2, x2, a2);
    var n := |x1|;
    assert DrawnAt(s1 + s2, x1 + x2, a1 + seq(|a2|, k requires 0 <= k < |a2| => n + a2[k]));
  }

  lemma DrawnFromMore(steps: seq<Step>, xs: seq<Signal>, more: seq<Signal>)
    requires Drawn(steps, xs)
    ensures Drawn(steps, xs + more)
  {
    var at :| DrawnAt(steps, xs, at);
    assert DrawnAt(steps, xs + more, at);
  }

  lemma QuietDrawn(steps: seq<Step>, xs: seq<Signal>)
    requires forall k :: 0 <= k < |steps| ==> !steps[k].Signalled?
    ensures Drawn(steps, xs)
  {
    assert DrawnAt(steps, xs, seq(|steps|, _ => 0));
  }

  lemma {:induction false} SignalsDrawn(cfg: Config, b: BotV, signals: seq<(Signal, Context)>, k: nat)
    requires k <= |signals|
    ensures Drawn(SignalSteps(cfg, b, signals, k), SignalsIn(signals, k))
  {
    if k == 0 {
      QuietDrawn([], []);
    } else {
      SignalsDrawn(cfg, b, signals, k - 1);
      var before, x := SignalSteps(cfg, b, signals, k - 1), signals[k - 1];
      if EvalUpTo(cfg, b, signals, k - 1).2 {
        DrawnFromMore(before, SignalsIn(signals, k - 1), [x.0]);
      } else {
        assert DrawnAt([Signalled(x.0, x.1)], [x.0], [0]);
        DrawnConcat(before, SignalsIn(signals, k - 1), [Signalled(x.0, x.1)], [x.0]);
      }
    }
  }

  lemma {:induction false} PassesDrawn(cfg: Config, s: TickState, passes: seq<SymbolPass>, k: nat)
    requires k <= |passes|
    ensures Drawn(PassesSteps(cfg, s, passes, k), OfferedIn(passes, k))
  {
    if k == 0 {
      QuietDrawn([], []);
    } else {
      var r, p := EvalPassesUpTo(cfg, s, passes, k - 1), passes[k - 1];
      PassesDrawn(cfg, s, passes, k - 1);
      if r.2 {
        DrawnFromMore(PassesSteps(cfg, s, passes, k - 1), OfferedIn(passes, k - 1), SignalsIn(p.signals, |p.signals|));
      } else {
        QuietDrawn([], SignalsIn(p.signals, |p.signals|));
        SignalsDrawn(cfg, r.0.bot, p.signals, |p.signals|);
        DrawnConcat(PassesSteps(cfg, s, passes, k - 1), OfferedIn(passes, k - 1),
                    PassSteps(cfg, r.0, p), SignalsIn(p.signals, |p.signals|));
      }
    }
  }

  lemma TickDrawn(cfg: Config, s: TickState, t: TickInput)
    ensures Drawn(TickSteps(cfg, s, t), OfferedIn(t.passes, |t.passes|))
  {
    var xs, first := OfferedIn(t.passes, |t.passes|), StepsToObserved(cfg, s.bot, t);
    ManageOnlyManages(cfg, s.bot, t, |s.bot.orders|);
    QuietDrawn(first, xs);
    if !ManageAll(cfg, s.bot, t).1 {
      QuietDrawn(first, []);
      PassesDrawn(cfg, Observed(cfg, s, t), t.passes, |t.passes|);
      DrawnConcat(first, [], PassesSteps(cfg, Observed(cfg, s, t), t.passes, |t.passes|), xs);
      assert [] + xs == xs;
    }
  }

  lemma {:induction false} TicksDrawn(cfg: Config, s: TickState, ts: seq<TickInput>)
    ensures Drawn(TicksSteps(cfg, s, ts), Offered(ts))
  {
    if ts == [] {
      QuietDrawn([], []);
    } else {
      var before, t := ts[..|ts| - 1], ts[|ts| - 1];
      TicksDrawn(cfg, s, before);
      TickDrawn(cfg, Ticks(cfg, s, before), t);
      DrawnConcat(TicksSteps(cfg, s, before), Offered(before), TickSteps(cfg, Ticks(cfg, s, before), t),
                  OfferedIn(t.passes, |t.passes|));
    }
  }

  lemma DrawnIsContiguous(steps: seq<Step>, xs: seq<Signal>)
    requires Drawn(steps, xs) && Together(xs)
    ensures BarsContiguous(steps)
  {
    var at :| DrawnAt(steps, xs, at);
    forall key, i, j, k | i < j < k && SignalledOn(steps, i, key) && SignalledOn(steps, j, key) &&
                          SignalledOn(steps, k, key) && steps[i].signal.ts == steps[k].signal.ts
      ensures steps[j].signal.ts == steps[i].signal.ts
    {
      assert OfferedOn(xs, at[i], key) && OfferedOn(xs, at[j], key) && OfferedOn(xs, at[k], key);
    }
  }

  /** Over any sequence of ticks, however cut short, no (strategy, symbol, bar) is ordered
      twice when the signals the strategies offer for a bar come together. */
  lemma TicksOrderOncePerBar(cfg: Config, s: TickState, ts: seq<TickInput>)
    requires FirstStart(s.bot) && Together(Offered(ts))
    ensures AtMostOnce(Ticks(cfg, s, ts).bot.placed)
  {
    TicksLead(cfg, s, ts);
    TicksDrawn(cfg, s, ts);
    DrawnIsContiguous(TicksSteps(cfg, s, ts), Offered(ts));
    AtMostOneOrderPerBar(cfg, s.bot, TicksSteps(cfg, s, ts));
  }

  // ------------------------------------------------- frames for the loop

  /** Managing the first k orders leaves the later ones alone and skips closed ones. */
  lemma {:induction false} ManageFrame(cfg: Config, b: BotV, t: TickInput, k: nat)
    requires k <= |b.orders|
    ensures var b' := ManageUpTo(cfg, b, t, k).0;
            |b'.orders| == |b.orders| && forall i :: k <= i < |b.orders| ==> b'.orders[i] == b.orders[i]
  {
    if k > 0 {
      ManageFrame(cfg, b, t, k - 1);
      OrderFrame(cfg, ManageUpTo(cfg, b, t, k - 1).0, k - 1, t);
    }
  }

  /** Managing an order places nothing and touches no other order. */
  lemma OrderFrame(cfg: Config, b: BotV, i: nat, t: TickInput)
    ensures var b' := ManageOrder(cfg, b, i, t).0;
            && b'.placed == b.placed && |b'.orders| == |b.orders|
            && forall j :: 0 <= j < |b.orders| && j != i ==> b'.orders[j] == b.orders[j]
  {
  }

  lemma {:induction false} SkipClosed(cfg: Config, b: BotV, t: TickInput, lo: nat, hi: nat)
    requires lo <= hi <= |b.orders|
    requires forall i :: lo <= i < hi ==> b.orders[i].status != OPEN
    ensures ManageUpTo(cfg, b, t, hi) == ManageUpTo(cfg, b, t, lo)
    decreases hi
  {
    if lo < hi {
      SkipClosed(cfg, b, t, lo, hi - 1);
      SkipOne(cfg, b, t, hi - 1);
    }
  }

  lemma SkipOne(cfg: Config, b: BotV, t: TickInput, k: nat)
    requires k < |b.orders| && b.orders[k].status != OPEN
    ensures ManageUpTo(cfg, b, t, k + 1) == ManageUpTo(cfg, b, t, k)
  {
    ManageFrame(cfg, b, t, k);
  }
}
