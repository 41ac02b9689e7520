/** `run_backtest`: the bar loop, its bookkeeping, its capital bound, and the absence
    of look-ahead. A strategy is any function of the bars seen so far. */
module Backtest {
  import opened Common
  import opened PositionSizing

  datatype Signal = Hold | Enter(ts: int, side: Side, price: real, stop: Option<real>, target: Option<real>)

  type Strategy = seq<Bar> -> Signal

  datatype Reason = Running | StopHit | TargetHit | EndOfData

  datatype TradeV = TradeV(side: Side, entryTime: int, entry: real, stop: real, target: real, lots: real,
                           exitTime: Option<int>, exit: Option<real>, pnl: real, reason: Reason)

  datatype Setup = Setup(strategy: Strategy, start: real, riskPct: real, lookback: nat, ins: Instrument)

  // ---------------------------------------------------------- one trade

  function Pnl(t: TradeV, exit: real, ins: Instrument): real {
    Profit(if t.side == Buy then exit - t.entry else t.entry - exit, t.lots, ins)
  }

  function Profit(diff: real, lots: real, ins: Instrument): real {
    Quotient(diff, ins.size) * ins.value * lots
  }

  /** A missing stop or target, like one at 0.0, becomes level 0.0; only a real stop
      sizes the trade. None is the sizing function's error. */
  function OpenFromSignal(s: Signal, equity: real, riskPct: real, ins: Instrument): Option<TradeV>
    requires s.Enter?
  {
    var stop := s.stop.GetOr(0.0);
    var distance := if stop != 0.0 then Abs(s.price - stop) else 0.0;
    var target := s.target.GetOr(0.0);
    if distance > 0.0 then
      match LotSizeFromRisk(equity, riskPct, Quotient(distance, ins.size), ins)
      case Lots(lots) => Some(TradeV(s.side, s.ts, s.price, stop, target, lots, None, None, 0.0, Running))
      case _ => None
    else Some(TradeV(s.side, s.ts, s.price, stop, target, 0.01, None, None, 0.0, Running))
  }

  /** Stop before target, at the level's price. */
  function ExitOn(side: Side, stop: real, target: real, b: Bar): Option<(real, Reason)> {
    if side == Buy then
      if b.low <= stop then Some((stop, StopHit))
      else if b.high >= target then Some((target, TargetHit))
      else None
    else
      if b.high >= stop then Some((stop, StopHit))
      else if b.low <= target then Some((target, TargetHit))
      else None
  }

  function ClosedAt(t: TradeV, price: real, ts: int, reason: Reason, ins: Instrument): TradeV {
    t.(exitTime := Some(ts), exit := Some(price), pnl := Pnl(t, price, ins), reason := reason)
  }

  // ----------------------------------------------------------- the loop

  datatype State = Failed | State(equity: real, open: Option<TradeV>, trades: seq<TradeV>, curve: seq<real>)

  function Settle(s: State, b: Bar, ins: Instrument): State
    requires s.State?
  {
    if s.open.None? then s
    else
      var t := s.open.value;
      match ExitOn(t.side, t.stop, t.target, b)
      case None => s
      case Some((price, reason)) =>
        var done := ClosedAt(t, price, b.ts, reason, ins);
        s.(equity := s.equity + done.pnl, open := None, trades := s.trades + [done])
  }

  function MaybeEnter(p: Setup, s: State, window: seq<Bar>): State
    requires s.State? && window != []
  {
    if s.open.Some? then s
    else
      var signal := p.strategy(window);
      if signal.Hold? then s
      else
        match OpenFromSignal(signal, s.equity, p.riskPct, p.ins)
        case None => Failed
        case Some(t) => s.(open := Some(t))
  }

  function Mark(s: State): State {
    if s.Failed? then s
    else s.(curve := s.curve + [s.equity + if s.open.Some? then s.open.value.pnl else 0.0])
  }

  /** One iteration, on the bars up to and including the current one. */
  function BarStep(p: Setup, s: State, window: seq<Bar>): State
    requires window != []
  {
    if s.Failed? then s
    else Mark(MaybeEnter(p, Settle(s, window[|window| - 1], p.ins), window))
  }

  /** State after the first n bars. */
  function Loop(p: Setup, ohlc: seq<Bar>, n: nat): State
    requires n <= |ohlc|
  {
    if n <= p.lookback then State(p.start, None, [], [])
    else BarStep(p, Loop(p, ohlc, n - 1), ohlc[..n])
  }

  /** Whatever is still open is closed at the last close. */
  function Finish(p: Setup, s: State, ohlc: seq<Bar>): State {
    if s.Failed? || s.open.None? || ohlc == [] then s
    else
      var last := ohlc[|ohlc| - 1];
      var done := ClosedAt(s.open.value, last.close, last.ts, EndOfData, p.ins);
      s.(equity := s.equity + done.pnl, open := None, trades := s.trades + [done])
  }

  function BacktestResult(p: Setup, ohlc: seq<Bar>): State {
    Finish(p, Loop(p, ohlc, |ohlc|), ohlc)
  }

  // ------------------------------------------------ one bar, in its numbers

  predicate Touches(side: Side, level: real, b: Bar, below: bool) {
    if (side == Buy) == below then b.low <= level else b.high >= level
  }

  /** What a bar does to an open trade: out at the stop when the bar touches it, a touched target
      notwithstanding; else out at a touched target; else nothing. The profit is the way from
      entry to exit in the trade's direction, in pips, times pip value and lots, and goes to the
      equity. */
  lemma BarSettles(s: State, b: Bar, ins: Instrument)
    requires s.State? && s.open.Some?
    ensures var t, s' := s.open.value, Settle(s, b, ins);
            var stopped, targeted := Touches(t.side, t.stop, b, true), Touches(t.side, t.target, b, false);
            if !stopped && !targeted then s' == s
            else
              var exit := if stopped then t.stop else t.target;
              var pnl := Earned(t.side, t.entry, exit, t.lots, ins);
              s' == s.(equity := s.equity + pnl, open := None,
                       trades := s.trades + [t.(exitTime := Some(b.ts), exit := Some(exit), pnl := pnl,
                                                reason := if stopped then StopHit else TargetHit)])
  {
    var t := s.open.value;
    PnlIsEarned(t, t.stop, ins);
    PnlIsEarned(t, t.target, ins);
  }

  function Earned(side: Side, entry: real, exit: real, lots: real, ins: Instrument): real {
    (if side == Buy then exit - entry else entry - exit) / ins.size * ins.value * lots
  }

  lemma PnlIsEarned(t: TradeV, exit: real, ins: Instrument)
    ensures Pnl(t, exit, ins) == Earned(t.side, t.entry, exit, t.lots, ins)
  {
  }

  /** What a signal opens: at its price and time with its levels, a missing one at 0.0; sized
      from the equity when it names a stop away from its price, else 0.01 lots. */
  lemma SignalOpens(s: Signal, equity: real, riskPct: real, ins: Instrument)
    requires s.Enter?
    ensures var t := OpenFromSignal(s, equity, riskPct, ins);
            var stop := s.stop.GetOr(0.0);
            t.Some? ==>
              && t.value == TradeV(s.side, s.ts, s.price, stop, s.target.GetOr(0.0), t.value.lots, None, None, 0.0,
                                   Running)
              && if stop == 0.0 || stop == s.price then t.value.lots == 0.01
                 else LotSizeFromRisk(equity, riskPct, Abs(s.price - stop) / ins.size, ins) == Lots(t.value.lots)
  {
  }

  /** Who decides at bar `n` and on what: while a trade stays open nobody is asked; otherwise the
      strategy sees every bar up to this one, and what its signal opens, sized from the equity
      after this bar's exit, is what stands open. */
  lemma BarEnters(p: Setup, ohlc: seq<Bar>, n: nat)
    requires p.lookback <= n < |ohlc| && Loop(p, ohlc, n).State?
    ensures var settled, after := Settle(Loop(p, ohlc, n), ohlc[n], p.ins), Loop(p, ohlc, n + 1);
            var signal := p.strategy(ohlc[..n + 1]);
            if settled.open.Some? || signal.Hold? then
              after.State? && after.open == settled.open && after.trades == settled.trades
            else
              var t := OpenFromSignal(signal, settled.equity, p.riskPct, p.ins);
              if t.None? then after.Failed?
              else after.State? && after.open == t && after.trades == settled.trades && after.equity == settled.equity
  {
    assert ohlc[..n + 1][n] == ohlc[n];
  }

  // ------------------------------------------------- the program's form

  class Trade {
    const side: Side
    const entryTime: int
    const entry: real
    const stop: real
    const target: real
    const lots: real
    var exitTime: Option<int>
    var exit: Option<real>
    var pnl: real
    var reason: Reason

    constructor (v: TradeV)
      ensures Val() == v
    {
      side, entryTime, entry, stop, target, lots := v.side, v.entryTime, v.entry, v.stop, v.target, v.lots;
      exitTime, exit, pnl, reason := v.exitTime, v.exit, v.pnl, v.reason;
    }

    function Val(): TradeV
      reads this
    {
      TradeV(side, entryTime, entry, stop, target, lots, exitTime, exit, pnl, reason)
    }

    method Close(price: real, ts: int, why: Reason, ins: Instrument)
      modifies this
      ensures Val() == ClosedAt(old(Val()), price, ts, why, ins)
    {
      exitTime := Some(ts);
      exit := Some(price);
      pnl := Pnl(Val(), price, ins);
      reason := why;
    }

    method CheckStopOrTarget(b: Bar, ins: Instrument) returns (filled: bool)
      modifies this
      ensures var hit := ExitOn(side, stop, target, b);
              && (filled <==> hit.Some?)
              && Val() == if filled then ClosedAt(old(Val()), hit.value.0, b.ts, hit.value.1, ins) else old(Val())
    {
      if side == Buy {
        if b.low <= stop {
          Close(stop, b.ts, StopHit, ins);
          return true;
        }
        if b.high >= target {
          Close(target, b.ts, TargetHit, ins);
          return true;
        }
      } else {
        if b.high >= stop {
          Close(stop, b.ts, StopHit, ins);
          return true;
        }
        if b.low <= target {
          Close(target, b.ts, TargetHit, ins);
          return true;
        }
      }
      return false;
    }
  }

  ghost predicate Reflects(open: Trade?, trades: seq<Trade>, equity: real, curve: seq<real>, s: State)
    reads open, trades
  {
    && s.State? && s.equity == equity && s.curve == curve
    && (if open == null then s.open == None else s.open == Some(open.Val()) && open !in trades)
    && |trades| == |s.trades| && forall k :: 0 <= k < |trades| ==> trades[k].Val() == s.trades[k]
  }

  method RunBacktest(p: Setup, ohlc: seq<Bar>)
    returns (failed: bool, trades: seq<Trade>, curve: seq<real>, equity: real)
    ensures failed <==> BacktestResult(p, ohlc).Failed?
    ensures !failed ==> Reflects(null, trades, equity, curve, BacktestResult(p, ohlc))
  {
    failed := false;
    equity, trades, curve := p.start, [], [];
    var open: Trade? := null;
    var i := p.lookback;
    while i < |ohlc|
      invariant p.lookback <= i
      invariant fresh(trades) && (open != null ==> fresh(open))
      invariant i <= |ohlc| ==> Reflects(open, trades, equity, curve, Loop(p, ohlc, i))
      invariant i > |ohlc| ==> i == p.lookback && open == null
      invariant i > |ohlc| ==> Reflects(null, trades, equity, curve, Loop(p, ohlc, |ohlc|))
    {
      var window := ohlc[..i + 1];
      ghost var s := Loop(p, ohlc, i);
      open, trades, equity := SettleBar(open, trades, equity, ohlc[i], p.ins, curve, s);
      if open == null {
        s := Settle(s, ohlc[i], p.ins);
        failed, open := EnterBar(p, window, trades, equity, curve, s);
        if failed {
          LoopStaysFailed(p, ohlc, i + 1, |ohlc|);
          return true, [], [], 0.0;
        }
      }
      curve := curve + [equity + if open != null then open.pnl else 0.0];
      i := i + 1;
    }
    if open != null {
      trades, equity := ForceOut(p, ohlc, open, trades, equity, curve, Loop(p, ohlc, |ohlc|));
    }
  }

  /** The data end with a trade open: it is closed at the last close. */
  method ForceOut(p: Setup, ohlc: seq<Bar>, open: Trade, trades: seq<Trade>, equity: real, ghost curve: seq<real>,
                  ghost s: State)
    returns (trades': seq<Trade>, equity': real)
    requires ohlc != [] && Reflects(open, trades, equity, curve, s)
    modifies open
    ensures Reflects(null, trades', equity', curve, Finish(p, s, ohlc))
  {
    var last := ohlc[|ohlc| - 1];
    open.Close(last.close, last.ts, EndOfData, p.ins);
    trades', equity' := trades + [open], equity + open.pnl;
  }

  method SettleBar(open: Trade?, trades: seq<Trade>, equity: real, b: Bar, ins: Instrument, ghost curve: seq<real>,
                   ghost s: State)
    returns (open': Trade?, trades': seq<Trade>, equity': real)
    requires Reflects(open, trades, equity, curve, s)
    modifies open
    ensures Reflects(open', trades', equity', curve, Settle(s, b, ins))
    ensures open' == null || open' == open
    ensures trades' == trades || (open != null && trades' == trades + [open])
  {
    open', trades', equity' := open, trades, equity;
    if open != null {
      var filled := open.CheckStopOrTarget(b, ins);
      if filled {
        equity' := equity + open.pnl;
        trades' := trades + [open];
        open' := null;
      }
    }
  }

  method EnterBar(p: Setup, window: seq<Bar>, trades: seq<Trade>, equity: real, ghost curve: seq<real>, ghost s: State)
    returns (failed: bool, open: Trade?)
    requires window != [] && Reflects(null, trades, equity, curve, s)
    ensures failed <==> MaybeEnter(p, s, window).Failed?
    ensures !failed ==> Reflects(open, trades, equity, curve, MaybeEnter(p, s, window))
    ensures open != null ==> fresh(open)
  {
    failed, open := false, null;
    var signal := p.strategy(window);
    if signal.Enter? {
      var t := OpenFromSignal(signal, equity, p.riskPct, p.ins);
      if t.None? {
        return true, null;
      }
      open := new Trade(t.value);
    }
  }

  lemma {:induction false} LoopStaysFailed(p: Setup, ohlc: seq<Bar>, n: nat, m: nat)
    requires n <= m <= |ohlc| && Loop(p, ohlc, n).Failed?
    ensures Loop(p, ohlc, m).Failed?
    decreases m
  {
    if n < m { LoopStaysFailed(p, ohlc, n, m - 1); }
  }

  // ---------------------------------------------------- no look-ahead

  /** After n bars the state is a function of those n bars. */
  lemma {:induction false} LoopReadsOnlyThePast(p: Setup, a: seq<Bar>, b: seq<Bar>, n: nat)
    requires n <= |a| && n <= |b| && a[..n] == b[..n]
    ensures Loop(p, a, n) == Loop(p, b, n)
  {
    if n > p.lookback {
      assert a[..n - 1] == a[..n][..n - 1] && b[..n - 1] == b[..n][..n - 1];
      LoopReadsOnlyThePast(p, a, b, n - 1);
    }
  }

  lemma {:induction false} LoopOnlyAppends(p: Setup, ohlc: seq<Bar>, n: nat, m: nat)
    requires n <= m <= |ohlc| && Loop(p, ohlc, m).State?
    ensures Loop(p, ohlc, n).State?
    ensures Loop(p, ohlc, n).trades <= Loop(p, ohlc, m).trades
    ensures Loop(p, ohlc, n).curve <= Loop(p, ohlc, m).curve
    decreases m
  {
    if n < m {
      if m > p.lookback { LoopOnlyAppends(p, ohlc, n, m - 1); }
    }
  }

  /** On a series that extends a shorter one: the same closed trades, the same curve
      points; only a trade forced out at the end of the shorter data may differ. */
  lemma NoLookAhead(p: Setup, short: seq<Bar>, long: seq<Bar>)
    requires short <= long && BacktestResult(p, long).State?
    ensures BacktestResult(p, short).State?
    ensures BacktestResult(p, short).curve <= BacktestResult(p, long).curve
    ensures var mine := BacktestResult(p, short).trades;
            || mine <= BacktestResult(p, long).trades
            || (mine != [] && mine[|mine| - 1].reason == EndOfData
                && mine[..|mine| - 1] <= BacktestResult(p, long).trades)
  {
    LoopReadsOnlyThePast(p, short, long, |short|);
    LoopOnlyAppends(p, long, |short|, |long|);
  }

  // --------------------------------------------------------- conservation

  /** Equity after the given closed trades. */
  function EquityAfter(start: real, trades: seq<TradeV>): real {
    if trades == [] then start else EquityAfter(start, trades[..|trades| - 1]) + trades[|trades| - 1].pnl
  }

  ghost predicate Conserved(start: real, s: State) {
    s.State? ==> s.equity == EquityAfter(start, s.trades) && (s.open.Some? ==> s.open.value.pnl == 0.0)
  }

  lemma SettleConserves(start: real, s: State, b: Bar, ins: Instrument)
    requires s.State? && Conserved(start, s)
    ensures Conserved(start, Settle(s, b, ins))
  {
    var s' := Settle(s, b, ins);
    if |s'.trades| > |s.trades| { assert s'.trades[..|s.trades|] == s.trades; }
  }

  lemma {:induction false} LoopConserves(p: Setup, ohlc: seq<Bar>, n: nat)
    requires n <= |ohlc|
    ensures var s := Loop(p, ohlc, n);
            Conserved(p.start, s) && (s.State? ==> |s.curve| == if n > p.lookback then n - p.lookback else 0)
  {
    if n > p.lookback {
      LoopConserves(p, ohlc, n - 1);
      BarConserves(p, Loop(p, ohlc, n - 1), ohlc[..n]);
    }
  }

  lemma BarConserves(p: Setup, s: State, window: seq<Bar>)
    requires window != [] && Conserved(p.start, s)
    ensures var s' := BarStep(p, s, window);
            Conserved(p.start, s') && (s'.State? ==> s.State? && |s'.curve| == |s.curve| + 1)
  {
    if s.State? { SettleConserves(p.start, s, window[|window| - 1], p.ins); }
  }

  /** The point drawn at a bar is the equity after that bar. */
  lemma CurvePoint(p: Setup, ohlc: seq<Bar>, n: nat)
    requires p.lookback < n <= |ohlc| && Loop(p, ohlc, n).State?
    ensures var s := Loop(p, ohlc, n); |s.curve| == n - p.lookback && s.curve[|s.curve| - 1] == s.equity
  {
    LoopConserves(p, ohlc, n);
    LoopConserves(p, ohlc, n - 1);
  }

  /** Final equity is the start plus every trade's profit, and each curve point is the
      start plus the profits closed by that bar: an open trade contributes nothing to
      the curve. */
  lemma EquityConserved(p: Setup, ohlc: seq<Bar>, i: nat)
    requires BacktestResult(p, ohlc).State?
    ensures BacktestResult(p, ohlc).equity == EquityAfter(p.start, BacktestResult(p, ohlc).trades)
    ensures p.lookback + i < |ohlc| ==>
              && Loop(p, ohlc, p.lookback + i + 1).State?
              && i < |BacktestResult(p, ohlc).curve|
              && BacktestResult(p, ohlc).curve[i] == EquityAfter(p.start, Loop(p, ohlc, p.lookback + i + 1).trades)
  {
    LoopConserves(p, ohlc, |ohlc|);
    var s, f := Loop(p, ohlc, |ohlc|), BacktestResult(p, ohlc);
    if |f.trades| > |s.trades| { assert f.trades[..|s.trades|] == s.trades; }
    if p.lookback + i < |ohlc| {
      var n := p.lookback + i + 1;
      LoopOnlyAppends(p, ohlc, n, |ohlc|);
      LoopConserves(p, ohlc, n);
      CurvePoint(p, ohlc, n);
    }
  }
}
