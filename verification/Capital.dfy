/** How much a backtest can lose. */
module Capital {
  import opened Common
  import opened PositionSizing
  import opened Backtest

  function Pow(x: real, n: nat): real {
    if n == 0 then 1.0 else Pow(x, n - 1) * x
  }

  /** Price is the bar's close, the stop is real and on the losing side, the target not
      beyond the stop. Some strategies do not guarantee this. */
  predicate Sound(s: Signal, b: Bar) {
    s.Enter? ==>
      && s.price == b.close
      && s.stop.Some? && s.stop.value != 0.0
      && s.target.Some?
      && if s.side == Buy then s.stop.value < s.price && s.stop.value <= s.target.value
         else s.price < s.stop.value && s.target.value <= s.stop.value
  }

  ghost predicate SoundOn(strategy: Strategy, ohlc: seq<Bar>) {
    forall n :: 0 < n <= |ohlc| ==> WellFormedBar(ohlc[n - 1]) && Sound(strategy(ohlc[..n]), ohlc[n - 1])
  }

  /** What one trade may lose. */
  function Budget(equity: real, riskPct: real): real {
    equity * riskPct
  }

  // ------------------------------------------------------------ one trade

  /** The stop of an open trade is on the losing side, its target not beyond the stop, and
      what it can lose at its stop is within the risk budget of `equity`. */
  ghost predicate Sized(t: TradeV, equity: real, riskPct: real, ins: Instrument) {
    && (if t.side == Buy then t.stop < t.entry && t.stop <= t.target else t.entry < t.stop && t.target <= t.stop)
    && t.lots >= 0.0
    && 0.0 <= RiskMoney(Abs(t.entry - t.stop), t.lots, ins) <= Budget(equity, riskPct)
  }

  /** The price has not crossed the stop. */
  predicate StopSafe(t: TradeV, price: real) {
    if t.side == Buy then price >= t.stop else price <= t.stop
  }

  lemma OpensSized(s: Signal, b: Bar, equity: real, riskPct: real, ins: Instrument)
    requires s.Enter? && Sound(s, b) && equity >= 0.0 && 0.0 < riskPct < 1.0
    ensures OpenFromSignal(s, equity, riskPct, ins).Some?
    ensures Sized(OpenFromSignal(s, equity, riskPct, ins).value, equity, riskPct, ins)
    ensures OpenFromSignal(s, equity, riskPct, ins).value.entry == b.close
  {
    MoneyWithinBudget(equity, riskPct, Abs(s.price - s.stop.value), ins);
  }

  lemma ProfitMonotone(a: real, b: real, lots: real, ins: Instrument)
    requires a <= b && lots >= 0.0
    ensures Profit(a, lots, ins) <= Profit(b, lots, ins)
  {
    var p, q := Quotient(a, ins.size), Quotient(b, ins.size);
    if p > q { StrictMul(q, p, ins.size); }
    MulMono(p, q, ins.value);
    MulMono(p * ins.value, q * ins.value, lots);
  }

  lemma ProfitOfLoss(d: real, lots: real, ins: Instrument)
    ensures Profit(-d, lots, ins) == -RiskMoney(d, lots, ins)
  {
    var p, q := Quotient(-d, ins.size), Quotient(d, ins.size);
    assert (p + q) * ins.size == 0.0;
    if p + q > 0.0 { StrictMul(0.0, p + q, ins.size); }
    if p + q < 0.0 { StrictMul(p + q, 0.0, ins.size); }
    NegateProduct(q, ins.value, lots);
  }

  lemma NegateProduct(q: real, v: real, l: real)
    ensures -q * v * l == -(q * v * l)
  {
    assert -q * v == -(q * v);
  }

  /** A sized trade closed on the safe side of its stop loses at most its budget. */
  lemma LossBound(t: TradeV, price: real, equity: real, riskPct: real, ins: Instrument)
    requires Sized(t, equity, riskPct, ins) && StopSafe(t, price)
    ensures Pnl(t, price, ins) >= -Budget(equity, riskPct)
  {
    var d := Abs(t.entry - t.stop);
    ProfitOfLoss(d, t.lots, ins);
    ProfitMonotone(-d, if t.side == Buy then price - t.entry else t.entry - price, t.lots, ins);
  }

  // ----------------------------------------------- exactly which signals

  /** What the trade makes of one more bar: an exit at a level, or, when the data end there,
      the forced exit at the close. */
  function ExitPrice(t: TradeV, b: Bar): real {
    match ExitOn(t.side, t.stop, t.target, b)
    case Some(hit) => hit.0
    case None => b.close
  }

  /** Whatever well-formed bar comes next, the trade loses at most the budget. */
  ghost predicate BoundedOnEveryBar(t: TradeV, budget: real, ins: Instrument) {
    forall b :: WellFormedBar(b) ==> Pnl(t, ExitPrice(t, b), ins) >= -budget
  }

  /** A bar that exits at the stop, and one that reaches only the target. */
  function StopBar(t: TradeV): Bar {
    Bar(0, t.stop, t.stop, t.stop, t.stop)
  }

  function TargetBar(t: TradeV): Bar {
    if t.side == Buy then Bar(0, t.stop + 1.0, Max(t.target, t.stop + 1.0), t.stop + 1.0, t.stop + 1.0)
    else Bar(0, t.stop - 1.0, t.stop - 1.0, Min(t.target, t.stop - 1.0), t.stop - 1.0)
  }

  lemma LevelsAreReached(t: TradeV)
    ensures WellFormedBar(StopBar(t)) && ExitPrice(t, StopBar(t)) == t.stop
    ensures WellFormedBar(TargetBar(t)) && ExitPrice(t, TargetBar(t)) == t.target
  {
  }

  lemma BetterThanStop(t: TradeV, b: Bar, ins: Instrument)
    requires t.lots >= 0.0 && WellFormedBar(b) && ExitOn(t.side, t.stop, t.target, b) == None
    ensures Pnl(t, b.close, ins) >= Pnl(t, t.stop, ins)
  {
    if t.side == Buy {
      ProfitMonotone(t.stop - t.entry, b.close - t.entry, t.lots, ins);
    } else {
      ProfitMonotone(t.entry - t.stop, t.entry - b.close, t.lots, ins);
    }
  }

  /** A trade keeps the budget on every bar exactly when both its levels do. */
  lemma BoundedIff(t: TradeV, budget: real, ins: Instrument)
    requires t.lots >= 0.0
    ensures BoundedOnEveryBar(t, budget, ins) <==> Pnl(t, t.stop, ins) >= -budget && Pnl(t, t.target, ins) >= -budget
  {
    LevelsAreReached(t);
    if Pnl(t, t.stop, ins) >= -budget && Pnl(t, t.target, ins) >= -budget {
      forall b | WellFormedBar(b) ensures Pnl(t, ExitPrice(t, b), ins) >= -budget {
        if ExitOn(t.side, t.stop, t.target, b) == None {
          BetterThanStop(t, b, ins);
        }
      }
    }
  }

  /** How far a level, 0.0 when it is missing, lies on the losing side of the price. */
  function LossAt(s: Signal, level: Option<real>): real
    requires s.Enter?
  {
    if s.side == Buy then s.price - level.GetOr(0.0) else level.GetOr(0.0) - s.price
  }

  /** The signal names a stop away from its price, so its lot is sized from the budget. */
  predicate IsSized(s: Signal)
    requires s.Enter?
  {
    s.stop.GetOr(0.0) != 0.0 && s.stop.GetOr(0.0) != s.price
  }

  /** A signal opens a trade unless it is to be sized for a risk that is no fraction; its lots
      are never negative. */
  lemma OpensIff(s: Signal, equity: real, riskPct: real, ins: Instrument)
    requires s.Enter?
    ensures OpenFromSignal(s, equity, riskPct, ins).Some? <==> !IsSized(s) || 0.0 < riskPct < 1.0
    ensures var t := OpenFromSignal(s, equity, riskPct, ins);
            t.Some? ==> t.value.lots >= 0.0
  {
    if IsSized(s) && 0.0 < riskPct < 1.0 {
      var d := Abs(s.price - s.stop.value);
      var pips := Quotient(d, ins.size);
      PositivePips(d, pips, ins.size);
      DefaultLotIsSafe(equity, riskPct, pips, ins);
    }
  }

  lemma PositivePips(d: real, pips: real, size: real)
    requires d > 0.0 && size > 0.0 && pips * size == d
    ensures pips > 0.0
  {
    if pips <= 0.0 { MulMono(pips, 0.0, size); }
  }

  /** Every signal, with a stop or without: the trade it opens keeps its budget whatever comes
      exactly when what it would lose at its stop and at its target is within the budget. */
  lemma SignalBoundedIff(s: Signal, equity: real, riskPct: real, ins: Instrument)
    requires s.Enter? && OpenFromSignal(s, equity, riskPct, ins).Some?
    ensures var t, budget := OpenFromSignal(s, equity, riskPct, ins).value, Budget(equity, riskPct);
            BoundedOnEveryBar(t, budget, ins) <==>
            RiskMoney(LossAt(s, s.stop), t.lots, ins) <= budget && RiskMoney(LossAt(s, s.target), t.lots, ins) <= budget
  {
    var t := OpenFromSignal(s, equity, riskPct, ins).value;
    OpensIff(s, equity, riskPct, ins);
    ProfitOfLoss(LossAt(s, s.stop), t.lots, ins);
    ProfitOfLoss(LossAt(s, s.target), t.lots, ins);
    BoundedIff(t, Budget(equity, riskPct), ins);
  }

  /** A sized signal never loses more than its budget at its stop, on whichever side it is: for
      it only the target decides. */
  lemma SizedStopIsWithin(s: Signal, equity: real, riskPct: real, ins: Instrument)
    requires s.Enter? && IsSized(s) && equity >= 0.0 && 0.0 < riskPct < 1.0
    ensures OpenFromSignal(s, equity, riskPct, ins).Some?
    ensures var t := OpenFromSignal(s, equity, riskPct, ins).value;
            RiskMoney(LossAt(s, s.stop), t.lots, ins) <= Budget(equity, riskPct)
  {
    var d := Abs(s.price - s.stop.value);
    MoneyWithinBudget(equity, riskPct, d, ins);
    var t := OpenFromSignal(s, equity, riskPct, ins).value;
    MulMono(0.0, equity, riskPct);
    ProfitOfLoss(d, t.lots, ins);
    ProfitOfLoss(-d, t.lots, ins);
    ProfitMonotone(-d, d, t.lots, ins);
    assert LossAt(s, s.stop) in {d, -d};
  }

  /** Why a stop is needed: without one the lot is 0.01 and the stop level 0.0. The loss at the
      target is nothing here, and a close at half the price loses five hundred times the budget. */
  lemma StoplessExample()
    ensures var s, ins := Enter(0, Buy, 1.0, None, Some(1.2)), PipInfo(0.0001, 10.0);
            var t := OpenFromSignal(s, 100.0, 0.01, ins).value;
            && RiskMoney(LossAt(s, s.target), t.lots, ins) <= Budget(100.0, 0.01)
            && !BoundedOnEveryBar(t, Budget(100.0, 0.01), ins)
  {
    var s, ins := Enter(0, Buy, 1.0, None, Some(1.2)), PipInfo(0.0001, 10.0);
    var t := OpenFromSignal(s, 100.0, 0.01, ins).value;
    var b := Bar(1, 0.5, 0.5, 0.5, 0.5);
    assert ExitPrice(t, b) == 0.5 && WellFormedBar(b);
    assert Quotient(-0.5, 0.0001) == -5000.0;
    assert Pnl(t, 0.5, ins) == -500.0;
  }

  // ------------------------------------------------------------- the loop

  /** No trade lost more than the given fraction of the equity it was opened with. */
  ghost predicate LossesBounded(start: real, riskPct: real, trades: seq<TradeV>) {
    trades != [] ==>
      var before, last := trades[..|trades| - 1], trades[|trades| - 1];
      LossesBounded(start, riskPct, before) && last.pnl >= -Budget(EquityAfter(start, before), riskPct)
  }

  ghost predicate Safe(p: Setup, s: State, b: Bar) {
    && s.State?
    && s.equity == EquityAfter(p.start, s.trades)
    && LossesBounded(p.start, p.riskPct, s.trades)
    && (s.open.Some? ==> Sized(s.open.value, s.equity, p.riskPct, p.ins) && StopSafe(s.open.value, b.close))
  }

  function Lose(x: real, riskPct: real): real {
    x * (1.0 - riskPct)
  }

  /** What is left of the start after n worst trades. */
  function Floor(start: real, riskPct: real, n: nat): real {
    if n == 0 then start else Lose(Floor(start, riskPct, n - 1), riskPct)
  }

  lemma {:induction false} FloorIsPower(start: real, riskPct: real, n: nat)
    ensures Floor(start, riskPct, n) == start * Pow(1.0 - riskPct, n)
  {
    if n > 0 {
      FloorIsPower(start, riskPct, n - 1);
      Reassociate(start, Pow(1.0 - riskPct, n - 1), 1.0 - riskPct);
    }
  }

  lemma Reassociate(a: real, b: real, c: real)
    ensures (a * b) * c == a * (b * c)
  {
  }

  lemma {:induction false} BoundedEquity(start: real, riskPct: real, trades: seq<TradeV>)
    requires start > 0.0 && 0.0 < riskPct < 1.0 && LossesBounded(start, riskPct, trades)
    ensures EquityAfter(start, trades) >= Floor(start, riskPct, |trades|) > 0.0
  {
    if trades != [] {
      var n := |trades| - 1;
      BoundedEquity(start, riskPct, trades[..n]);
      Shrink(EquityAfter(start, trades[..n]), Floor(start, riskPct, n), riskPct, trades[n].pnl);
    }
  }

  lemma Shrink(e: real, floor: real, r: real, pnl: real)
    requires e >= floor > 0.0 && 0.0 < r < 1.0 && pnl >= -Budget(e, r)
    ensures e + pnl >= Lose(floor, r) > 0.0
  {
    MulMono(floor, e, 1.0 - r);
    StrictMul(0.0, floor, 1.0 - r);
    Distribute(e, r);
  }

  lemma Distribute(e: real, r: real)
    ensures Lose(e, r) == e - Budget(e, r)
  {
  }

  /** Appending a trade that lost at most its budget. */
  lemma AppendBounded(start: real, riskPct: real, trades: seq<TradeV>, t: TradeV)
    requires LossesBounded(start, riskPct, trades) && t.pnl >= -Budget(EquityAfter(start, trades), riskPct)
    ensures LossesBounded(start, riskPct, trades + [t])
    ensures EquityAfter(start, trades + [t]) == EquityAfter(start, trades) + t.pnl
  {
    assert (trades + [t])[..|trades|] == trades;
  }

  /** A trade the bar did not exit is on the safe side of its stop at the close. */
  lemma SettleSafe(p: Setup, s: State, prev: Bar, b: Bar)
    requires Safe(p, s, prev) && WellFormedBar(b)
    ensures Safe(p, Settle(s, b, p.ins), b)
  {
    if s.open.Some? {
      var t := s.open.value;
      var hit := ExitOn(t.side, t.stop, t.target, b);
      if hit.Some? {
        LossBound(t, hit.value.0, s.equity, p.riskPct, p.ins);
        AppendBounded(p.start, p.riskPct, s.trades, ClosedAt(t, hit.value.0, b.ts, hit.value.1, p.ins));
      }
    }
  }

  lemma EnterSafe(p: Setup, s: State, window: seq<Bar>)
    requires window != [] && Safe(p, s, window[|window| - 1]) && Sound(p.strategy(window), window[|window| - 1])
    requires p.start > 0.0 && 0.0 < p.riskPct < 1.0
    ensures Safe(p, MaybeEnter(p, s, window), window[|window| - 1])
  {
    var b := window[|window| - 1];
    if s.open.None? && p.strategy(window).Enter? {
      BoundedEquity(p.start, p.riskPct, s.trades);
      OpensSized(p.strategy(window), b, s.equity, p.riskPct, p.ins);
    }
  }

  lemma BarSafe(p: Setup, s: State, prev: Bar, window: seq<Bar>)
    requires window != [] && Safe(p, s, prev) && p.start > 0.0 && 0.0 < p.riskPct < 1.0
    requires WellFormedBar(window[|window| - 1]) && Sound(p.strategy(window), window[|window| - 1])
    ensures Safe(p, BarStep(p, s, window), window[|window| - 1])
  {
    var b := window[|window| - 1];
    SettleSafe(p, s, prev, b);
    EnterSafe(p, Settle(s, b, p.ins), window);
  }

  /** Before the first bar. */
  lemma StartSafe(p: Setup, b: Bar)
    ensures Safe(p, State(p.start, None, [], []), b)
  {
  }

  lemma {:induction false} LoopSafe(p: Setup, ohlc: seq<Bar>, n: nat, prev: Bar)
    requires n <= |ohlc| && SoundOn(p.strategy, ohlc) && p.start > 0.0 && 0.0 < p.riskPct < 1.0
    requires n > p.lookback ==> prev == ohlc[n - 1]
    ensures Safe(p, Loop(p, ohlc, n), prev)
    ensures n <= p.lookback ==> Loop(p, ohlc, n).open.None?
  {
    if n <= p.lookback {
      StartSafe(p, prev);
    } else {
      var before := if n - 1 > p.lookback then ohlc[n - 2] else prev;
      LoopSafe(p, ohlc, n - 1, before);
      assert ohlc[..n][n - 1] == ohlc[n - 1];
      BarSafe(p, Loop(p, ohlc, n - 1), before, ohlc[..n]);
    }
  }

  /** For well-formed bars and sound signals the run never fails, no trade loses more
      than `riskPct` of the equity it was opened with, the forced exit at the end of
      the data included, and n trades leave at least (1 - riskPct)^n of the start. */
  lemma CapitalBound(p: Setup, ohlc: seq<Bar>)
    requires SoundOn(p.strategy, ohlc) && p.start > 0.0 && 0.0 < p.riskPct < 1.0
    ensures var r := BacktestResult(p, ohlc);
            && r.State?
            && LossesBounded(p.start, p.riskPct, r.trades)
            && r.equity >= Floor(p.start, p.riskPct, |r.trades|) > 0.0
  {
    var n := |ohlc|;
    LoopSafe(p, ohlc, n, if n > 0 then ohlc[n - 1] else Bar(0, 0.0, 0.0, 0.0, 0.0));
    var s := Loop(p, ohlc, n);
    if s.open.Some? {
      var last := ohlc[n - 1];
      LossBound(s.open.value, last.close, s.equity, p.riskPct, p.ins);
      AppendBounded(p.start, p.riskPct, s.trades, ClosedAt(s.open.value, last.close, last.ts, EndOfData, p.ins));
    }
    BoundedEquity(p.start, p.riskPct, BacktestResult(p, ohlc).trades);
  }

  /** Why a target is needed: a missing one becomes level 0.0, which every bar of a buy
      has already reached, so the trade exits at price zero on its next bar. */
  lemma MissingTargetExitsAtZero(s: Signal, b: Bar, equity: real, riskPct: real, ins: Instrument)
    requires s.Enter? && s.side == Buy && s.stop.Some? && s.target.None?
    requires OpenFromSignal(s, equity, riskPct, ins).Some?
    requires b.low > s.stop.value && b.high >= 0.0
    ensures var t := OpenFromSignal(s, equity, riskPct, ins).value;
            ExitOn(t.side, t.stop, t.target, b) == Some((0.0, TargetHit))
  {
  }

  /** The whole equity can go that way: one lot-sized buy at 1.0 without a target. */
  lemma MissingTargetRuins()
    ensures var p := Setup(window => if |window| == 1 then Enter(0, Buy, 1.0, Some(0.9), None) else Hold,
                           100.0, 0.5, 0, PipInfo(0.01, 1.0));
            var r := BacktestResult(p, [Bar(0, 1.0, 1.0, 1.0, 1.0), Bar(1, 1.0, 1.0, 1.0, 1.0)]);
            r.State? && r.equity < 0.0
  {
    var p := Setup(window => if |window| == 1 then Enter(0, Buy, 1.0, Some(0.9), None) else Hold,
                   100.0, 0.5, 0, PipInfo(0.01, 1.0));
    var b0, b1 := Bar(0, 1.0, 1.0, 1.0, 1.0), Bar(1, 1.0, 1.0, 1.0, 1.0);
    var ohlc := [b0, b1];
    assert ohlc[..1] == [b0] && ohlc[..2] == ohlc;
    var s1 := Loop(p, ohlc, 1);
    FiveLots();
    assert s1 == BarStep(p, Loop(p, ohlc, 0), ohlc[..1]);
  }

  lemma FiveLots()
    ensures OpenFromSignal(Enter(0, Buy, 1.0, Some(0.9), None), 100.0, 0.5, PipInfo(0.01, 1.0)) ==
            Some(TradeV(Buy, 0, 1.0, 0.9, 0.0, 5.0, None, None, 0.0, Running))
  {
    assert Quotient(0.1, 0.01) == 10.0 && Quotient(50.0, 10.0) == 5.0;
    RoundedWhole(500);
    assert GridLots(5.0, DEFAULT_LIMITS) == 5.0;
  }
}
