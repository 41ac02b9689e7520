/** `ReplayEngine`: re-walking a closed trade's bars under other levels, and its
    agreement with the backtester's exit rule. */
module Replay {
  import opened Common
  import opened PositionSizing
  import opened Backtest

  datatype Levels = Levels(stop: real, target: real)

  /** Absolute levels win over multipliers; neither means the original level. */
  datatype Request = Request(stop: Option<real>, target: Option<real>, stopMult: Option<real>, targetMult: Option<real>)

  function Scaled(distance: real, mult: real): real {
    distance * mult
  }

  lemma ScaleUp(distance: real, mult: real)
    requires distance >= 0.0 && mult >= 1.0
    ensures Scaled(distance, mult) >= distance
  {
    MulMono(1.0, mult, distance);
  }

  function ResolveLevels(side: Side, entry: real, orig: Levels, req: Request): Levels {
    var stop :=
      if req.stop.Some? then req.stop.value
      else if req.stopMult.None? then orig.stop
      else
        var distance := Scaled(Abs(entry - orig.stop), req.stopMult.value);
        if side == Buy then entry - distance else entry + distance;
    var target :=
      if req.target.Some? then req.target.value
      else if req.targetMult.None? then orig.target
      else
        var distance := Scaled(Abs(orig.target - entry), req.targetMult.value);
        if side == Buy then entry + distance else entry - distance;
    Levels(stop, target)
  }

  /** A level of the request wins over its multiplier; a multiplier scales the original distance
      to the entry and lays it on the level's own side; neither keeps the original. */
  lemma LevelsResolve(side: Side, entry: real, orig: Levels, req: Request)
    ensures var l, sign := ResolveLevels(side, entry, orig, req), if side == Buy then 1.0 else -1.0;
            && (req.stop.Some? ==> l.stop == req.stop.value)
            && (req.stop.None? && req.stopMult.None? ==> l.stop == orig.stop)
            && (req.stop.None? && req.stopMult.Some? ==>
                  l.stop == entry - sign * (Abs(entry - orig.stop) * req.stopMult.value))
            && (req.target.Some? ==> l.target == req.target.value)
            && (req.target.None? && req.targetMult.None? ==> l.target == orig.target)
            && (req.target.None? && req.targetMult.Some? ==>
                  l.target == entry + sign * (Abs(orig.target - entry) * req.targetMult.value))
  {
  }

  datatype WalkReason = Stopped | Targeted | OpenAtEnd | NoPath

  /** The first bar on which the backtester's exit check fires. */
  function FirstExit(side: Side, l: Levels, bars: seq<Bar>): (r: Option<nat>)
    ensures r.Some? ==> r.value < |bars| && ExitOn(side, l.stop, l.target, bars[r.value]).Some?
  {
    if bars == [] then None
    else if ExitOn(side, l.stop, l.target, bars[0]).Some? then Some(0)
    else match FirstExit(side, l, bars[1..]) case None => None case Some(k) => Some(k + 1)
  }

  /** Price, reason and number of bars walked. */
  method Walk(side: Side, stop: real, target: real, bars: seq<Bar>)
    returns (price: Option<real>, reason: WalkReason, walked: nat)
    ensures var k := FirstExit(side, Levels(stop, target), bars);
            if k.None? then price == None && reason == OpenAtEnd && walked == |bars|
            else
              var hit := ExitOn(side, stop, target, bars[k.value]).value;
              && price == Some(hit.0) && walked == k.value + 1
              && reason == (if hit.1 == StopHit then Stopped else Targeted)
  {
    ghost var l := Levels(stop, target);
    for i := 0 to |bars|
      invariant FirstExit(side, l, bars)
             == match FirstExit(side, l, bars[i..]) case None => None case Some(k) => Some(k + i)
    {
      var b := bars[i];
      assert bars[i..][1..] == bars[i + 1..];
      var hitsStop := if side == Buy then b.low <= stop else b.high >= stop;
      var hitsTarget := if side == Buy then b.high >= target else b.low <= target;
      if hitsStop && hitsTarget {
        return Some(stop), Stopped, i + 1;
      }
      if hitsStop {
        return Some(stop), Stopped, i + 1;
      }
      if hitsTarget {
        return Some(target), Targeted, i + 1;
      }
    }
    return None, OpenAtEnd, |bars|;
  }

  function ReplayPnl(side: Side, entry: real, exit: real, lots: real, ins: Instrument): real {
    Quotient(if side == Buy then exit - entry else entry - exit, ins.size) * ins.value * lots
  }

  function RMultiple(side: Side, entry: real, stop: real, exit: real): Option<real> {
    var risk := Abs(entry - stop);
    if risk <= 0.0 then None else Some(Quotient(if side == Buy then exit - entry else entry - exit, risk))
  }

  /** Where the replayed trade gets out: the walk's level, or the last close. */
  function ReplayExit(side: Side, l: Levels, bars: seq<Bar>): real
    requires bars != []
  {
    match FirstExit(side, l, bars)
    case Some(k) => ExitOn(side, l.stop, l.target, bars[k]).value.0
    case None => bars[|bars| - 1].close
  }

  /** What `replay` reports for a closed trade: exit price (none without a recorded
      path), reason, profit and R. */
  datatype Report = Report(exit: Option<real>, reason: WalkReason, pnl: real, r: Option<real>, walked: nat)

  method ReplayTrade(side: Side, entry: real, orig: Levels, lots: real, ins: Instrument, req: Request, bars: seq<Bar>)
    returns (rep: Report)
    ensures var l := ResolveLevels(side, entry, orig, req);
            if bars == [] then rep == Report(None, NoPath, 0.0, None, 0)
            else
              && rep.exit == Some(ReplayExit(side, l, bars))
              && (match FirstExit(side, l, bars)
                  case None => rep.reason == OpenAtEnd && rep.walked == |bars|
                  case Some(k) =>
                    var stopped := ExitOn(side, l.stop, l.target, bars[k]).value.1 == StopHit;
                    rep.reason == (if stopped then Stopped else Targeted) && rep.walked == k + 1)
              && rep.pnl == ReplayPnl(side, entry, rep.exit.value, lots, ins)
              && rep.r == RMultiple(side, entry, l.stop, rep.exit.value)
  {
    var l := ResolveLevels(side, entry, orig, req);
    if bars == [] {
      return Report(None, NoPath, 0.0, None, 0);
    }
    var price, reason, walked := Walk(side, l.stop, l.target, bars);
    if price.None? {
      price, reason := Some(bars[|bars| - 1].close), OpenAtEnd;
    }
    return Report(price, reason, ReplayPnl(side, entry, price.value, lots, ins),
                  RMultiple(side, entry, l.stop, price.value), walked);
  }

  // ------------------------------------------- agreement with the backtester

  lemma SamePnl(t: TradeV, exit: real, ins: Instrument)
    ensures ReplayPnl(t.side, t.entry, exit, t.lots, ins) == Pnl(t, exit, ins)
  {
  }

  /** The closed trade is the replay's: its exit price and its profit. */
  ghost predicate IsReplay(closed: TradeV, t: TradeV, bars: seq<Bar>, ins: Instrument)
    requires bars != []
  {
    var exit := ReplayExit(t.side, Levels(t.stop, t.target), bars);
    closed.exit == Some(exit) && closed.pnl == ReplayPnl(t.side, t.entry, exit, t.lots, ins)
  }

  lemma {:induction false} ClosesAtFirstExit(p: Setup, ohlc: seq<Bar>, n: nat, k: nat)
    requires p.lookback <= n <= |ohlc| && Loop(p, ohlc, n).State? && Loop(p, ohlc, n).open.Some?
    requires var t := Loop(p, ohlc, n).open.value;
             FirstExit(t.side, Levels(t.stop, t.target), ohlc[n..]) == Some(k)
    ensures n + k < |ohlc|
    ensures forall m :: n <= m <= n + k ==> Holds(Loop(p, ohlc, n), Loop(p, ohlc, m))
    ensures Loop(p, ohlc, n + k + 1).State? ==>
              var t, b := Loop(p, ohlc, n).open.value, ohlc[n + k];
              var hit := ExitOn(t.side, t.stop, t.target, b).value;
              Loop(p, ohlc, n + k + 1).trades == Loop(p, ohlc, n).trades + [ClosedAt(t, hit.0, b.ts, hit.1, p.ins)]
    decreases k
  {
    OneBar(p, ohlc, n);
    if k > 0 {
      assert ohlc[n..][1..] == ohlc[n + 1..];
      ClosesAtFirstExit(p, ohlc, n + 1, k - 1);
    }
  }

  /** Over the bars after the entry, the backtest holds the trade until the bar where
      the replay first exits, and closes it there at the replay's price, with the same
      reason and the replay's profit. */
  lemma BacktestFollowsReplay(p: Setup, ohlc: seq<Bar>, n: nat, k: nat)
    requires p.lookback <= n <= |ohlc| && Loop(p, ohlc, n).State? && Loop(p, ohlc, n).open.Some?
    requires var t := Loop(p, ohlc, n).open.value;
             FirstExit(t.side, Levels(t.stop, t.target), ohlc[n..]) == Some(k)
    ensures n + k < |ohlc|
    ensures forall m :: n <= m <= n + k ==> Holds(Loop(p, ohlc, n), Loop(p, ohlc, m))
    ensures Loop(p, ohlc, n + k + 1).State? ==>
              var t, b := Loop(p, ohlc, n).open.value, ohlc[n + k];
              var hit := ExitOn(t.side, t.stop, t.target, b).value;
              var closed := ClosedAt(t, hit.0, b.ts, hit.1, p.ins);
              && Loop(p, ohlc, n + k + 1).trades == Loop(p, ohlc, n).trades + [closed]
              && IsReplay(closed, t, ohlc[n..], p.ins)
  {
    var t := Loop(p, ohlc, n).open.value;
    ClosesAtFirstExit(p, ohlc, n, k);
    SamePnl(t, ReplayExit(t.side, Levels(t.stop, t.target), ohlc[n..]), p.ins);
  }

  /** What one bar does to an open trade. */
  lemma OneBar(p: Setup, ohlc: seq<Bar>, n: nat)
    requires p.lookback <= n < |ohlc| && Loop(p, ohlc, n).State? && Loop(p, ohlc, n).open.Some?
    ensures var s, s' := Loop(p, ohlc, n), Loop(p, ohlc, n + 1);
            var t := s.open.value;
            match ExitOn(t.side, t.stop, t.target, ohlc[n])
            case None => Holds(s, s')
            case Some(hit) => s'.State? ==> s'.trades == s.trades + [ClosedAt(t, hit.0, ohlc[n].ts, hit.1, p.ins)]
  {
    assert ohlc[..n + 1][n] == ohlc[n];
  }

  /** Same open trade, same closed trades. */
  ghost predicate Holds(a: State, b: State) {
    a.State? && b.State? && a.open == b.open && a.trades == b.trades
  }

  /** A trade the replay leaves open at the end is the trade the backtest forces out,
      at the same last close and with the same profit. */
  lemma {:induction false} OpenAtEndIsForcedOut(p: Setup, ohlc: seq<Bar>, n: nat)
    requires p.lookback <= n <= |ohlc| && n > 0 && Loop(p, ohlc, n).State? && Loop(p, ohlc, n).open.Some?
    requires var t := Loop(p, ohlc, n).open.value; FirstExit(t.side, Levels(t.stop, t.target), ohlc[n..]) == None
    ensures var t, last := Loop(p, ohlc, n).open.value, ohlc[|ohlc| - 1];
            && Holds(Loop(p, ohlc, n), Loop(p, ohlc, |ohlc|))
            && var closed := ClosedAt(t, last.close, last.ts, EndOfData, p.ins);
            && BacktestResult(p, ohlc).trades == Loop(p, ohlc, n).trades + [closed]
            && (n < |ohlc| ==> IsReplay(closed, t, ohlc[n..], p.ins))
    decreases |ohlc| - n
  {
    if n < |ohlc| {
      OneBar(p, ohlc, n);
      assert ohlc[n..][1..] == ohlc[n + 1..];
      OpenAtEndIsForcedOut(p, ohlc, n + 1);
      SamePnl(Loop(p, ohlc, n).open.value, ohlc[|ohlc| - 1].close, p.ins);
    }
  }

  // ------------------------------------------------------------ widening

  predicate Wider(side: Side, a: Levels, b: Levels) {
    if side == Buy then b.stop <= a.stop && a.target <= b.target else a.stop <= b.stop && b.target <= a.target
  }

  /** Moving both levels away never makes the exit earlier. */
  lemma {:induction false} WideningNeverEarlier(side: Side, a: Levels, b: Levels, bars: seq<Bar>)
    requires Wider(side, a, b) && FirstExit(side, b, bars).Some?
    ensures FirstExit(side, a, bars).Some? && FirstExit(side, a, bars).value <= FirstExit(side, b, bars).value
  {
    if bars != [] && ExitOn(side, b.stop, b.target, bars[0]).None? {
      WideningNeverEarlier(side, a, b, bars[1..]);
    }
  }

  predicate RightSided(side: Side, entry: real, l: Levels) {
    if side == Buy then l.stop <= entry <= l.target else l.target <= entry <= l.stop
  }

  /** Multipliers of 1 give back the original levels exactly when those lie on their own
      sides of the entry. The journal's stop follows the trailing stop, which may have
      moved past the entry; the distance then flips it back to the losing side. */
  lemma UnitMultipliersIff(side: Side, entry: real, orig: Levels)
    ensures ResolveLevels(side, entry, orig, Request(None, None, Some(1.0), Some(1.0))) == orig <==>
            RightSided(side, entry, orig)
  {
  }

  /** Multipliers of at least 1 on right-sided levels widen them, so the replay is never
      out earlier than the trade was. */
  lemma MultipliersWiden(side: Side, entry: real, orig: Levels, m: real, n: real, bars: seq<Bar>)
    requires RightSided(side, entry, orig) && m >= 1.0 && n >= 1.0
    requires FirstExit(side, ResolveLevels(side, entry, orig, Request(None, None, Some(m), Some(n))), bars).Some?
    ensures var l := ResolveLevels(side, entry, orig, Request(None, None, Some(m), Some(n)));
            FirstExit(side, orig, bars).Some? && FirstExit(side, orig, bars).value <= FirstExit(side, l, bars).value
  {
    var l := ResolveLevels(side, entry, orig, Request(None, None, Some(m), Some(n)));
    ScaleUp(Abs(entry - orig.stop), m);
    ScaleUp(Abs(orig.target - entry), n);
    WideningNeverEarlier(side, orig, l, bars);
  }

  // ------------------------------------------------------------------- R

  /** R is the way from entry to exit in the trade's direction, in units of the distance from
      entry to stop; without such a distance there is none. */
  lemma RMeasures(side: Side, entry: real, stop: real, exit: real)
    ensures var r := RMultiple(side, entry, stop, exit);
            && (r.None? <==> entry == stop)
            && (r.Some? ==> r.value * Abs(entry - stop) == if side == Buy then exit - entry else entry - exit)
  {
  }

  lemma QuotientAtLeast(a: real, risk: real)
    requires risk > 0.0 && a >= -risk
    ensures Quotient(a, risk) >= -1.0 && (a == -risk ==> Quotient(a, risk) == -1.0)
  {
    var q := Quotient(a, risk);
    if q < -1.0 { StrictMul(q, -1.0, risk); }
    if a == -risk && q > -1.0 { StrictMul(-1.0, q, risk); }
  }

  lemma {:induction false} UnexitedCloseIsSafe(side: Side, l: Levels, bars: seq<Bar>)
    requires bars != [] && FirstExit(side, l, bars).None? && WellFormedBar(bars[|bars| - 1])
    ensures var c := bars[|bars| - 1].close; if side == Buy then c > l.stop else c < l.stop
  {
    if |bars| > 1 { UnexitedCloseIsSafe(side, l, bars[1..]); }
  }

  /** For right-sided levels and well-formed bars: exactly -1R on a stop, and at least
      -1R whichever way the walk ends. */
  lemma RAtLeastMinusOne(side: Side, entry: real, l: Levels, bars: seq<Bar>)
    requires RightSided(side, entry, l) && l.stop != entry && bars != [] && WellFormedBar(bars[|bars| - 1])
    ensures var exit := ReplayExit(side, l, bars);
            var r := RMultiple(side, entry, l.stop, exit);
            r.Some? && r.value >= -1.0 && (exit == l.stop ==> r.value == -1.0)
    ensures var k := FirstExit(side, l, bars);
            k.Some? && ExitOn(side, l.stop, l.target, bars[k.value]).value.1 == StopHit ==>
              ReplayExit(side, l, bars) == l.stop
  {
    var exit := ReplayExit(side, l, bars);
    if FirstExit(side, l, bars).None? { UnexitedCloseIsSafe(side, l, bars); }
    QuotientAtLeast(if side == Buy then exit - entry else entry - exit, Abs(entry - l.stop));
  }
}
