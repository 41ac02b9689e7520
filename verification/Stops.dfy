/** `StopManager`: breakeven, then trailing, as a ratchet over the bars. */
module Stops {
  import opened Common
  import opened Orders
  import opened PositionSizing

  datatype StopPolicy = StopPolicy(breakeven: real, trailStart: real, trailDistance: real)

  /** Cushion at exact R multiples. */
  const EPS := 0.000000001

  function PeakWith(side: Side, peak: Option<real>, b: Bar): real {
    match peak
    case None => if side == Buy then b.high else b.low
    case Some(p) => if side == Buy then Max(p, b.high) else Min(p, b.low)
  }

  function WithPeak(o: OrderV, b: Bar): OrderV {
    o.(extra := o.extra.(peak := Some(PeakWith(o.side, o.extra.peak, b))))
  }

  /** The stop distance that counts as 1R: from the stop remembered at entry, or from
      the current stop when the order object does not remember one. */
  function RiskUnit(o: OrderV): real {
    Abs(o.entry - if o.extra.initialStop.Some? then o.extra.initialStop.value else o.stop)
  }

  /** Favourable move of `peak` in units of `risk`. */
  function GainR(side: Side, entry: real, peak: real, risk: real): (g: real)
    requires risk > 0.0
    ensures g * risk == if side == Buy then peak - entry else entry - peak
  {
    if side == Buy then Quotient(peak - entry, risk) else Quotient(entry - peak, risk)
  }

  function TrailOffset(pol: StopPolicy, risk: real): real {
    pol.trailDistance * risk
  }

  function TargetStop(side: Side, entry: real, peak: real, risk: real, pol: StopPolicy): Option<real>
    requires risk > 0.0
  {
    var gain := GainR(side, entry, peak, risk);
    if gain + EPS >= pol.trailStart then
      var offset := TrailOffset(pol, risk);
      Some(if side == Buy then peak - offset else peak + offset)
    else if gain + EPS >= pol.breakeven then Some(entry)
    else None
  }

  function ProposedStop(o: OrderV, pol: StopPolicy): Option<real> {
    var risk := RiskUnit(o);
    if risk <= 0.0 || o.extra.peak.None? then None
    else
      match TargetStop(o.side, o.entry, o.extra.peak.value, risk, pol)
      case None => None
      case Some(s) => if (if o.side == Buy then s > o.stop else s < o.stop) then Some(s) else None
  }

  /** One bar, with an executor that accepts the modification. */
  function Trail(o: OrderV, b: Bar, pol: StopPolicy): OrderV {
    var p := WithPeak(o, b);
    match ProposedStop(p, pol) case None => p case Some(s) => p.(stop := s)
  }

  function TrailAll(o: OrderV, bars: seq<Bar>, pol: StopPolicy): OrderV {
    if bars == [] then o else Trail(TrailAll(o, bars[..|bars| - 1], pol), bars[|bars| - 1], pol)
  }

  class StopManager {
    const policy: StopPolicy

    constructor (policy: StopPolicy)
      ensures this.policy == policy
    {
      this.policy := policy;
    }

    method UpdatePeak(order: Order, b: Bar)
      modifies order`extra
      ensures order.Val() == WithPeak(old(order.Val()), b)
    {
      var best;
      match order.extra.peak {
        case None => best := if order.side == Buy then b.high else b.low;
        case Some(current) => best := if order.side == Buy then Max(current, b.high) else Min(current, b.low);
      }
      order.extra := order.extra.(peak := Some(best));
    }

    function Proposed(order: Order): Option<real>
      reads order
    {
      ProposedStop(order.Val(), policy)
    }
  }

  /** Where a trailed stop wants to be, from the best price seen and the distance that counts as
      1R: less the trailing distance once the gain reaches the trailing threshold, at the entry
      once it reaches the breakeven threshold. */
  function Sought(side: Side, entry: real, best: real, risk: real, pol: StopPolicy): Option<real> {
    var gain := (if side == Buy then best - entry else entry - best) + 0.000000001 * risk;
    if gain >= pol.trailStart * risk then
      Some(if side == Buy then best - pol.trailDistance * risk else best + pol.trailDistance * risk)
    else if gain >= pol.breakeven * risk then Some(entry)
    else None
  }

  lemma SoughtIsTarget(side: Side, entry: real, best: real, risk: real, pol: StopPolicy)
    requires risk > 0.0
    ensures TargetStop(side, entry, best, risk, pol) == Sought(side, entry, best, risk, pol)
  {
    var gain := GainR(side, entry, best, risk);
    ReachesIff(gain, pol.trailStart, risk);
    ReachesIff(gain, pol.breakeven, risk);
  }

  /** One bar: the peak becomes the best price seen, 1R is the distance from the entry to the
      remembered stop, or to the current one when none is remembered, and the stop moves to the
      level sought when that is an improvement for its side. */
  lemma OneBar(o: OrderV, b: Bar, pol: StopPolicy)
    ensures var risk := Abs(o.entry - o.extra.initialStop.GetOr(o.stop));
            var best := if o.side == Buy then Max(o.extra.peak.GetOr(b.high), b.high)
                        else Min(o.extra.peak.GetOr(b.low), b.low);
            var level := if risk > 0.0 then Sought(o.side, o.entry, best, risk, pol).GetOr(o.stop) else o.stop;
            Trail(o, b, pol) ==
              o.(extra := o.extra.(peak := Some(best)),
                 stop := if o.side == Buy then Max(o.stop, level) else Min(o.stop, level))
  {
    var p := WithPeak(o, b);
    if RiskUnit(o) > 0.0 {
      SoughtIsTarget(o.side, o.entry, p.extra.peak.value, RiskUnit(o), pol);
    }
  }

  lemma ReachesIff(gain: real, threshold: real, risk: real)
    requires risk > 0.0
    ensures gain + 0.000000001 >= threshold <==> gain * risk + 0.000000001 * risk >= threshold * risk
  {
    Distributes(gain, risk);
    if gain + 0.000000001 >= threshold {
      MulMono(threshold, gain + 0.000000001, risk);
    } else {
      StrictMul(gain + 0.000000001, threshold, risk);
    }
  }

  lemma Distributes(gain: real, risk: real)
    ensures (gain + 0.000000001) * risk == gain * risk + 0.000000001 * risk
  {
  }

  // ----------------------------------------------------------- closed form

  /** An order as the bot places it: the stop is the remembered one, no peak yet. */
  predicate Fresh(o: OrderV) {
    o.extra.initialStop == Some(o.stop) && o.extra.peak == None && o.entry != o.stop
  }

  function RunningHigh(bars: seq<Bar>): real
    requires bars != []
  {
    if |bars| == 1 then bars[0].high else Max(RunningHigh(bars[..|bars| - 1]), bars[|bars| - 1].high)
  }

  /** The stop a buy should have, given only the best price seen. */
  function StopAtPeak(o: OrderV, peak: real, pol: StopPolicy): real
    requires o.entry != o.stop
  {
    match TargetStop(Buy, o.entry, peak, Abs(o.entry - o.stop), pol)
    case None => o.stop
    case Some(s) => Max(o.stop, s)
  }

  ghost predicate CollapsesOn(o: OrderV, bars: seq<Bar>, pol: StopPolicy)
    requires o.entry != o.stop
  {
    bars != [] ==> TrailAll(o, bars, pol).stop == StopAtPeak(o, RunningHigh(bars), pol)
  }

  /** What a caller can check on the policy alone: trailing starts no lower than
      breakeven would have put the stop, or breakeven never fires first. */
  predicate Ratchets(pol: StopPolicy) {
    pol.trailDistance + EPS <= pol.trailStart || pol.trailStart <= pol.breakeven
  }

  lemma TargetMonotone(entry: real, p: real, q: real, risk: real, pol: StopPolicy)
    requires risk > 0.0 && p <= q && Ratchets(pol)
    ensures var tp, tq := TargetStop(Buy, entry, p, risk, pol), TargetStop(Buy, entry, q, risk, pol);
            tp.Some? ==> tq.Some? && tp.value <= tq.value
  {
    GainGrows(entry, p, q, risk);
    if pol.trailDistance <= GainR(Buy, entry, q, risk) {
      TrailClearsEntry(entry, q, risk, pol);
    }
  }

  lemma GainGrows(entry: real, p: real, q: real, risk: real)
    requires risk > 0.0 && p <= q
    ensures GainR(Buy, entry, p, risk) <= GainR(Buy, entry, q, risk)
  {
    var gp, gq := GainR(Buy, entry, p, risk), GainR(Buy, entry, q, risk);
    if gq < gp { StrictMul(gq, gp, risk); }
  }

  lemma TrailClearsEntry(entry: real, q: real, risk: real, pol: StopPolicy)
    requires risk > 0.0 && pol.trailDistance <= GainR(Buy, entry, q, risk)
    ensures entry <= q - TrailOffset(pol, risk)
  {
    MulMono(pol.trailDistance, GainR(Buy, entry, q, risk), risk);
  }

  /** Trailing touches only the stop and the peak, and the peak is the running high. */
  lemma {:induction false} TrailKeeps(o: OrderV, bars: seq<Bar>, pol: StopPolicy)
    requires Fresh(o) && o.side == Buy
    ensures var r := TrailAll(o, bars, pol);
            r == o.(stop := r.stop, extra := o.extra.(peak := r.extra.peak))
    ensures TrailAll(o, bars, pol).extra.peak == if bars == [] then None else Some(RunningHigh(bars))
  {
    if bars != [] {
      TrailKeeps(o, bars[..|bars| - 1], pol);
    }
  }

  /** If direction: the ratchet forgets everything but the running high. */
  lemma {:induction false} Collapses(o: OrderV, bars: seq<Bar>, pol: StopPolicy)
    requires Fresh(o) && o.side == Buy && Ratchets(pol)
    ensures CollapsesOn(o, bars, pol)
  {
    if bars != [] {
      var before := bars[..|bars| - 1];
      Collapses(o, before, pol);
      TrailKeeps(o, before, pol);
      if before != [] {
        TargetMonotone(o.entry, RunningHigh(before), RunningHigh(bars), Abs(o.entry - o.stop), pol);
      }
    }
  }

  lemma OneBarTrail(o: OrderV, b: Bar, pol: StopPolicy)
    ensures TrailAll(o, [b], pol) == Trail(o, b, pol)
  {
    assert [b][..0] == [];
  }

  lemma TwoBarTrail(o: OrderV, a: Bar, b: Bar, pol: StopPolicy)
    ensures TrailAll(o, [a, b], pol) == Trail(Trail(o, a, pol), b, pol)
  {
    OneBarTrail(o, a, pol);
    assert [a, b][..1] == [a];
  }

  /** A bar at the breakeven gain, before trailing starts, moves the stop to the entry. */
  lemma MovesToEntry(o: OrderV, b: Bar, gain: real, pol: StopPolicy)
    requires Fresh(o) && o.side == Buy && o.stop < o.entry
    requires GainR(Buy, o.entry, b.high, o.entry - o.stop) == gain && pol.breakeven <= gain + EPS < pol.trailStart
    ensures Trail(o, b, pol) == o.(stop := o.entry, extra := o.extra.(peak := Some(b.high)))
  {
    assert RiskUnit(WithPeak(o, b)) == o.entry - o.stop;
  }

  /** A later bar that is due a level behind the entry leaves the stop there. */
  lemma StaysAtEntry(o: OrderV, b: Bar, first: real, pol: StopPolicy)
    requires Fresh(o) && o.side == Buy && o.stop < o.entry && first < b.high
    requires GainR(Buy, o.entry, b.high, o.entry - o.stop) + EPS == pol.trailStart
    requires b.high - TrailOffset(pol, o.entry - o.stop) < o.entry
    ensures Trail(o.(stop := o.entry, extra := o.extra.(peak := Some(first))), b, pol).stop == o.entry
  {
    var t := WithPeak(o.(stop := o.entry, extra := o.extra.(peak := Some(first))), b);
    assert t.extra.peak == Some(b.high) && RiskUnit(t) == o.entry - o.stop;
  }

  /** Only-if direction: two bars that separate the ratchet from its closed form. */
  lemma Separates(o: OrderV, pol: StopPolicy) returns (bars: seq<Bar>)
    requires Fresh(o) && o.side == Buy && o.stop < o.entry && !Ratchets(pol)
    ensures !CollapsesOn(o, bars, pol)
  {
    var risk := o.entry - o.stop;
    var g1, g2 := pol.breakeven - EPS, pol.trailStart - EPS;
    var high1 := PriceWithGain(o.entry, g1, risk);
    var high2 := PriceWithGain(o.entry, g2, risk);
    HigherGain(o.entry, g1, g2, high1, high2, risk);
    BehindEntry(o.entry, high2, g2, risk, pol);
    var b1, b2 := Bar(0, high1, high1, high1, high1), Bar(1, high2, high2, high2, high2);
    bars := [b1, b2];
    MovesToEntry(o, b1, g1, pol);
    StaysAtEntry(o, b2, high1, pol);
    TwoBarTrail(o, b1, b2, pol);
    HighOfTwo(b1, b2);
  }

  lemma HighOfTwo(a: Bar, b: Bar)
    ensures RunningHigh([a, b]) == Max(a.high, b.high)
  {
    assert [a, b][..1] == [a];
  }

  lemma HigherGain(entry: real, g: real, h: real, p: real, q: real, risk: real)
    requires risk > 0.0 && g < h && p - entry == g * risk && q - entry == h * risk
    ensures p < q
  {
    StrictMul(g, h, risk);
  }

  lemma BehindEntry(entry: real, price: real, gain: real, risk: real, pol: StopPolicy)
    requires risk > 0.0 && gain < pol.trailDistance && price - entry == gain * risk
    ensures price - TrailOffset(pol, risk) < entry
  {
    StrictMul(gain, pol.trailDistance, risk);
  }

  lemma PriceWithGain(entry: real, g: real, risk: real) returns (price: real)
    requires risk > 0.0
    ensures GainR(Buy, entry, price, risk) == g && price - entry == g * risk
  {
    price := entry + g * risk;
    var got := GainR(Buy, entry, price, risk);
    if got < g { StrictMul(got, g, risk); }
    if got > g { StrictMul(g, got, risk); }
  }

  /** The trailing stop collapses to its closed form on every bar stream exactly
      when the policy ratchets. */
  lemma ClosedFormIff(o: OrderV, pol: StopPolicy)
    requires Fresh(o) && o.side == Buy && o.stop < o.entry
    ensures (forall bars :: CollapsesOn(o, bars, pol)) <==> Ratchets(pol)
  {
    if Ratchets(pol) {
      forall bars ensures CollapsesOn(o, bars, pol) { Collapses(o, bars, pol); }
    } else {
      var bars := Separates(o, pol);
    }
  }

  /** Best gain over the bars, in R. */
  function PeakGain(o: OrderV, bars: seq<Bar>): real
    requires o.entry != o.stop && bars != []
  {
    GainR(Buy, o.entry, RunningHigh(bars), Abs(o.entry - o.stop))
  }

  /** Whatever the policy, the stop is never behind the level due at the running high. */
  lemma StopReachesTarget(o: OrderV, bars: seq<Bar>, pol: StopPolicy)
    requires Fresh(o) && o.side == Buy && bars != []
    ensures var due := TargetStop(Buy, o.entry, RunningHigh(bars), Abs(o.entry - o.stop), pol);
            due.Some? ==> TrailAll(o, bars, pol).stop >= due.value
  {
    TrailKeeps(o, bars[..|bars| - 1], pol);
    TrailKeeps(o, bars, pol);
  }

  /** Once trailing started the stop is within the trail distance of the best price, so it
      locks in the peak gain less `trailDistance` R, under every policy. */
  lemma TrailingLocks(o: OrderV, bars: seq<Bar>, pol: StopPolicy)
    requires Fresh(o) && o.side == Buy && bars != []
    requires PeakGain(o, bars) + EPS >= pol.trailStart
    ensures TrailAll(o, bars, pol).stop >= RunningHigh(bars) - TrailOffset(pol, Abs(o.entry - o.stop))
  {
    StopReachesTarget(o, bars, pol);
  }

  /** Once breakeven triggered the stop is not behind the entry. */
  ghost predicate LocksEntry(o: OrderV, bars: seq<Bar>, pol: StopPolicy)
    requires o.entry != o.stop
  {
    bars != [] && PeakGain(o, bars) + EPS >= pol.breakeven ==> TrailAll(o, bars, pol).stop >= o.entry
  }

  /** What the level due at a peak beyond breakeven is, relative to the entry. */
  lemma DueAtEntry(entry: real, peak: real, risk: real, pol: StopPolicy)
    requires risk > 0.0 && pol.trailDistance + EPS <= Max(pol.trailStart, pol.breakeven)
    requires GainR(Buy, entry, peak, risk) + EPS >= pol.breakeven
    ensures var due := TargetStop(Buy, entry, peak, risk, pol); due.Some? && due.value >= entry
  {
    var gain := GainR(Buy, entry, peak, risk);
    if gain + EPS >= pol.trailStart {
      MulMono(pol.trailDistance, gain, risk);
    }
  }

  /** One bar that triggers breakeven and trails to behind the entry. */
  lemma FallsBehindEntry(o: OrderV, pol: StopPolicy) returns (b: Bar)
    requires Fresh(o) && o.side == Buy && o.stop < o.entry
    requires pol.trailDistance + EPS > Max(pol.trailStart, pol.breakeven)
    ensures !LocksEntry(o, [b], pol)
  {
    var risk, gain := o.entry - o.stop, Max(pol.trailStart, pol.breakeven) - EPS;
    var high := PriceWithGain(o.entry, gain, risk);
    BehindEntry(o.entry, high, gain, risk, pol);
    b := Bar(0, high, high, high, high);
    OneBarTrail(o, b, pol);
    assert WithPeak(o, b).extra.peak == Some(high) && RiskUnit(WithPeak(o, b)) == risk;
    assert RunningHigh([b]) == high;
  }

  /** Once breakeven triggered the stop never falls back past entry, on every bar stream,
      exactly when the trail distance is no more than both thresholds let through: the
      larger of the trailing start and the breakeven trigger. */
  lemma BreakevenLocksIff(o: OrderV, pol: StopPolicy)
    requires Fresh(o) && o.side == Buy && o.stop < o.entry
    ensures (forall bars :: LocksEntry(o, bars, pol)) <==> pol.trailDistance + EPS <= Max(pol.trailStart, pol.breakeven)
  {
    if pol.trailDistance + EPS <= Max(pol.trailStart, pol.breakeven) {
      forall bars ensures LocksEntry(o, bars, pol) {
        if bars != [] && PeakGain(o, bars) + EPS >= pol.breakeven {
          StopReachesTarget(o, bars, pol);
          DueAtEntry(o.entry, RunningHigh(bars), Abs(o.entry - o.stop), pol);
        }
      }
    } else {
      var b := FallsBehindEntry(o, pol);
    }
  }

  /** Whatever the policy and whatever the order remembers, no bar loosens the stop. */
  lemma NeverLoosens(o: OrderV, b: Bar, pol: StopPolicy)
    ensures var s := Trail(o, b, pol).stop; if o.side == Buy then s >= o.stop else s <= o.stop
  {
  }

  // ---------------------------------------------------------------- mirror

  function Neg(x: Option<real>): Option<real> {
    match x case None => None case Some(v) => Some(-v)
  }

  function MirrorBar(b: Bar): Bar {
    Bar(b.ts, -b.open, -b.low, -b.high, -b.close)
  }

  function MirrorBars(bars: seq<Bar>): (r: seq<Bar>)
    ensures |r| == |bars|
  {
    if bars == [] then [] else MirrorBars(bars[..|bars| - 1]) + [MirrorBar(bars[|bars| - 1])]
  }

  function Mirror(o: OrderV): OrderV {
    o.(side := if o.side == Buy then Sell else Buy, entry := -o.entry, stop := -o.stop,
       extra := o.extra.(initialStop := Neg(o.extra.initialStop), peak := Neg(o.extra.peak)))
  }

  lemma MirrorTrail(o: OrderV, b: Bar, pol: StopPolicy)
    ensures Trail(Mirror(o), MirrorBar(b), pol) == Mirror(Trail(o, b, pol))
  {
    var p := WithPeak(o, b);
    assert WithPeak(Mirror(o), MirrorBar(b)) == Mirror(p);
    assert RiskUnit(Mirror(p)) == RiskUnit(p);
  }

  /** A sell trailed over bars is a buy trailed over the negated bars, so every
      statement above about buys holds of sells with prices negated. */
  lemma {:induction false} SellIsMirroredBuy(o: OrderV, bars: seq<Bar>, pol: StopPolicy)
    ensures TrailAll(Mirror(o), MirrorBars(bars), pol) == Mirror(TrailAll(o, bars, pol))
  {
    if bars != [] {
      var n := |bars| - 1;
      SellIsMirroredBuy(o, bars[..n], pol);
      MirrorTrail(TrailAll(o, bars[..n], pol), bars[n], pol);
      assert MirrorBars(bars)[..n] == MirrorBars(bars[..n]);
    }
  }

  // ----------------------------------------------- orders rebuilt every tick

  /** The live executor rebuilds its orders from broker positions on every tick, so
      nothing in `extra` survives; the broker may also refuse a modification. */
  function LiveTrail(o: OrderV, b: Bar, accepted: bool, pol: StopPolicy): OrderV {
    if accepted then Trail(o.(extra := NO_EXTRA), b, pol) else WithPeak(o.(extra := NO_EXTRA), b)
  }

  function LiveTrailAll(o: OrderV, steps: seq<(Bar, bool)>, pol: StopPolicy): OrderV {
    if steps == [] then o
    else
      var last := steps[|steps| - 1];
      LiveTrail(LiveTrailAll(o, steps[..|steps| - 1], pol), last.0, last.1, pol)
  }

  lemma {:induction false} FrozenAtEntry(o: OrderV, steps: seq<(Bar, bool)>, pol: StopPolicy)
    requires o.stop == o.entry
    ensures LiveTrailAll(o, steps, pol).stop == o.entry == LiveTrailAll(o, steps, pol).entry
  {
    if steps != [] { FrozenAtEntry(o, steps[..|steps| - 1], pol); }
  }

  lemma BeyondTrail(pol: StopPolicy, risk: real)
    ensures (pol.trailDistance + 2.0) * risk == TrailOffset(pol, risk) + 2.0 * risk
  {
  }

  /** Any other stop of a buy is moved by some bar: one far enough beyond the trail. */
  lemma BuyMoves(o: OrderV, pol: StopPolicy) returns (b: Bar)
    requires o.side == Buy && o.stop != o.entry
    ensures LiveTrail(o, b, true, pol).stop != o.stop
  {
    var risk, gain := Abs(o.entry - o.stop), Max(pol.trailStart, pol.trailDistance + 2.0);
    var high := PriceWithGain(o.entry, gain, risk);
    b := Bar(0, high, high, high, high);
    var p := WithPeak(o.(extra := NO_EXTRA), b);
    assert RiskUnit(p) == risk && p.extra.peak == Some(high);
    FarBeyond(high, o.entry, gain, risk, pol);
  }

  lemma FarBeyond(price: real, entry: real, gain: real, risk: real, pol: StopPolicy)
    requires risk > 0.0 && gain >= pol.trailDistance + 2.0 && price - entry == gain * risk
    ensures price - TrailOffset(pol, risk) >= entry + 2.0 * risk
  {
    MulMono(pol.trailDistance + 2.0, gain, risk);
    BeyondTrail(pol, risk);
  }

  lemma LiveMirror(o: OrderV, b: Bar, pol: StopPolicy)
    ensures LiveTrail(Mirror(o), MirrorBar(b), true, pol).stop == -LiveTrail(o, b, true, pol).stop
  {
    MirrorTrail(o.(extra := NO_EXTRA), b, pol);
    assert Mirror(o).(extra := NO_EXTRA) == Mirror(o.(extra := NO_EXTRA));
  }

  lemma SomeBarMoves(o: OrderV, pol: StopPolicy) returns (b: Bar)
    requires o.stop != o.entry
    ensures LiveTrail(o, b, true, pol).stop != o.stop
  {
    if o.side == Buy {
      b := BuyMoves(o, pol);
    } else {
      var c := BuyMoves(Mirror(o), pol);
      b := MirrorBar(c);
      LiveMirror(o, b, pol);
      assert MirrorBar(b) == c;
    }
  }

  /** No step ever moves the stop again. */
  ghost predicate Frozen(o: OrderV, pol: StopPolicy) {
    forall steps :: LiveTrailAll(o, steps, pol).stop == o.stop
  }

  /** Without the remembered stop, 1R is measured from the current stop: trailing is over
      for good exactly when the stop stands at the entry. */
  lemma LiveFrozenIffAtEntry(o: OrderV, pol: StopPolicy)
    ensures Frozen(o, pol) <==> o.stop == o.entry
  {
    if o.stop == o.entry {
      forall steps ensures LiveTrailAll(o, steps, pol).stop == o.stop {
        FrozenAtEntry(o, steps, pol);
      }
    } else {
      var b := SomeBarMoves(o, pol);
      var steps := [(b, true)];
      assert steps[..0] == [];
      assert LiveTrailAll(o, steps, pol) == LiveTrail(LiveTrailAll(o, [], pol), b, true, pol);
    }
  }
}
