/** `lot_size_from_risk`: lots bought with a fixed fraction of the balance. */
module PositionSizing {
  import opened Common

  /** Smallest lot, largest lot, and the grid between them. */
  datatype LotLimits = LotLimits(min: real, max: real, step: real)

  const DEFAULT_LIMITS := LotLimits(0.01, 100.0, 0.01)

  /** Pip size and per-lot pip value of a symbol. Both lookups (terminal and
      fallback table) only ever return positive numbers. */
  datatype PipInfo = PipInfo(size: real, value: real)
  type Instrument = p: PipInfo | p.size > 0.0 && p.value > 0.0 witness PipInfo(0.0001, 10.0)

  /** The two error cases are the source's `ValueError`s. */
  datatype Sizing = Lots(lots: real) | BadStopDistance | BadRiskPct

  function LotSizeWith(balance: real, riskPct: real, stopPips: real, ins: Instrument, lim: LotLimits): Sizing
    requires lim.step > 0.0
  {
    if stopPips <= 0.0 then BadStopDistance
    else if !(0.0 < riskPct < 1.0) then BadRiskPct
    else Lots(GridLots(Quotient(balance * riskPct, PerLotRisk(stopPips, ins)), lim))
  }

  /** As every caller calls it. */
  function LotSizeFromRisk(balance: real, riskPct: real, stopPips: real, ins: Instrument): Sizing {
    LotSizeWith(balance, riskPct, stopPips, ins, DEFAULT_LIMITS)
  }

  /** Money one lot loses over `stopPips` pips. */
  function PerLotRisk(stopPips: real, ins: Instrument): (r: real)
    requires stopPips > 0.0
    ensures r > 0.0
  {
    StrictMul(0.0, stopPips, ins.value);
    stopPips * ins.value
  }

  /** Division with its defining equation, so proofs need not divide. */
  function Quotient(a: real, b: real): (q: real)
    requires b != 0.0
    ensures q * b == a
  {
    a / b
  }

  /** Round down to the lot grid, then to hundredths; zero below the smallest lot, capped at
      the largest. */
  function GridLots(raw: real, lim: LotLimits): real
    requires lim.step > 0.0
  {
    var stepped := FloorTo(raw, lim.step);
    if stepped < lim.min then 0.0 else Min(lim.max, Round2(stepped))
  }

  /** Python's `round(x, 2)`: to the nearest hundredth, a half to the even one. */
  function Round2(x: real): real {
    Hundredths(RoundEven(x * 100.0))
  }

  function RoundEven(x: real): int {
    var below := x.Floor;
    var rest := x - below as real;
    if rest < 0.5 || (rest == 0.5 && below % 2 == 0) then below else below + 1
  }

  function Hundredths(k: int): real {
    k as real / 100.0
  }

  /** Money at risk: distance entry to stop, in pips, times pip value, times lots. */
  function RiskMoney(distance: real, lots: real, ins: Instrument): real {
    (distance / ins.size) * ins.value * lots
  }

  /** The k-th multiple of the step. */
  function GridPoint(k: int, step: real): real {
    k as real * step
  }

  ghost predicate WholeHundredths(x: real) {
    exists k: int :: x == Hundredths(k)
  }

  ghost predicate IsLotMultiple(lots: real, step: real) {
    exists k: int :: lots == GridPoint(k, step)
  }

  /** Limits whose grid has no point between two hundredths, with both ends on the grid. */
  ghost predicate Regular(lim: LotLimits) {
    && lim.step > 0.0 && WholeHundredths(lim.step)
    && 0.0 < lim.min <= lim.max && IsLotMultiple(lim.min, lim.step) && IsLotMultiple(lim.max, lim.step)
  }

  lemma DefaultIsRegular()
    ensures Regular(DEFAULT_LIMITS)
  {
    assert DEFAULT_LIMITS.step == Hundredths(1);
    assert DEFAULT_LIMITS.min == GridPoint(1, 0.01) && DEFAULT_LIMITS.max == GridPoint(10000, 0.01);
  }

  /** A lot on the grid that the budget pays for. */
  ghost predicate Payable(lots: real, budget: real, perLot: real, step: real) {
    IsLotMultiple(lots, step) && lots * perLot <= budget
  }

  /** Zero when no payable lot reaches the smallest one; otherwise a payable lot in range, or
      the ceiling, and the largest such: one more step would break the budget unless the
      ceiling is what stopped it. */
  ghost predicate BestLot(lots: real, budget: real, perLot: real, lim: LotLimits) {
    if exists g :: Payable(g, budget, perLot, lim.step) && g >= lim.min then
      && lots * perLot <= budget && lots <= lim.max
      && (lots == lim.max || (IsLotMultiple(lots, lim.step) && lots >= lim.min))
      && (lots < lim.max ==> budget < (lots + lim.step) * perLot)
    else lots == 0.0
  }

  /** On any grid of whole hundredths, whatever the smallest and the largest lot: the lot never
      risks more than the budget, and is the largest such lot. */
  lemma LotIsSafeAndTight(balance: real, riskPct: real, stopPips: real, ins: Instrument, lim: LotLimits)
    requires stopPips > 0.0 && 0.0 < riskPct < 1.0 && lim.step > 0.0 && WholeHundredths(lim.step)
    ensures LotSizeWith(balance, riskPct, stopPips, ins, lim).Lots?
    ensures BestLot(LotSizeWith(balance, riskPct, stopPips, ins, lim).lots,
                    balance * riskPct, stopPips * ins.value, lim)
  {
    LotIsBest(balance, riskPct, stopPips, ins, lim);
    BestAtPrice(LotSizeWith(balance, riskPct, stopPips, ins, lim).lots, balance * riskPct,
                PerLotRisk(stopPips, ins), stopPips * ins.value, lim);
  }

  lemma BestAtPrice(lots: real, budget: real, perLot: real, price: real, lim: LotLimits)
    requires perLot == price && BestLot(lots, budget, perLot, lim)
    ensures BestLot(lots, budget, price, lim)
  {
  }

  lemma LotIsBest(balance: real, riskPct: real, stopPips: real, ins: Instrument, lim: LotLimits)
    requires stopPips > 0.0 && 0.0 < riskPct < 1.0 && lim.step > 0.0 && WholeHundredths(lim.step)
    ensures LotSizeWith(balance, riskPct, stopPips, ins, lim).Lots?
    ensures BestLot(LotSizeWith(balance, riskPct, stopPips, ins, lim).lots,
                    balance * riskPct, PerLotRisk(stopPips, ins), lim)
  {
    var budget, perLot := balance * riskPct, PerLotRisk(stopPips, ins);
    GridLotsBest(Quotient(budget, perLot), budget, perLot, lim);
  }

  lemma GridLotsBest(raw: real, budget: real, perLot: real, lim: LotLimits)
    requires perLot > 0.0 && raw * perLot == budget && lim.step > 0.0 && WholeHundredths(lim.step)
    ensures BestLot(GridLots(raw, lim), budget, perLot, lim)
  {
    OnGrid(raw, lim.step);
    var stepped, lots := FloorTo(raw, lim.step), GridLots(raw, lim);
    if stepped < lim.min {
      forall g | Payable(g, budget, perLot, lim.step) ensures g < lim.min {
        PayableBelow(g, raw, stepped, budget, perLot, lim.step);
      }
    } else {
      WithinBudget(raw, stepped, budget, perLot);
      assert Payable(stepped, budget, perLot, lim.step);
      WithinBudget(raw, lots, budget, perLot);
      if lots < lim.max {
        OverBudget(raw, lots + lim.step, budget, perLot);
      }
    }
  }

  /** No payable lot lies above the grid point below `raw`. */
  lemma PayableBelow(g: real, raw: real, stepped: real, budget: real, perLot: real, step: real)
    requires perLot > 0.0 && raw * perLot == budget && step > 0.0 && Payable(g, budget, perLot, step)
    requires IsLotMultiple(stepped, step) && stepped <= raw < stepped + step
    ensures g <= stepped
  {
    if g > stepped {
      BelowMin(stepped, g, step);
      OverBudget(raw, g, budget, perLot);
    }
  }

  /** With both ends on the grid: the lot is zero exactly when the smallest one is already too
      big. */
  lemma RegularLotIsSafe(balance: real, riskPct: real, stopPips: real, ins: Instrument, lim: LotLimits)
    requires stopPips > 0.0 && 0.0 < riskPct < 1.0 && Regular(lim)
    ensures LotSizeWith(balance, riskPct, stopPips, ins, lim).Lots?
    ensures SafeAndTight(LotSizeWith(balance, riskPct, stopPips, ins, lim).lots,
                         balance * riskPct, PerLotRisk(stopPips, ins), lim)
  {
    var budget, perLot := balance * riskPct, PerLotRisk(stopPips, ins);
    GridLotsSafe(Quotient(budget, perLot), budget, perLot, lim);
  }

  ghost predicate SafeAndTight(lots: real, budget: real, perLot: real, lim: LotLimits) {
    && (lots == 0.0 <==> budget < lim.min * perLot)
    && (lots != 0.0 ==>
          && lim.min <= lots <= lim.max
          && IsLotMultiple(lots, lim.step)
          && lots * perLot <= budget
          && (lots < lim.max ==> budget < (lots + lim.step) * perLot))
  }

  /** With the limits every caller uses. */
  lemma DefaultLotIsSafe(balance: real, riskPct: real, stopPips: real, ins: Instrument)
    requires stopPips > 0.0 && 0.0 < riskPct < 1.0
    ensures LotSizeFromRisk(balance, riskPct, stopPips, ins).Lots?
    ensures SafeAndTight(LotSizeFromRisk(balance, riskPct, stopPips, ins).lots,
                         balance * riskPct, PerLotRisk(stopPips, ins), DEFAULT_LIMITS)
  {
    DefaultIsRegular();
    RegularLotIsSafe(balance, riskPct, stopPips, ins, DEFAULT_LIMITS);
  }

  /** The same in amounts: zero exactly when a hundredth of a lot already loses more than the
      budget over the stop distance; otherwise hundredths between 0.01 and 100 lots, within the
      budget, and one hundredth more would not be. The two errors come in their own cases. */
  lemma LotInAmounts(balance: real, riskPct: real, stopPips: real, ins: Instrument)
    ensures var sizing := LotSizeFromRisk(balance, riskPct, stopPips, ins);
            if stopPips <= 0.0 then sizing == BadStopDistance
            else if riskPct <= 0.0 || riskPct >= 1.0 then sizing == BadRiskPct
            else sizing.Lots? && HundredthsWithin(sizing.lots, balance * riskPct, stopPips * ins.value)
  {
    if stopPips > 0.0 && 0.0 < riskPct < 1.0 {
      DefaultLotIsSafe(balance, riskPct, stopPips, ins);
      InHundredths(LotSizeFromRisk(balance, riskPct, stopPips, ins).lots, balance * riskPct, PerLotRisk(stopPips, ins));
    }
  }

  ghost predicate HundredthsWithin(lots: real, budget: real, perLot: real) {
    if budget < 0.01 * perLot then lots == 0.0
    else
      && 0.01 <= lots <= 100.0 && (lots * 100.0).Floor as real == lots * 100.0
      && lots * perLot <= budget && (lots < 100.0 ==> budget < (lots + 0.01) * perLot)
  }

  lemma InHundredths(lots: real, budget: real, perLot: real)
    requires SafeAndTight(lots, budget, perLot, DEFAULT_LIMITS)
    ensures HundredthsWithin(lots, budget, perLot)
  {
    if lots != 0.0 {
      var k: int :| lots == GridPoint(k, 0.01);
      assert lots == k as real * 0.01;
    }
  }

  lemma RoundedWhole(k: int)
    ensures Round2(Hundredths(k)) == Hundredths(k)
  {
    assert Hundredths(k) * 100.0 == k as real;
  }

  lemma WholeTimes(k: int, m: int)
    ensures GridPoint(k, Hundredths(m)) == Hundredths(k * m)
  {
    assert k as real * m as real == (k * m) as real;
  }

  /** The grid point at or below `raw`, on a grid of whole hundredths: rounding leaves it. */
  lemma OnGrid(raw: real, step: real)
    requires step > 0.0 && WholeHundredths(step)
    ensures var stepped := FloorTo(raw, step);
            stepped <= raw < stepped + step && IsLotMultiple(stepped, step) && Round2(stepped) == stepped
  {
    var k, m: int :| k == (raw / step).Floor && step == Hundredths(m);
    assert FloorTo(raw, step) == GridPoint(k, step);
    WholeTimes(k, m);
    RoundedWhole(k * m);
  }

  /** Grid points are a step apart. */
  lemma NextPoint(k: int, j: int, step: real)
    requires step > 0.0 && GridPoint(k, step) < GridPoint(j, step)
    ensures GridPoint(k, step) + step <= GridPoint(j, step)
  {
    if k >= j {
      MulMono(j as real, k as real, step);
    } else {
      MulMono((k + 1) as real, j as real, step);
      assert GridPoint(k + 1, step) == GridPoint(k, step) + step;
    }
  }

  lemma BelowMin(stepped: real, min: real, step: real)
    requires step > 0.0 && IsLotMultiple(stepped, step) && IsLotMultiple(min, step) && stepped < min
    ensures stepped + step <= min
  {
    var k, j: int :| stepped == GridPoint(k, step) && min == GridPoint(j, step);
    NextPoint(k, j, step);
  }

  lemma WithinBudget(raw: real, lots: real, budget: real, perLot: real)
    requires perLot > 0.0 && raw * perLot == budget && lots <= raw
    ensures lots * perLot <= budget
  {
    MulMono(lots, raw, perLot);
  }

  lemma OverBudget(raw: real, lots: real, budget: real, perLot: real)
    requires perLot > 0.0 && raw * perLot == budget && raw < lots
    ensures budget < lots * perLot
  {
    StrictMul(raw, lots, perLot);
  }

  lemma GridLotsSafe(raw: real, budget: real, perLot: real, lim: LotLimits)
    requires perLot > 0.0 && raw * perLot == budget && Regular(lim)
    ensures SafeAndTight(GridLots(raw, lim), budget, perLot, lim)
  {
    OnGrid(raw, lim.step);
    var stepped, lots := FloorTo(raw, lim.step), GridLots(raw, lim);
    if stepped < lim.min {
      BelowMin(stepped, lim.min, lim.step);
      OverBudget(raw, lim.min, budget, perLot);
    } else {
      WithinBudget(raw, lim.min, budget, perLot);
      WithinBudget(raw, lots, budget, perLot);
      if lots < lim.max {
        OverBudget(raw, lots + lim.step, budget, perLot);
      }
    }
  }

  // --------------------------------------------------- grids that overshoot

  /** Whatever the account, the stop and the other limits, a lot sized on this step costs at
      most its budget. */
  ghost predicate NeverOver(step: real)
    requires step > 0.0
  {
    forall balance, riskPct, stopPips, ins, min, max ::
      SizesWithin(balance, riskPct, stopPips, ins, LotLimits(min, max, step))
  }

  predicate SizesWithin(balance: real, riskPct: real, stopPips: real, ins: Instrument, lim: LotLimits)
    requires lim.step > 0.0
  {
    stopPips > 0.0 && 0.0 < riskPct < 1.0 ==>
      Affordable(LotSizeWith(balance, riskPct, stopPips, ins, lim).lots, balance * riskPct, PerLotRisk(stopPips, ins))
  }

  predicate Affordable(lots: real, budget: real, perLot: real) {
    lots > 0.0 ==> lots * perLot <= budget
  }

  lemma WholeIsAffordable(raw: real, budget: real, perLot: real, lim: LotLimits)
    requires perLot > 0.0 && raw * perLot == budget && lim.step > 0.0 && WholeHundredths(lim.step)
    ensures Affordable(GridLots(raw, lim), budget, perLot)
  {
    OnGrid(raw, lim.step);
    if GridLots(raw, lim) > 0.0 {
      WithinBudget(raw, GridLots(raw, lim), budget, perLot);
    }
  }

  lemma WholeSizesWithin(balance: real, riskPct: real, stopPips: real, ins: Instrument, lim: LotLimits)
    requires lim.step > 0.0 && WholeHundredths(lim.step)
    ensures SizesWithin(balance, riskPct, stopPips, ins, lim)
  {
    if stopPips > 0.0 {
      var budget, perLot := balance * riskPct, PerLotRisk(stopPips, ins);
      WholeIsAffordable(Quotient(budget, perLot), budget, perLot, lim);
    }
  }

  lemma WholeNeverOver(step: real)
    requires step > 0.0 && WholeHundredths(step)
    ensures NeverOver(step)
  {
    forall balance, riskPct, stopPips, ins, min, max
      ensures SizesWithin(balance, riskPct, stopPips, ins, LotLimits(min, max, step))
    {
      WholeSizesWithin(balance, riskPct, stopPips, ins, LotLimits(min, max, step));
    }
  }

  /** Rounding to hundredths raises this multiple of the step. */
  ghost predicate RoundsUp(k: int, step: real) {
    k > 0 && Round2(GridPoint(k, step)) > GridPoint(k, step)
  }

  lemma FracUp(x: real, whole: int, rest: real)
    requires x == whole as real + rest && 0.5 < rest < 1.0
    ensures RoundEven(x) == whole + 1
  {
    assert x.Floor == whole;
  }

  lemma HalfUp(whole: int)
    requires whole % 2 != 0
    ensures RoundEven(whole as real + 0.5) == whole + 1
  {
    assert (whole as real + 0.5).Floor == whole;
  }

  lemma RaisedBy(k: int, step: real, n: int)
    requires k > 0 && RoundEven(GridPoint(k, step) * 100.0) == n && n as real > GridPoint(k, step) * 100.0
    ensures RoundsUp(k, step)
  {
    assert Hundredths(n) * 100.0 == n as real;
  }

  lemma Scaled(k: int, step: real)
    ensures GridPoint(k, step) * 100.0 == k as real * (step * 100.0)
  {
  }

  lemma Parts(k: int, x: real, whole: int, f: real)
    requires x == whole as real + f
    ensures k as real * x == (k * whole) as real + GridPoint(k, f)
  {
    assert k as real * whole as real == (k * whole) as real;
  }

  lemma PointAfter(k: int, f: real)
    ensures GridPoint(k + 1, f) == GridPoint(k, f) + f
  {
  }

  /** The first multiple of a fraction below one half that exceeds it is still below one. */
  lemma FirstOverHalf(f: real) returns (k: int)
    requires 0.0 < f < 0.5
    ensures k > 0 && 0.5 < GridPoint(k, f) < 1.0
  {
    var q := Quotient(0.5, f);
    var j := q.Floor;
    k := j + 1;
    if j < 0 {
      MulMono(q, 0.0, f);
      assert false;
    }
    MulMono(j as real, q, f);
    StrictMul(q, k as real, f);
    PointAfter(j, f);
  }

  lemma HalfRoundsUp(step: real, whole: int) returns (k: int)
    requires step > 0.0 && step * 100.0 == whole as real + 0.5
    ensures RoundsUp(k, step)
  {
    k := if whole % 2 != 0 then 1 else 3;
    var n := if whole % 2 != 0 then whole else 3 * whole + 1;
    HalfUp(n);
    Scaled(k, step);
    RaisedBy(k, step, n + 1);
  }

  lemma PartRoundsUp(step: real, whole: int, f: real, k: int)
    requires k > 0 && step * 100.0 == whole as real + f && 0.5 < GridPoint(k, f) < 1.0
    ensures RoundsUp(k, step)
  {
    Parts(k, step * 100.0, whole, f);
    Scaled(k, step);
    FracUp(GridPoint(k, step) * 100.0, k * whole, GridPoint(k, f));
    RaisedBy(k, step, k * whole + 1);
  }

  lemma NotWhole(step: real, whole: int)
    requires !WholeHundredths(step)
    ensures step * 100.0 != whole as real
  {
    assert step * 100.0 == whole as real ==> step == Hundredths(whole);
  }

  /** On a step that is no whole number of hundredths, some multiple is rounded up. */
  lemma SomeRoundsUp(step: real) returns (k: int)
    requires step > 0.0 && !WholeHundredths(step)
    ensures RoundsUp(k, step)
  {
    var x := step * 100.0;
    var whole := x.Floor;
    var f := x - whole as real;
    NotWhole(step, whole);
    if f == 0.5 {
      k := HalfRoundsUp(step, whole);
    } else if f < 0.5 {
      k := FirstOverHalf(f);
      PartRoundsUp(step, whole, f, k);
    } else {
      k := 1;
      PartRoundsUp(step, whole, f, k);
    }
  }

  /** Sizing stays within its budget on every input exactly when the step is a whole number of
      hundredths; on any other the rounding to hundredths overshoots for some budget. */
  lemma NeverOverIff(step: real)
    requires step > 0.0
    ensures NeverOver(step) <==> WholeHundredths(step)
  {
    if WholeHundredths(step) {
      WholeNeverOver(step);
    } else {
      var k := SomeRoundsUp(step);
      Overshoots(k, step);
      var raw := GridPoint(k, step);
      UnitLots(raw, LotLimits(0.0, Round2(raw), step));
      OverOnce(raw, Round2(raw), LotLimits(0.0, Round2(raw), step));
    }
  }

  lemma Overshoots(k: int, step: real)
    requires step > 0.0 && RoundsUp(k, step)
    ensures var raw := GridPoint(k, step);
            raw > 0.0 && GridLots(raw, LotLimits(0.0, Round2(raw), step)) == Round2(raw) > raw
  {
    var raw := GridPoint(k, step);
    StrictMul(0.0, k as real, step);
    SameQuotient(raw, step, k);
    assert FloorTo(raw, step) == raw;
  }

  const UNIT: Instrument := PipInfo(1.0, 1.0)

  /** One unit of money per lot: the account pays for exactly `raw` lots. */
  lemma UnitLots(raw: real, lim: LotLimits)
    requires lim.step > 0.0
    ensures LotSizeWith(raw * 2.0, 0.5, 1.0, UNIT, lim) == Lots(GridLots(raw, lim))
  {
    assert Quotient(raw, 1.0) == raw;
  }

  lemma UnitPrice(raw: real, lots: real)
    ensures Affordable(lots, raw * 2.0 * 0.5, PerLotRisk(1.0, UNIT)) <==> (lots > 0.0 ==> lots <= raw)
  {
  }

  lemma OverOnce(raw: real, lots: real, lim: LotLimits)
    requires lim.step > 0.0 && LotSizeWith(raw * 2.0, 0.5, 1.0, UNIT, lim) == Lots(lots)
    requires lots > raw > 0.0
    ensures !SizesWithin(raw * 2.0, 0.5, 1.0, UNIT, lim)
  {
    UnitPrice(raw, lots);
  }

  lemma SameQuotient(raw: real, step: real, k: int)
    requires step > 0.0 && raw == GridPoint(k, step)
    ensures raw / step == k as real
  {
    DivMul(raw, step);
    if raw / step < k as real { StrictMul(raw / step, k as real, step); }
    if raw / step > k as real { StrictMul(k as real, raw / step, step); }
  }

  lemma StrictMul(a: real, b: real, c: real)
    requires a < b && c > 0.0
    ensures a * c < b * c
  {
    assert (b - a) * c > 0.0;
  }

  /** The chain the heat cap rests on: the risk re-derived from a sized order never
      exceeds the risk the gate approved, and an order with lots needs a positive
      balance. */
  lemma BookedAtMostGated(balance: real, riskPct: real, distance: real, ins: Instrument)
    requires distance >= 0.0
    requires LotSizeFromRisk(balance, riskPct, distance / ins.size, ins).Lots?
    requires LotSizeFromRisk(balance, riskPct, distance / ins.size, ins).lots > 0.0
    ensures balance > 0.0
    ensures var lots := LotSizeFromRisk(balance, riskPct, distance / ins.size, ins).lots;
            0.0 <= RiskMoney(distance, lots, ins) / balance <= riskPct
  {
    var stopPips := distance / ins.size;
    DefaultLotIsSafe(balance, riskPct, stopPips, ins);
    SafeBooks(balance, riskPct, distance, LotSizeFromRisk(balance, riskPct, stopPips, ins).lots, ins);
  }

  lemma SafeBooks(balance: real, riskPct: real, distance: real, lots: real, ins: Instrument)
    requires distance / ins.size > 0.0 && lots > 0.0 && riskPct > 0.0
    requires SafeAndTight(lots, balance * riskPct, PerLotRisk(distance / ins.size, ins), DEFAULT_LIMITS)
    ensures balance > 0.0 && 0.0 <= RiskMoney(distance, lots, ins) / balance <= riskPct
  {
    var perLot := PerLotRisk(distance / ins.size, ins);
    StrictMul(0.0, lots, perLot);
    if balance <= 0.0 {
      MulMono(balance, 0.0, riskPct);
      assert false;
    }
    assert RiskMoney(distance, lots, ins) == lots * perLot;
    QuotientBounds(lots * perLot, riskPct, balance);
  }

  lemma QuotientBounds(money: real, pct: real, balance: real)
    requires balance > 0.0 && 0.0 <= money <= balance * pct
    ensures 0.0 <= money / balance <= pct
  {
    DivMul(money, balance);
    RatioBounds(money / balance, money, pct, balance);
  }

  lemma RatioBounds(q: real, money: real, pct: real, balance: real)
    requires balance > 0.0 && 0.0 <= money <= balance * pct && q * balance == money
    ensures 0.0 <= q <= pct
  {
    if q > pct { StrictMul(pct, q, balance); }
    if q < 0.0 { StrictMul(q, 0.0, balance); }
  }

  /** With a non-negative balance, a sized position never risks more than its budget,
      the zero position included. */
  lemma MoneyWithinBudget(balance: real, riskPct: real, distance: real, ins: Instrument)
    requires balance >= 0.0 && distance > 0.0 && 0.0 < riskPct < 1.0
    ensures LotSizeFromRisk(balance, riskPct, Quotient(distance, ins.size), ins).Lots?
    ensures var lots := LotSizeFromRisk(balance, riskPct, Quotient(distance, ins.size), ins).lots;
            0.0 <= lots && 0.0 <= RiskMoney(distance, lots, ins) <= balance * riskPct
  {
    var pips := Quotient(distance, ins.size);
    if pips <= 0.0 {
      MulMono(pips, 0.0, ins.size);
      assert false;
    }
    DefaultLotIsSafe(balance, riskPct, pips, ins);
    MulMono(0.0, balance, riskPct);
    SafeMoney(LotSizeFromRisk(balance, riskPct, pips, ins).lots, balance * riskPct, distance, pips, ins);
  }

  lemma SafeMoney(lots: real, budget: real, distance: real, pips: real, ins: Instrument)
    requires pips > 0.0 && pips == distance / ins.size && budget >= 0.0
    requires SafeAndTight(lots, budget, PerLotRisk(pips, ins), DEFAULT_LIMITS)
    ensures 0.0 <= lots && 0.0 <= RiskMoney(distance, lots, ins) <= budget
  {
    assert RiskMoney(distance, lots, ins) == lots * PerLotRisk(pips, ins);
    if lots != 0.0 {
      StrictMul(0.0, lots, PerLotRisk(pips, ins));
    }
  }
}
