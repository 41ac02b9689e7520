/** `RiskManager`: the ledger of open trades and the gates every signal passes. */
module Risk {
  import opened Common
  import opened Orders
  import opened PositionSizing
  import opened Journal
  import Throttle
  import PropFirm

  datatype RiskLimits = RiskLimits(riskPerTrade: real, maxOpenTrades: int, maxDailyLossPct: real,
                                   maxHeat: real, minBalance: real, dailyProfitTarget: real)

  datatype RiskState = RiskState(count: int, heat: real, dailyPnl: real, lastReset: Option<int>)
  const NEW_STATE := RiskState(0, 0.0, 0.0, None)

  function Reset(s: RiskState, today: int): RiskState {
    match s.lastReset
    case None => s.(lastReset := Some(today))
    case Some(d) => if d == today then s else s.(dailyPnl := 0.0, lastReset := Some(today))
  }

  function Opened(s: RiskState, riskPct: real): RiskState {
    s.(count := s.count + 1, heat := s.heat + riskPct)
  }

  function Closed(s: RiskState, riskPct: real, pnl: real): RiskState {
    s.(count := if s.count - 1 > 0 then s.count - 1 else 0,
       heat := Max(0.0, s.heat - riskPct),
       dailyPnl := s.dailyPnl + pnl)
  }

  /** A candidate trade as the gate sees it. */
  datatype Candidate = Candidate(symbol: string, side: Side, stopPips: real, weight: real, ins: Instrument)

  /** What the gates consult besides the ledger: the day, the calendar and the
      correlation store. Optional parts may be absent. */
  datatype Environment = Environment(
    today: int, blackout: bool, throttle: Option<Throttle.Policy>, pair: (string, string) -> Option<real>)

  /** The prop-firm policy and its stored row, when a challenge is wired. */
  datatype Challenge = Challenge(policy: PropFirm.Policy, row: Option<PropFirm.State>)

  datatype Rejection =
    | ZeroWeight | LowBalance | TooManyOpen | HeatCap | DailyLoss | ProfitTarget
    | Blackout | Correlated | ZeroLots | PropFirmVeto
  datatype Decision = Approved(lots: real) | Rejected(why: Rejection) | Raised

  function EffectiveRisk(lim: RiskLimits, c: Candidate): real {
    lim.riskPerTrade * c.weight
  }

  /** The gates that read only the ledger, the balance and the calendar. */
  function LedgerGates(lim: RiskLimits, s: RiskState, balance: real, c: Candidate,
                       env: Environment): Option<Rejection> {
    if c.weight <= 0.0 then Some(ZeroWeight)
    else if balance < lim.minBalance then Some(LowBalance)
    else if s.count >= lim.maxOpenTrades then Some(TooManyOpen)
    else if s.heat + EffectiveRisk(lim, c) > lim.maxHeat then Some(HeatCap)
    else if DailyLossPct(s, balance) >= lim.maxDailyLossPct then Some(DailyLoss)
    else if lim.dailyProfitTarget > 0.0 && s.dailyPnl >= lim.dailyProfitTarget then Some(ProfitTarget)
    else if env.blackout then Some(Blackout)
    else None
  }

  function DailyLossPct(s: RiskState, balance: real): real {
    if balance > 0.0 then -s.dailyPnl / balance else 0.0
  }

  predicate ThrottleAllows(risk: real, c: Candidate, open: seq<Throttle.OpenPosition>, env: Environment) {
    env.throttle.Some? ==>
      Throttle.Approves(env.throttle.value, Throttle.Candidate(c.symbol, c.side, risk, env.pair), open)
  }

  predicate GuardAllows(c: Candidate, lots: real, guard: Option<Challenge>) {
    guard.Some? ==> PropFirm.Check(guard.value.policy, guard.value.row, c.stopPips > 0.0, lots) == PropFirm.Approved
  }

  /** The guard sequence, on a state whose day is already current. */
  function Evaluate(lim: RiskLimits, s: RiskState, balance: real, c: Candidate,
                    open: seq<Throttle.OpenPosition>, env: Environment, guard: Option<Challenge>): Decision
  {
    match LedgerGates(lim, s, balance, c, env)
    case Some(why) => Rejected(why)
    case None =>
      if !ThrottleAllows(EffectiveRisk(lim, c), c, open, env) then Rejected(Correlated)
      else
        match LotSizeFromRisk(balance, EffectiveRisk(lim, c), c.stopPips, c.ins)
        case BadStopDistance => Raised
        case BadRiskPct => Raised
        case Lots(lots) =>
          if lots <= 0.0 then Rejected(ZeroLots)
          else if !GuardAllows(c, lots, guard) then Rejected(PropFirmVeto)
          else Approved(lots)
  }

  class RiskManager {
    const limits: RiskLimits
    const guard: Option<PropFirm.PropFirmGuard>
    var state: RiskState

    constructor (limits: RiskLimits, guard: Option<PropFirm.PropFirmGuard>)
      ensures this.limits == limits && this.guard == guard && state == NEW_STATE
    {
      this.limits, this.guard := limits, guard;
      state := NEW_STATE;
    }

    /** The guard object, for frames. */
    ghost function Guards(): set<object> {
      if guard.Some? then {guard.value} else {}
    }

    function GuardNow(): Option<Challenge>
      reads Guards()
    {
      if guard.Some? then Some(Challenge(guard.value.policy, guard.value.row)) else None
    }

    method RegisterOpened(riskPct: real)
      modifies this
      ensures state == Opened(old(state), riskPct)
      ensures state == old(state).(count := old(state.count) + 1, heat := old(state.heat) + riskPct)
    {
      state := state.(count := state.count + 1);
      state := state.(heat := state.heat + riskPct);
    }

    method RegisterClosed(riskPct: real, pnl: real)
      modifies this
      ensures state == Closed(old(state), riskPct, pnl)
      ensures state.count == (if old(state.count) > 0 then old(state.count) - 1 else 0)
      ensures state.heat == (if old(state.heat) > riskPct then old(state.heat) - riskPct else 0.0)
      ensures state.dailyPnl == old(state.dailyPnl) + pnl && state.lastReset == old(state.lastReset)
    {
      state := state.(count := if state.count - 1 > 0 then state.count - 1 else 0);
      state := state.(heat := Max(0.0, state.heat - riskPct));
      state := state.(dailyPnl := state.dailyPnl + pnl);
    }

    method DailyResetIfNeeded(today: int)
      modifies this
      ensures state == Reset(old(state), today)
      ensures state.lastReset == Some(today) && state.count == old(state.count) && state.heat == old(state.heat)
      ensures state.dailyPnl == if old(state.lastReset) in {None, Some(today)} then old(state.dailyPnl) else 0.0
    {
      if state.lastReset.None? {
        state := state.(lastReset := Some(today));
      } else if today != state.lastReset.value {
        state := state.(dailyPnl := 0.0, lastReset := Some(today));
      }
    }

    /** The gates in front of the sizing; `None` lets the candidate through. */
    method CheckLedger(balance: real, c: Candidate, env: Environment) returns (why: Option<Rejection>)
      ensures why == LedgerGates(limits, state, balance, c, env)
    {
      if c.weight <= 0.0 {
        return Some(ZeroWeight);
      }
      if balance < limits.minBalance {
        return Some(LowBalance);
      }
      if state.count >= limits.maxOpenTrades {
        return Some(TooManyOpen);
      }
      if state.heat + EffectiveRisk(limits, c) > limits.maxHeat {
        return Some(HeatCap);
      }
      if DailyLossPct(state, balance) >= limits.maxDailyLossPct {
        return Some(DailyLoss);
      }
      if limits.dailyProfitTarget > 0.0 && state.dailyPnl >= limits.dailyProfitTarget {
        return Some(ProfitTarget);
      }
      return if env.blackout then Some(Blackout) else None;
    }

    /** The correlation throttle, when one is wired. */
    method CheckThrottle(c: Candidate, open: seq<Throttle.OpenPosition>, env: Environment) returns (ok: bool)
      ensures ok <==> ThrottleAllows(EffectiveRisk(limits, c), c, open, env)
    {
      if env.throttle.None? {
        return true;
      }
      var candidate := Throttle.Candidate(c.symbol, c.side, EffectiveRisk(limits, c), env.pair);
      var verdict := Throttle.Decide(env.throttle.value, candidate, open);
      return verdict.approved;
    }

    method EvaluateSignal(balance: real, c: Candidate, open: seq<Throttle.OpenPosition>, env: Environment)
      returns (d: Decision)
      modifies this
      ensures state == Reset(old(state), env.today)
      ensures d == Evaluate(limits, state, balance, c, open, env, GuardNow())
    {
      DailyResetIfNeeded(env.today);
      var why := CheckLedger(balance, c, env);
      if why.Some? {
        return Rejected(why.value);
      }
      var ok := CheckThrottle(c, open, env);
      if !ok {
        return Rejected(Correlated);
      }
      var sizing := LotSizeFromRisk(balance, EffectiveRisk(limits, c), c.stopPips, c.ins);
      if !sizing.Lots? {
        return Raised;
      }
      if sizing.lots <= 0.0 {
        return Rejected(ZeroLots);
      }
      if guard.Some? {
        var verdict := guard.value.CheckCandidate(c.stopPips > 0.0, sizing.lots);
        if verdict != PropFirm.Approved {
          return Rejected(PropFirmVeto);
        }
      }
      return Approved(sizing.lots);
    }
  }

  /** `_compute_actual_risk_pct`, and the estimate the seeding and the reconciler use. */
  function RiskEstimate(entry: real, stop: real, lots: real, ins: Instrument, balance: real): real {
    if balance <= 0.0 then 0.0 else RiskMoney(Abs(entry - stop), lots, ins) / balance
  }

  /** Rebuilding the ledger of a new process from the journal's open rows. */
  function Seeded(rows: seq<Row>, pips: string -> Instrument, balance: real): RiskState {
    SeededFrom(ListOpen(rows), pips, balance)
  }

  function SeededFrom(open: seq<Row>, pips: string -> Instrument, balance: real): (s: RiskState)
    ensures s.count == |open| && s.dailyPnl == 0.0
  {
    if open == [] then NEW_STATE
    else
      var r := open[|open| - 1];
      Opened(SeededFrom(open[..|open| - 1], pips, balance),
          RiskEstimate(r.entry, r.stop, r.lot, pips(r.symbol), balance))
  }

  lemma DailyLossIff(dailyPnl: real, balance: real, cap: real)
    ensures (if balance > 0.0 then -dailyPnl / balance else 0.0) < cap <==>
            if balance > 0.0 then -dailyPnl < cap * balance else 0.0 < cap
  {
    if balance > 0.0 {
      DivMul(-dailyPnl, balance);
      var q := -dailyPnl / balance;
      if q < cap { StrictMul(q, cap, balance); } else { MulMono(cap, q, balance); }
    }
  }

  /** What the gates ask of ledger, balance and calendar. */
  predicate LedgerLets(lim: RiskLimits, s: RiskState, balance: real, weight: real, risk: real, blackout: bool) {
    && weight > 0.0 && balance >= lim.minBalance && s.count < lim.maxOpenTrades
    && s.heat + risk <= lim.maxHeat
    && (if balance > 0.0 then -s.dailyPnl < lim.maxDailyLossPct * balance else 0.0 < lim.maxDailyLossPct)
    && (lim.dailyProfitTarget > 0.0 ==> s.dailyPnl < lim.dailyProfitTarget)
    && !blackout
  }

  lemma LedgerGatesIff(lim: RiskLimits, s: RiskState, balance: real, c: Candidate, env: Environment, risk: real)
    requires risk == EffectiveRisk(lim, c)
    ensures LedgerGates(lim, s, balance, c, env) == None <==>
            LedgerLets(lim, s, balance, c.weight, risk, env.blackout)
  {
    DailyLossIff(s.dailyPnl, balance, lim.maxDailyLossPct);
  }

  /** What the challenge account asks. */
  predicate ChallengeLets(guard: Option<Challenge>, hasStop: bool, lots: real) {
    guard.Some? && guard.value.row.Some? ==>
      var row, p := guard.value.row.value, guard.value.policy;
      && !row.killedForever && !row.killedToday
      && (p.requireStop ==> hasStop) && (p.maxLot.Some? ==> lots <= p.maxLot.value)
  }

  lemma ChallengeIff(c: Candidate, lots: real, guard: Option<Challenge>)
    ensures GuardAllows(c, lots, guard) <==> ChallengeLets(guard, c.stopPips > 0.0, lots)
  {
  }

  /** What the throttle asks: the open positions' heat and the candidate's own risk fit its cap. */
  predicate ThrottleLets(c: Candidate, risk: real, open: seq<Throttle.OpenPosition>, env: Environment) {
    env.throttle.Some? && env.throttle.value.enabled && open != [] ==>
      Throttle.Heat(env.throttle.value, Throttle.Candidate(c.symbol, c.side, risk, env.pair), open) + risk
      <= env.throttle.value.maxHeat
  }

  lemma ThrottleIff(c: Candidate, risk: real, open: seq<Throttle.OpenPosition>, env: Environment)
    ensures ThrottleAllows(risk, c, open, env) <==> ThrottleLets(c, risk, open, env)
  {
  }

  /** What the sizing asks: a stop distance, a fraction to risk, and room for the smallest lot. */
  predicate SizeFits(balance: real, risk: real, c: Candidate) {
    c.stopPips > 0.0 && 0.0 < risk < 1.0 && balance * risk >= 0.01 * (c.stopPips * c.ins.value)
  }

  lemma SizeIff(balance: real, risk: real, c: Candidate)
    ensures var sizing := LotSizeFromRisk(balance, risk, c.stopPips, c.ins);
            sizing.Lots? && sizing.lots > 0.0 <==> SizeFits(balance, risk, c)
  {
    if c.stopPips > 0.0 && 0.0 < risk < 1.0 {
      DefaultLotIsSafe(balance, risk, c.stopPips, c.ins);
      PositiveIff(LotSizeFromRisk(balance, risk, c.stopPips, c.ins).lots, balance * risk,
                  PerLotRisk(c.stopPips, c.ins));
    }
  }

  lemma PositiveIff(lots: real, budget: real, perLot: real)
    requires SafeAndTight(lots, budget, perLot, DEFAULT_LIMITS)
    ensures lots > 0.0 <==> budget >= 0.01 * perLot
  {
  }

  lemma EvaluateIff(lim: RiskLimits, s: RiskState, balance: real, c: Candidate,
                    open: seq<Throttle.OpenPosition>, env: Environment, guard: Option<Challenge>, sizing: Sizing)
    requires sizing == LotSizeFromRisk(balance, EffectiveRisk(lim, c), c.stopPips, c.ins)
    ensures var d := Evaluate(lim, s, balance, c, open, env, guard);
            && (d.Approved? <==>
                && LedgerGates(lim, s, balance, c, env) == None
                && ThrottleAllows(EffectiveRisk(lim, c), c, open, env)
                && sizing.Lots? && sizing.lots > 0.0 && GuardAllows(c, sizing.lots, guard))
            && (d.Approved? ==> sizing == Lots(d.lots))
  {
  }

  /** Exactly when a candidate is approved, and for how many lots: ledger, balance and calendar
      let it through, the throttle has room, the smallest lot fits the budget, and the challenge
      account allows the lots. */
  lemma ApprovedIff(lim: RiskLimits, s: RiskState, balance: real, c: Candidate, risk: real,
                    open: seq<Throttle.OpenPosition>, env: Environment, guard: Option<Challenge>)
    requires risk == lim.riskPerTrade * c.weight
    ensures var d, sizing := Evaluate(lim, s, balance, c, open, env, guard),
                             LotSizeFromRisk(balance, risk, c.stopPips, c.ins);
            && (d.Approved? <==>
                && LedgerLets(lim, s, balance, c.weight, risk, env.blackout)
                && ThrottleLets(c, risk, open, env)
                && SizeFits(balance, risk, c)
                && ChallengeLets(guard, c.stopPips > 0.0, if sizing.Lots? then sizing.lots else 0.0))
            && (d.Approved? ==> sizing == Lots(d.lots))
  {
    assert EffectiveRisk(lim, c) == risk;
    var sizing := LotSizeFromRisk(balance, risk, c.stopPips, c.ins);
    EvaluateIff(lim, s, balance, c, open, env, guard, sizing);
    LedgerGatesIff(lim, s, balance, c, env, risk);
    ThrottleIff(c, risk, open, env);
    SizeIff(balance, risk, c);
    if sizing.Lots? {
      ChallengeIff(c, sizing.lots, guard);
    }
  }

  /** The share of the balance that lies between a row's entry and its stop. */
  function StopShare(r: Row, ins: Instrument, balance: real): real {
    if balance <= 0.0 then 0.0 else Abs(r.entry - r.stop) / ins.size * ins.value * r.lot / balance
  }

  /** The ledger of a new process: one count per open row, and for each its share. */
  lemma SeededRow(open: seq<Row>, r: Row, pips: string -> Instrument, balance: real)
    ensures var before, after := SeededFrom(open, pips, balance), SeededFrom(open + [r], pips, balance);
            && after.count == before.count + 1 && after.dailyPnl == before.dailyPnl == 0.0
            && after.heat == before.heat + StopShare(r, pips(r.symbol), balance)
  {
    assert (open + [r])[..|open|] == open;
  }

  /** What an approval guarantees: room in the count and in the heat cap for the trade
      at the risk it will be booked at. */
  lemma ApprovalLeavesRoom(lim: RiskLimits, s: RiskState, balance: real, c: Candidate,
                           open: seq<Throttle.OpenPosition>, env: Environment, guard: Option<Challenge>, entry: real,
                           stop: real)
    requires c.stopPips == Abs(entry - stop) / c.ins.size
    requires Evaluate(lim, s, balance, c, open, env, guard).Approved?
    ensures var lots := Evaluate(lim, s, balance, c, open, env, guard).lots;
            var booked := RiskEstimate(entry, stop, lots, c.ins, balance);
            s.count + 1 <= lim.maxOpenTrades && booked >= 0.0 && s.heat + booked <= lim.maxHeat
  {
    BookedAtMostGated(balance, EffectiveRisk(lim, c), Abs(entry - stop), c.ins);
  }

  /** Correlated heat plus the candidate's risk is within the throttle's cap whenever
      positions were open, and a killed challenge account approves nothing. */
  lemma ApprovalRespectsVetoes(lim: RiskLimits, s: RiskState, balance: real, c: Candidate,
                               open: seq<Throttle.OpenPosition>, env: Environment, guard: Option<Challenge>)
    requires Evaluate(lim, s, balance, c, open, env, guard).Approved?
    ensures env.throttle.Some? && env.throttle.value.enabled && open != [] ==>
              var risk := EffectiveRisk(lim, c);
              Throttle.Heat(env.throttle.value, Throttle.Candidate(c.symbol, c.side, risk, env.pair), open) + risk
              <= env.throttle.value.maxHeat
    ensures guard.Some? && guard.value.row.Some? ==>
            !guard.value.row.value.killedToday && !guard.value.row.value.killedForever
  {
  }
}
