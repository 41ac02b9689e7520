/** What the risk gates guarantee on the live path, where an order is filled at the broker's
    price and the broker, not the ledger, holds the positions. */
module LiveCaps {
  import opened Common
  import opened Orders
  import opened PositionSizing
  import opened Journal
  import opened Risk
  import opened Mt5
  import opened Live
  import Throttle

  // ------------------------------------------------- the number of positions

  /** An opening is one the gates approved on the ledger of that moment. */
  ghost predicate Gated(lim: RiskLimits, w: World, e: Event) {
    e.Opens? ==>
      exists balance, c, open, env: Environment, guard ::
        Evaluate(lim, Reset(w.books.risk, env.today), balance, c, open, env, guard).Approved?
  }

  ghost predicate AllGated(lim: RiskLimits, pips: string -> Instrument, es: seq<Event>) {
    es == [] ||
    (AllGated(lim, pips, es[..|es| - 1]) && Gated(lim, Run(lim, pips, START, es[..|es| - 1]), es[|es| - 1]))
  }

  lemma GatedHasRoom(lim: RiskLimits, w: World, e: Event)
    requires e.Opens? && Gated(lim, w, e)
    ensures w.books.risk.count < lim.maxOpenTrades
  {
  }

  predicate WithinCap(lim: RiskLimits, count: int) {
    count > 0 ==> count <= lim.maxOpenTrades
  }

  lemma {:induction false} RoundNeverRaises(pips: string -> Instrument, k: Books, open: seq<Row>, seen: set<int>,
                                            view: int -> Option<CloseInfo>, balance: real)
    requires k.risk.count >= 0
    ensures 0 <= ReconcileRows(pips, k, open, seen, view, balance).risk.count <= k.risk.count
  {
    if open != [] {
      RoundNeverRaises(pips, k, open[..|open| - 1], seen, view, balance);
    }
  }

  lemma StepWithinCap(lim: RiskLimits, pips: string -> Instrument, w: World, e: Event)
    requires Sound(w) && WithinCap(lim, w.books.risk.count) && Gated(lim, w, e)
    ensures WithinCap(lim, Apply(lim, pips, w, e).books.risk.count)
  {
    match e
    case Opens(_, _, _, _) => GatedHasRoom(lim, w, e);
    case BotCloses(_, _, _, _, _) =>
    case BrokerCloses(_, _) =>
    case PartlyCloses(_, _) =>
    case Reconciles(queryOk, foreign, landed, balance) =>
      RoundNeverRaises(pips, w.books, ListOpen(w.books.rows), Seen(w, queryOk, foreign), View(w, landed), balance);
    case Restarts(_, _) =>
  }

  ghost function Ids(rows: seq<Row>): (ts: set<int>)
    ensures |ts| <= |rows|
  {
    if rows == [] then {} else Ids(rows[..|rows| - 1]) + {rows[|rows| - 1].id}
  }

  lemma {:induction false} IdsAreListed(rows: seq<Row>, t: int)
    requires IsListed(rows, t)
    ensures t in Ids(rows)
  {
    var n := |rows| - 1;
    var j :| 0 <= j < |rows| && rows[j].id == t;
    if j < n {
      assert rows[..n][j].id == t;
      IdsAreListed(rows[..n], t);
    }
  }

  /** Tickets that all have a row are no more than the rows. */
  lemma NoMoreThanRows(ts: set<int>, rows: seq<Row>)
    requires forall t :: t in ts ==> IsListed(rows, t)
    ensures |ts| <= |rows|
  {
    forall t | t in ts ensures t in Ids(rows) {
      IdsAreListed(rows, t);
    }
    assert Ids(rows) == ts + (Ids(rows) - ts);
  }

  lemma LiveWithinCount(w: World)
    requires Sound(w)
    ensures |w.live.Keys| <= w.books.risk.count
  {
    ListOpenOk(w.books.rows);
    NoMoreThanRows(w.live.Keys, ListOpen(w.books.rows));
  }

  // ------------------------------------------------- exactly when the cap holds

  /** An opening that goes through although the broker already holds the capped number. */
  predicate Overfills(lim: RiskLimits, w: World, e: Event) {
    && e.Opens? && Fresh(w, e.order, e.deal)
    && !Against(OpenOrders(w, e.queryOk), e.order.symbol, e.order.side)
    && |w.live.Keys| >= lim.maxOpenTrades
  }

  lemma LiveShrinks(a: map<int, Position>, b: map<int, Position>)
    requires b.Keys <= a.Keys
    ensures |b.Keys| <= |a.Keys|
  {
    assert a.Keys == b.Keys + (a.Keys - b.Keys);
  }

  lemma LiveGrows(live: map<int, Position>, t: int, p: Position)
    requires t !in live
    ensures |live[t := p].Keys| == |live.Keys| + 1
  {
    assert live[t := p].Keys == live.Keys + {t};
  }

  lemma StepOverfillsIff(lim: RiskLimits, pips: string -> Instrument, w: World, e: Event)
    requires Recorded(w) && |w.live.Keys| <= lim.maxOpenTrades
    ensures |Apply(lim, pips, w, e).live.Keys| <= lim.maxOpenTrades <==> !Overfills(lim, w, e)
  {
    var w' := Apply(lim, pips, w, e);
    if e.Opens? && Fresh(w, e.order, e.deal) {
      LiveGrows(w.live, e.order.id, Position(e.order.symbol, e.order.side));
    } else {
      LiveShrinks(w.live, w'.live);
    }
  }

  ghost predicate AlwaysWithinCap(lim: RiskLimits, pips: string -> Instrument, es: seq<Event>) {
    && |Run(lim, pips, START, es).live.Keys| <= lim.maxOpenTrades
    && (es == [] || AlwaysWithinCap(lim, pips, es[..|es| - 1]))
  }

  ghost predicate NeverOverfills(lim: RiskLimits, pips: string -> Instrument, es: seq<Event>) {
    es == [] ||
    (NeverOverfills(lim, pips, es[..|es| - 1]) &&
     !Overfills(lim, Run(lim, pips, START, es[..|es| - 1]), es[|es| - 1]))
  }

  lemma WithinCapNow(lim: RiskLimits, pips: string -> Instrument, es: seq<Event>)
    requires AlwaysWithinCap(lim, pips, es)
    ensures |Run(lim, pips, START, es).live.Keys| <= lim.maxOpenTrades
  {
  }

  /** Over any events the broker holds at most the capped number of positions at every moment
      exactly when no opening goes through at the cap. */
  lemma {:induction false} EveryRunWithinCapIff(lim: RiskLimits, pips: string -> Instrument, es: seq<Event>)
    requires lim.maxOpenTrades >= 0
    ensures AlwaysWithinCap(lim, pips, es) <==> NeverOverfills(lim, pips, es)
  {
    if es != [] {
      var before := es[..|es| - 1];
      EveryRunWithinCapIff(lim, pips, before);
      if AlwaysWithinCap(lim, pips, before) {
        EveryRunOneSidedIff(lim, pips, before);
        WithinCapNow(lim, pips, before);
        StepOverfillsIff(lim, pips, Run(lim, pips, START, before), es[|es| - 1]);
      }
    }
  }

  /** What the gates and right books are for: when every opening was approved and no step breaks
      the books, no opening goes through at the cap; partial closes, refusals, closes behind the
      bot's back and restarts included. */
  lemma {:induction false} EveryRunWithinCap(lim: RiskLimits, pips: string -> Instrument, es: seq<Event>)
    requires NothingBreaks(lim, pips, es) && AllGated(lim, pips, es)
    ensures WithinCap(lim, Run(lim, pips, START, es).books.risk.count) && NeverOverfills(lim, pips, es)
    ensures lim.maxOpenTrades >= 0 ==> AlwaysWithinCap(lim, pips, es)
  {
    if es != [] {
      var before, e := es[..|es| - 1], es[|es| - 1];
      EveryRunWithinCap(lim, pips, before);
      EveryRunKeepsTheBooksIff(lim, pips, before);
      SoundNow(lim, pips, before);
      var w := Run(lim, pips, START, before);
      StepWithinCap(lim, pips, w, e);
      LiveWithinCount(w);
      if e.Opens? {
        GatedHasRoom(lim, w, e);
      }
    }
    if lim.maxOpenTrades >= 0 {
      EveryRunWithinCapIff(lim, pips, es);
    }
  }

  // ------------------------------------------------ what a fill may have cost

  /** How far from the stop a fill of these lots may be and still book the gated risk. */
  function Reach(gated: real, balance: real, lots: real, ins: Instrument): real
    requires lots > 0.0
  {
    StrictMul(0.0, lots, ins.value);
    Quotient(gated * balance * ins.size, ins.value * lots)
  }

  /** The risk booked at the broker's fill stays within the gated risk exactly when the fill
      is within reach of the stop. */
  lemma FillBooksGatedIff(fill: real, stop: real, lots: real, ins: Instrument, balance: real, gated: real)
    requires lots > 0.0 && balance > 0.0
    ensures RiskEstimate(fill, stop, lots, ins, balance) <= gated <==>
            Abs(fill - stop) <= Reach(gated, balance, lots, ins)
  {
    var d, q := Abs(fill - stop), Abs(fill - stop) / ins.size;
    StrictMul(0.0, lots, ins.value);
    DivMul(d, ins.size);
    assert RiskMoney(d, lots, ins) == q * ins.value * lots == q * (ins.value * lots);
    RatioAtMostIff(q * (ins.value * lots), balance, gated);
    ScaleIff(q * (ins.value * lots), gated * balance, ins.size);
    Rearranged(q, ins.value * lots, ins.size, d);
    ScaleIff(d, Reach(gated, balance, lots, ins), ins.value * lots);
  }

  lemma RatioAtMostIff(money: real, balance: real, pct: real)
    requires balance > 0.0
    ensures money / balance <= pct <==> money <= pct * balance
  {
    DivMul(money, balance);
    ScaleIff(money / balance, pct, balance);
  }

  lemma ScaleIff(a: real, b: real, c: real)
    requires c > 0.0
    ensures a <= b <==> a * c <= b * c
  {
    if a <= b { MulMono(a, b, c); } else { StrictMul(b, a, c); }
  }

  lemma Rearranged(q: real, v: real, size: real, d: real)
    requires q * size == d
    ensures q * v * size == d * v
  {
  }

  /** A sized and fitted order filled no farther from its stop than it was gated at books at
      most the gated risk. */
  lemma FillBooksAtMostGated(balance: real, gated: real, price: real, stop: real, fill: real, ins: Instrument,
                             pips: real, rules: Option<VolumeRules>, free: Option<real>, perLot: Option<real>)
    requires 0.0 < gated < 1.0 && (rules.Some? ==> rules.value.step > 0.0)
    requires pips == Quotient(Abs(price - stop), ins.size) > 0.0
    requires SentLots(balance, gated, pips, ins, rules, free, perLot) > 0.0
    requires Abs(fill - stop) <= Abs(price - stop)
    ensures RiskEstimate(fill, stop, SentLots(balance, gated, pips, ins, rules, free, perLot), ins, balance) <= gated
  {
    var sent := SentLots(balance, gated, pips, ins, rules, free, perLot);
    FittingKeepsBudget(balance, gated, pips, ins, rules, free, perLot);
    AffordableBooksGated(balance, gated, price, stop, fill, ins, pips, sent);
  }

  lemma AffordableBooksGated(balance: real, gated: real, price: real, stop: real, fill: real, ins: Instrument,
                             pips: real, lots: real)
    requires lots > 0.0 && gated > 0.0 && pips == Quotient(Abs(price - stop), ins.size) > 0.0
    requires lots * PerLotRisk(pips, ins) <= balance * gated
    requires Abs(fill - stop) <= Abs(price - stop)
    ensures RiskEstimate(fill, stop, lots, ins, balance) <= gated
  {
    if balance > 0.0 {
      GatedPriceInReach(price, stop, lots, ins, balance, gated, pips);
      FillBooksGatedIff(fill, stop, lots, ins, balance, gated);
    }
  }

  lemma GatedPriceInReach(price: real, stop: real, lots: real, ins: Instrument, balance: real, gated: real, pips: real)
    requires lots > 0.0 && balance > 0.0 && pips > 0.0 && pips * ins.size == Abs(price - stop)
    requires lots * PerLotRisk(pips, ins) <= balance * gated
    ensures Abs(price - stop) <= Reach(gated, balance, lots, ins)
  {
    var v := ins.value * lots;
    StrictMul(0.0, lots, ins.value);
    assert lots * (pips * ins.value) == pips * v;
    MulMono(pips * v, gated * balance, ins.size);
    Rearranged(pips, v, ins.size, Abs(price - stop));
    ScaleIff(Abs(price - stop), Reach(gated, balance, lots, ins), v);
  }

  // ------------------------------------------------- the heat cap at the fill

  /** One opening as it happens: the ledger and the candidate the gates saw, the margin data
      the order was fitted to, and the broker's fill. */
  datatype Opening = Opening(ledger: RiskState, balance: real, c: Candidate, open: seq<Throttle.OpenPosition>,
                             env: Environment, guard: Option<Challenge>, price: real, stop: real,
                             rules: Option<VolumeRules>, free: Option<real>, perLot: Option<real>, fill: real)

  /** The gates approved it, at the distance from its price to its stop, on a ledger as every
      run has it. */
  predicate IsApproved(lim: RiskLimits, x: Opening) {
    && x.c.stopPips == Quotient(Abs(x.price - x.stop), x.c.ins.size)
    && x.ledger.count >= 0 && x.ledger.heat >= 0.0
    && Evaluate(lim, x.ledger, x.balance, x.c, x.open, x.env, x.guard).Approved?
    && (x.rules.Some? ==> x.rules.value.step > 0.0)
  }

  /** The heat of the ledger once the fill is booked. */
  function HeatAfter(lim: RiskLimits, x: Opening): real
    requires IsApproved(lim, x)
  {
    var lots := SentLots(x.balance, EffectiveRisk(lim, x.c), x.c.stopPips, x.c.ins, x.rules, x.free, x.perLot);
    Opened(x.ledger, RiskEstimate(x.fill, x.stop, lots, x.c.ins, x.balance)).heat
  }

  /** Filled at most `ratio` times as far from the stop as it was gated at. */
  predicate FilledWithin(x: Opening, ratio: real) {
    Abs(x.fill - x.stop) <= ratio * Abs(x.price - x.stop)
  }

  /** Every approved opening filled within the ratio leaves the heat within its cap. */
  ghost predicate CapHolds(lim: RiskLimits, ratio: real) {
    forall x: Opening :: IsApproved(lim, x) && FilledWithin(x, ratio) ==> HeatAfter(lim, x) <= lim.maxHeat
  }

  lemma CloserFill(d: real, ratio: real, gated: real)
    requires gated >= 0.0 && d <= ratio * gated && ratio <= 1.0
    ensures d <= gated
  {
    MulMono(ratio, 1.0, gated);
  }

  lemma WithinRatio(lim: RiskLimits, ratio: real)
    requires ratio <= 1.0
    ensures CapHolds(lim, ratio)
  {
    forall x: Opening | IsApproved(lim, x) && FilledWithin(x, ratio) ensures HeatAfter(lim, x) <= lim.maxHeat {
      FilledCloser(x, ratio);
      WithinGated(lim, x);
    }
  }

  lemma FilledCloser(x: Opening, ratio: real)
    requires ratio <= 1.0 && FilledWithin(x, ratio)
    ensures Abs(x.fill - x.stop) <= Abs(x.price - x.stop)
  {
    CloserFill(Abs(x.fill - x.stop), ratio, Abs(x.price - x.stop));
  }

  lemma WithinGated(lim: RiskLimits, x: Opening)
    requires IsApproved(lim, x) && Abs(x.fill - x.stop) <= Abs(x.price - x.stop)
    ensures HeatAfter(lim, x) <= lim.maxHeat
  {
    var risk, ins := EffectiveRisk(lim, x.c), x.c.ins;
    var lots := SentLots(x.balance, risk, x.c.stopPips, ins, x.rules, x.free, x.perLot);
    FittingKeepsBudget(x.balance, risk, x.c.stopPips, ins, x.rules, x.free, x.perLot);
    if lots > 0.0 {
      FillBooksAtMostGated(x.balance, risk, x.price, x.stop, x.fill, ins, x.c.stopPips, x.rules, x.free, x.perLot);
    } else {
      assert RiskEstimate(x.fill, x.stop, 0.0, ins, x.balance) == 0.0;
    }
  }

  /** Limits that let a bot trade: each of them above zero. */
  predicate Trading(lim: RiskLimits) {
    lim.riskPerTrade > 0.0 && lim.maxDailyLossPct > 0.0 && lim.maxOpenTrades >= 1 && lim.maxHeat > 0.0
  }

  const QUIET := Environment(0, false, None, (_: string, _: string) => None)

  /** The share of the account a candidate may risk under the heat cap. */
  function Share(lim: RiskLimits): real {
    Min(lim.maxHeat, 0.5)
  }

  function BalanceFor(lim: RiskLimits): real {
    Max(lim.minBalance, 10000.0)
  }

  /** One lot loses exactly that share per pip. */
  function InstrumentFor(share: real, balance: real): Instrument
    requires share > 0.0 && balance > 0.0
  {
    StrictMul(0.0, share, balance);
    PipInfo(1.0, share * balance)
  }

  /** A ledger with room for exactly one such candidate, and a fill `ratio` times as far from
      the stop as it was gated at. */
  function SlippedOpening(lim: RiskLimits, ratio: real): Opening
    requires Trading(lim)
  {
    var ledger := RiskState(0, lim.maxHeat - Share(lim), 0.0, Some(0));
    Opening(ledger, BalanceFor(lim), ShareCandidate(lim), [], QUIET, None, 1.0, 0.0, None, None, None, ratio)
  }

  function ShareCandidate(lim: RiskLimits): Candidate
    requires Trading(lim)
  {
    Candidate("X", Buy, 1.0, Quotient(Share(lim), lim.riskPerTrade), InstrumentFor(Share(lim), BalanceFor(lim)))
  }

  /** It is sized to one lot on every flat ledger with that much room. */
  lemma ShareIsApproved(lim: RiskLimits, ledger: RiskState)
    requires Trading(lim) && ledger.count == 0 && ledger.dailyPnl == 0.0 && ledger.heat + Share(lim) <= lim.maxHeat
    ensures EffectiveRisk(lim, ShareCandidate(lim)) == Share(lim)
    ensures Evaluate(lim, ledger, BalanceFor(lim), ShareCandidate(lim), [], QUIET, None) == Approved(1.0)
  {
    var c, budget := ShareCandidate(lim), BalanceFor(lim) * Share(lim);
    PositiveFactor(c.weight, lim.riskPerTrade);
    assert EffectiveRisk(lim, c) == Share(lim);
    OneLot(BalanceFor(lim), Share(lim));
  }

  lemma OneLot(balance: real, share: real)
    requires 0.0 < share < 1.0 && balance > 0.0
    ensures LotSizeFromRisk(balance, share, 1.0, InstrumentFor(share, balance)) == Lots(1.0)
  {
    StrictMul(0.0, share, balance);
    UnitQuotient(balance * share);
    RoundedWhole(100);
    assert GridLots(1.0, DEFAULT_LIMITS) == 1.0;
  }

  lemma UnitQuotient(a: real)
    requires a != 0.0
    ensures Quotient(a, a) == 1.0
  {
  }

  lemma SlippedHeat(lim: RiskLimits, ratio: real)
    requires Trading(lim) && ratio >= 0.0
    ensures IsApproved(lim, SlippedOpening(lim, ratio)) && FilledWithin(SlippedOpening(lim, ratio), ratio)
    ensures HeatAfter(lim, SlippedOpening(lim, ratio)) == lim.maxHeat - Share(lim) + ratio * Share(lim)
  {
    SlippedIsApproved(lim, ratio);
    OneLotRisk(ratio, Share(lim), BalanceFor(lim));
  }

  /** It is approved and sent as one lot. */
  lemma SlippedIsApproved(lim: RiskLimits, ratio: real)
    requires Trading(lim) && ratio >= 0.0
    ensures IsApproved(lim, SlippedOpening(lim, ratio)) && FilledWithin(SlippedOpening(lim, ratio), ratio)
    ensures HeatAfter(lim, SlippedOpening(lim, ratio)) == lim.maxHeat - Share(lim) +
            RiskMoney(ratio, 1.0, InstrumentFor(Share(lim), BalanceFor(lim))) / BalanceFor(lim)
  {
    ShareIsApproved(lim, SlippedOpening(lim, ratio).ledger);
    OneLot(BalanceFor(lim), Share(lim));
  }

  lemma OneLotRisk(d: real, share: real, balance: real)
    requires balance > 0.0 && share > 0.0
    ensures RiskMoney(d, 1.0, InstrumentFor(share, balance)) / balance == d * share
  {
    var money := RiskMoney(d, 1.0, InstrumentFor(share, balance));
    Regrouped(d, share, balance);
    DivMul(money, balance);
    SameFactor(money / balance, d * share, balance);
  }

  lemma Regrouped(d: real, share: real, balance: real)
    ensures d / 1.0 * (share * balance) * 1.0 == d * share * balance
  {
  }

  lemma SameFactor(a: real, b: real, c: real)
    requires c > 0.0 && a * c == b * c
    ensures a == b
  {
    if a < b { StrictMul(a, b, c); } else if b < a { StrictMul(b, a, c); }
  }

  /** The heat cap survives the broker's fills exactly as long as no fill is farther from its
      stop than the distance it was gated at, whatever the ledger, the candidate and the
      margin data; a fill any fraction farther has an approved opening that exceeds the cap. */
  lemma CapHoldsIff(lim: RiskLimits, ratio: real)
    requires Trading(lim) && ratio >= 0.0
    ensures CapHolds(lim, ratio) <==> ratio <= 1.0
  {
    if ratio <= 1.0 {
      WithinRatio(lim, ratio);
    } else {
      SlippedHeat(lim, ratio);
      StrictMul(1.0, ratio, Share(lim));
    }
  }

  /** With a cap of one: an approved opening, a restart at which the journal is silent, and a
      second approved opening. Every gate passed, and the broker holds two positions. */
  lemma OverCapExample(lim: RiskLimits, pips: string -> Instrument, a: OrderV, b: OrderV, d: Deal, balance: real)
    requires Trading(lim) && lim.maxOpenTrades == 1 && d.entry == In
    requires a.ticket == Some(1) && a.id == 1 && b.ticket == Some(2) && b.id == 2 && a.status == b.status == OPEN
    requires a.symbol != b.symbol
    ensures var es := [Opens(a, 0.0, d, true), Restarts(false, balance), Opens(b, 0.0, d, true)];
            AllGated(lim, pips, es) && |Run(lim, pips, START, es).live.Keys| == 2
  {
    var e1, e2, e3 := Opens(a, 0.0, d, true), Restarts(false, balance), Opens(b, 0.0, d, true);
    var w1 := Apply(lim, pips, START, e1);
    var w2 := Apply(lim, pips, w1, e2);
    RunThree(lim, pips, e1, e2, e3);
    NewLedgerApproves(lim, START, e1);
    NewLedgerApproves(lim, w2, e3);
    GatedThree(lim, pips, e1, e2, e3);
    assert w1 == WithPosition(START, a, 0.0, d) && w1.books.rows == [OpenRow(a)];
    assert Apply(lim, pips, w2, e3) == WithPosition(w2, b, 0.0, d);
    LiveGrows(map[], 1, Position(a.symbol, a.side));
    LiveGrows(w2.live, 2, Position(b.symbol, b.side));
  }

  lemma NewLedgerApproves(lim: RiskLimits, w: World, e: Event)
    requires Trading(lim) && w.books.risk == NEW_STATE
    ensures Gated(lim, w, e)
  {
    var ledger := Reset(NEW_STATE, QUIET.today);
    ShareIsApproved(lim, ledger);
    assert Evaluate(lim, Reset(w.books.risk, QUIET.today), BalanceFor(lim), ShareCandidate(lim), [], QUIET, None)
           .Approved?;
  }

  lemma GatedThree(lim: RiskLimits, pips: string -> Instrument, e1: Event, e2: Event, e3: Event)
    requires Gated(lim, START, e1) && !e2.Opens?
    requires Gated(lim, Apply(lim, pips, Apply(lim, pips, START, e1), e2), e3)
    ensures AllGated(lim, pips, [e1, e2, e3])
  {
    RunTwo(lim, pips, e1, e2);
    assert [e1][..0] == [] && [e1, e2][..1] == [e1] && [e1, e2, e3][..2] == [e1, e2];
    assert AllGated(lim, pips, [e1]);
    assert AllGated(lim, pips, [e1, e2]);
  }
}
