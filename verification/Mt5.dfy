/** `MT5Executor`: order outcomes against a broker that may refuse, vanish or have
    closed the position already. The broker's answers are parameters. */
module Mt5 {
  import opened Common
  import opened Orders
  import opened PositionSizing
  import opened Journal

  // -------------------------------------------------------------- margin

  /** `volume_step` and `volume_min`, with the source's fallbacks already applied. */
  datatype VolumeRules = VolumeRules(step: real, min: real)

  datatype Fit = Keep | Scale(lots: real) | Reject

  /** `rules`, `freeMargin` and `perLot` are absent when the terminal does not answer. */
  function FitToMargin(lots: real, rules: Option<VolumeRules>, freeMargin: Option<real>, perLot: Option<real>): Fit
    requires rules.Some? ==> rules.value.step > 0.0
  {
    if rules.None? || freeMargin.None? then Keep
    else if perLot.None? || perLot.value <= 0.0 then Keep
    else if freeMargin.value <= 0.0 then Reject
    else
      var maxLot := FloorTo(Quotient(freeMargin.value * 0.9, perLot.value), rules.value.step);
      if maxLot < rules.value.min then Reject
      else if lots > maxLot then Scale(maxLot)
      else Keep
  }

  function FittedLots(lots: real, f: Fit): real {
    match f case Keep => lots case Scale(l) => l case Reject => 0.0
  }

  function Steps(k: int, step: real): real {
    k as real * step
  }

  /** On the broker's volume grid. */
  ghost predicate OnStep(lots: real, step: real) {
    exists k: int :: lots == Steps(k, step)
  }

  lemma FloorIsOnStep(x: real, step: real)
    requires step > 0.0
    ensures OnStep(FloorTo(x, step), step)
    ensures x > 0.0 ==> FloorTo(x, step) >= 0.0
  {
    var k := (x / step).Floor;
    assert FloorTo(x, step) == Steps(k, step);
    if x > 0.0 {
      DivMul(x, step);
      PositiveFactor(x / step, step);
      MulMono(0.0, k as real, step);
    }
  }

  lemma PositiveFactor(a: real, b: real)
    requires b > 0.0 && a * b > 0.0
    ensures a > 0.0
  {
    if a <= 0.0 { MulMono(a, 0.0, b); }
  }

  /** Fitting never increases the lot, an accepted order with margin data uses at most
      90% of the free margin, and a scaled lot is the largest on the broker's grid
      that does. */
  lemma FitIsSafe(lots: real, rules: VolumeRules, free: real, perLot: real)
    requires rules.step > 0.0 && perLot > 0.0
    ensures var f := FitToMargin(lots, Some(rules), Some(free), Some(perLot));
            && FittedLots(lots, f) <= Max(lots, 0.0)
            && (!f.Reject? ==> FittedLots(lots, f) * perLot <= free * 0.9)
            && (f.Scale? ==>
                  && OnStep(f.lots, rules.step) && f.lots >= rules.min
                  && free * 0.9 < (f.lots + rules.step) * perLot)
  {
    if free > 0.0 {
      var raw := Quotient(free * 0.9, perLot);
      var maxLot := FloorTo(raw, rules.step);
      FloorIsOnStep(raw, rules.step);
      MulMono(maxLot, raw, perLot);
      StrictMul(raw, maxLot + rules.step, perLot);
      if lots <= maxLot {
        MulMono(lots, maxLot, perLot);
      } else {
        PositiveFactor(raw, perLot);
      }
    }
  }

  /** Fitting without margin data keeps the lot. */
  lemma NoDataKeeps(lots: real, rules: Option<VolumeRules>, free: Option<real>, perLot: Option<real>)
    requires rules.Some? ==> rules.value.step > 0.0
    ensures rules.None? || free.None? || perLot.None? || perLot.value <= 0.0 ==>
              FitToMargin(lots, rules, free, perLot) == Keep
  {
  }

  /** With data: rejected exactly when no lot on the broker's grid from its smallest on costs at
      most 90% of the free margin, kept exactly when a payable grid lot is as large, and
      otherwise cut to the largest payable one. */
  lemma FitIff(lots: real, rules: VolumeRules, free: real, perLot: real)
    requires rules.step > 0.0 && perLot > 0.0
    ensures var f, budget := FitToMargin(lots, Some(rules), Some(free), Some(perLot)), free * 0.9;
            && (f.Reject? <==> free <= 0.0 || !exists g :: Payable(g, budget, perLot, rules.step) && g >= rules.min)
            && (!f.Reject? ==> (f.Keep? <==> exists g :: Payable(g, budget, perLot, rules.step) && g >= lots))
            && (f.Scale? ==>
                  && Payable(f.lots, budget, perLot, rules.step) && rules.min <= f.lots < lots
                  && forall g :: Payable(g, budget, perLot, rules.step) ==> g <= f.lots)
  {
    var raw := Quotient(free * 0.9, perLot);
    var maxLot := FloorTo(raw, rules.step);
    LargestPayable(raw, free * 0.9, perLot, rules.step);
    assert Payable(maxLot, free * 0.9, perLot, rules.step);
  }

  lemma LargestPayable(raw: real, budget: real, perLot: real, step: real)
    requires step > 0.0 && perLot > 0.0 && raw * perLot == budget
    ensures Payable(FloorTo(raw, step), budget, perLot, step)
    ensures forall g :: Payable(g, budget, perLot, step) ==> g <= FloorTo(raw, step)
  {
    var stepped := FloorTo(raw, step);
    assert stepped == GridPoint((raw / step).Floor, step);
    WithinBudget(raw, stepped, budget, perLot);
    forall g | Payable(g, budget, perLot, step) ensures g <= stepped {
      PayableBelow(g, raw, stepped, budget, perLot, step);
    }
  }

  /** Whatever the margin data, a non-negative lot stays one and does not grow. */
  lemma FitShrinks(lots: real, rules: Option<VolumeRules>, free: Option<real>, perLot: Option<real>)
    requires lots >= 0.0 && (rules.Some? ==> rules.value.step > 0.0)
    ensures 0.0 <= FittedLots(lots, FitToMargin(lots, rules, free, perLot)) <= lots
  {
    var f := FitToMargin(lots, rules, free, perLot);
    if f.Scale? {
      var raw := Quotient(free.value * 0.9, perLot.value);
      assert raw * perLot.value == free.value * 0.9;
      PositiveFactor(raw, perLot.value);
      FloorIsOnStep(raw, rules.value.step);
    }
  }

  /** The lot that is sent: sized from the risk budget, then fitted to the margin. */
  function SentLots(balance: real, riskPct: real, stopPips: real, ins: Instrument,
                    rules: Option<VolumeRules>, free: Option<real>, perLot: Option<real>): real
    requires stopPips > 0.0 && 0.0 < riskPct < 1.0
    requires rules.Some? ==> rules.value.step > 0.0
  {
    DefaultLotIsSafe(balance, riskPct, stopPips, ins);
    var lots := LotSizeFromRisk(balance, riskPct, stopPips, ins).lots;
    FittedLots(lots, FitToMargin(lots, rules, free, perLot))
  }

  /** Sizing survives fitting to any margin data: the sent lot is at most the sized one and
      still risks no more than its budget. */
  lemma FittingKeepsBudget(balance: real, riskPct: real, stopPips: real, ins: Instrument,
                           rules: Option<VolumeRules>, free: Option<real>, perLot: Option<real>)
    requires stopPips > 0.0 && 0.0 < riskPct < 1.0
    requires rules.Some? ==> rules.value.step > 0.0
    ensures LotSizeFromRisk(balance, riskPct, stopPips, ins).Lots?
    ensures var sent := SentLots(balance, riskPct, stopPips, ins, rules, free, perLot);
            && 0.0 <= sent <= LotSizeFromRisk(balance, riskPct, stopPips, ins).lots
            && (sent > 0.0 ==> sent * PerLotRisk(stopPips, ins) <= balance * riskPct)
  {
    DefaultLotIsSafe(balance, riskPct, stopPips, ins);
    var lots := LotSizeFromRisk(balance, riskPct, stopPips, ins).lots;
    assert lots >= 0.0;
    FitShrinks(lots, rules, free, perLot);
    SmallerFits(SentLots(balance, riskPct, stopPips, ins, rules, free, perLot), lots, balance * riskPct,
                PerLotRisk(stopPips, ins));
  }

  /** A lot no larger than the sized one stays within its budget. */
  lemma SmallerFits(sent: real, lots: real, budget: real, perLot: real)
    requires SafeAndTight(lots, budget, perLot, DEFAULT_LIMITS) && sent <= lots && perLot > 0.0
    ensures 0.0 <= lots && (sent > 0.0 ==> sent * perLot <= budget)
  {
    MulMono(sent, lots, perLot);
  }

  // --------------------------------------------------------------- deals

  datatype DealEntry = In | Out | InOut
  datatype Deal = Deal(entry: DealEntry, time: int, price: real, profit: real, swap: real, commission: real)

  predicate Closes(d: Deal) {
    d.entry != In
  }

  function DealsPnl(deals: seq<Deal>): real {
    if deals == [] then 0.0
    else
      var d := deals[|deals| - 1];
      DealsPnl(deals[..|deals| - 1]) + Share(d)
  }

  /** First of the latest closing deals. */
  function LastClose(deals: seq<Deal>): Option<Deal> {
    if deals == [] then None
    else
      var before, d := LastClose(deals[..|deals| - 1]), deals[|deals| - 1];
      if Closes(d) && (before.None? || d.time > before.value.time) then Some(d) else before
  }

  function FetchCloseInfo(deals: seq<Deal>): Option<CloseInfo> {
    match LastClose(deals) case None => None case Some(d) => Some(CloseInfo(d.price, d.time, DealsPnl(deals)))
  }

  lemma {:induction false} LastCloseIsLatest(deals: seq<Deal>)
    ensures LastClose(deals).Some? <==> exists d :: d in deals && Closes(d)
    ensures LastClose(deals).Some? ==> LastClose(deals).value in deals && Closes(LastClose(deals).value) &&
                                       forall d :: d in deals && Closes(d) ==> d.time <= LastClose(deals).value.time
  {
    if deals != [] {
      var n := |deals| - 1;
      LastCloseIsLatest(deals[..n]);
      assert deals == deals[..n] + [deals[n]];
    }
  }

  /** What one deal contributes: opening deals nothing, closing ones all three parts. */
  function Share(d: Deal): real {
    if Closes(d) then d.profit + d.swap + d.commission else 0.0
  }

  lemma {:induction false} PnlRemove(deals: seq<Deal>, i: nat)
    requires i < |deals|
    ensures DealsPnl(deals) == DealsPnl(deals[..i] + deals[i + 1..]) + Share(deals[i])
  {
    var n := |deals| - 1;
    if i == n {
      assert deals[..n] + deals[n + 1..] == deals[..n];
    } else {
      var rest := deals[..i] + deals[i + 1..];
      PnlRemove(deals[..n], i);
      assert rest[..n - 1] == deals[..n][..i] + deals[..n][i + 1..];
      assert rest[n - 1] == deals[n];
    }
  }

  lemma RemoveOne<T>(xs: seq<T>, i: nat)
    requires i < |xs|
    ensures multiset(xs[..i] + xs[i + 1..]) == multiset(xs) - multiset{xs[i]}
  {
    assert xs == xs[..i] + [xs[i]] + xs[i + 1..];
  }

  /** The profit is that of the closing deals, in whatever order the history lists them. */
  lemma {:induction false} PnlOrderIrrelevant(a: seq<Deal>, b: seq<Deal>)
    requires multiset(a) == multiset(b)
    ensures DealsPnl(a) == DealsPnl(b)
    decreases |a|
  {
    if a == [] {
      assert |multiset(b)| == 0;
    } else {
      var n := |a| - 1;
      var d := a[n];
      RemoveOne(a, n);
      assert a[..n] + a[n + 1..] == a[..n];
      assert d in multiset(a);
      var i :| 0 <= i < |b| && b[i] == d;
      RemoveOne(b, i);
      PnlRemove(b, i);
      PnlOrderIrrelevant(a[..n], b[..i] + b[i + 1..]);
    }
  }

  /** There is close information exactly when some closing deal exists; it carries the price
      and time of a deal at the latest closing time and the sum of all closing deals. */
  lemma CloseInfoIff(deals: seq<Deal>)
    ensures FetchCloseInfo(deals).Some? <==> exists d :: d in deals && Closes(d)
    ensures FetchCloseInfo(deals).Some? ==>
              var info := FetchCloseInfo(deals).value;
              && (exists d :: d in deals && Closes(d) && d.price == info.exit && d.time == info.at)
              && (forall d :: d in deals && Closes(d) ==> d.time <= info.at)
              && (forall other :: multiset(other) == multiset(deals) ==> DealsPnl(other) == info.pnl)
  {
    LastCloseIsLatest(deals);
    forall other: seq<Deal> | multiset(other) == multiset(deals) ensures DealsPnl(other) == DealsPnl(deals) {
      PnlOrderIrrelevant(other, deals);
    }
  }

  /** One more deal: an opening one changes nothing; a closing one adds its profit, swap and
      commission, and its price and time replace the old ones when it is later. */
  lemma AppendedDeal(deals: seq<Deal>, d: Deal)
    ensures var before, after := FetchCloseInfo(deals), FetchCloseInfo(deals + [d]);
            if d.entry == In then
              && (after.Some? <==> before.Some?)
              && (after.Some? ==> after == before)
            else
              && after.Some?
              && after.value.pnl ==
                 (if before.Some? then before.value.pnl else 0.0) + d.profit + d.swap + d.commission
              && if before.None? || d.time > before.value.at
                 then after.value.exit == d.price && after.value.at == d.time
                 else after.value.exit == before.value.exit && after.value.at == before.value.at
  {
    assert (deals + [d])[..|deals|] == deals;
    if LastClose(deals).None? {
      NothingClosedNothingEarned(deals);
    }
  }

  lemma {:induction false} NothingClosedNothingEarned(deals: seq<Deal>)
    requires LastClose(deals).None?
    ensures DealsPnl(deals) == 0.0
  {
    if deals != [] {
      NothingClosedNothingEarned(deals[..|deals| - 1]);
    }
  }

  function Profits(deals: seq<Deal>): real {
    if deals == [] then 0.0
    else
      var d := deals[|deals| - 1];
      Profits(deals[..|deals| - 1]) + if d.entry == In then 0.0 else d.profit
  }

  function Swaps(deals: seq<Deal>): real {
    if deals == [] then 0.0
    else
      var d := deals[|deals| - 1];
      Swaps(deals[..|deals| - 1]) + if d.entry == In then 0.0 else d.swap
  }

  function Commissions(deals: seq<Deal>): real {
    if deals == [] then 0.0
    else
      var d := deals[|deals| - 1];
      Commissions(deals[..|deals| - 1]) + if d.entry == In then 0.0 else d.commission
  }

  lemma {:induction false} PnlIsThreeSums(deals: seq<Deal>)
    ensures DealsPnl(deals) == Profits(deals) + Swaps(deals) + Commissions(deals)
  {
    if deals != [] {
      PnlIsThreeSums(deals[..|deals| - 1]);
    }
  }

  /** The profit reported for a position is the profits, the swaps and the commissions of its
      closing deals, each summed on its own. */
  lemma CloseInfoEarns(deals: seq<Deal>)
    ensures FetchCloseInfo(deals).Some? ==>
              FetchCloseInfo(deals).value.pnl == Profits(deals) + Swaps(deals) + Commissions(deals)
  {
    PnlIsThreeSums(deals);
  }

  // ------------------------------------------------------- place and close

  /** What `order_send` answered: nothing, a refusal, or a fill. */
  datatype SendResult = NoAnswer | Refused | Filled(price: real, ticket: int)

  /** Everything `close` asks the broker, in order. `volumes` is None while the
      terminal is disconnected and empty once the position is gone. */
  datatype CloseAnswers = CloseAnswers(volumes: Option<seq<real>>, quoted: bool, send: SendResult, deals: seq<Deal>)

  predicate CloseSucceeds(ticket: Option<int>, a: CloseAnswers) {
    && ticket.Some?
    && a.volumes.Some? && |a.volumes.value| > 0 && a.volumes.value[0] > 0.0
    && a.quoted
    && a.send.Filled?
  }

  /** The broker's own figure when a closing deal is visible, else a pip estimate. */
  function LivePnl(o: OrderV, exit: real, deals: seq<Deal>, ins: Instrument): real {
    if LastClose(deals).Some? then DealsPnl(deals)
    else Quotient(if o.side == Buy then exit - o.entry else o.entry - exit, ins.size) * ins.value * o.lot
  }

  /** The move from entry to exit in the order's direction. */
  function Way(o: OrderV, exit: real): real {
    if o.side == Buy then exit - o.entry else o.entry - exit
  }

  /** A confirmed close earns what the broker's closing deals say, and without any the way from
      entry to exit in the order's direction, in pips, times pip value and lots. */
  lemma LivePnlIs(o: OrderV, exit: real, deals: seq<Deal>, ins: Instrument)
    ensures (exists d :: d in deals && d.entry != In) ==>
              LivePnl(o, exit, deals, ins) == Profits(deals) + Swaps(deals) + Commissions(deals)
    ensures !(exists d :: d in deals && d.entry != In) ==>
              LivePnl(o, exit, deals, ins) == Way(o, exit) / ins.size * ins.value * o.lot
  {
    LastCloseIsLatest(deals);
    PnlIsThreeSums(deals);
    assert forall d :: Closes(d) <==> d.entry != In;
  }

  /** The order after a close was attempted. */
  function LiveClosed(o: OrderV, a: CloseAnswers, ins: Instrument): OrderV {
    if CloseSucceeds(o.ticket, a)
    then o.(status := CLOSED, exit := Some(a.send.price), pnl := LivePnl(o, a.send.price, a.deals, ins))
    else o.(status := REJECTED)
  }

  /** Exactly when the order ends closed: it has a ticket, the broker still holds volume on it,
      there is a quote, and the close was filled; everything else is a refusal that stamps
      nothing. */
  lemma LiveClosedIff(o: OrderV, a: CloseAnswers, ins: Instrument)
    ensures var o' := LiveClosed(o, a, ins);
            if o.ticket.Some? && a.volumes.Some? && a.volumes.value != [] && a.volumes.value[0] > 0.0 && a.quoted &&
               a.send.Filled?
            then o' == o.(status := CLOSED, exit := Some(a.send.price), pnl := o'.pnl)
            else o' == o.(status := REJECTED)
  {
  }

  /** What a confirmed close stamps as profit. */
  lemma LiveClosedEarns(o: OrderV, a: CloseAnswers, ins: Instrument)
    requires LiveClosed(o, a, ins).status == CLOSED
    ensures a.send.Filled?
    ensures LiveClosed(o, a, ins).pnl ==
            if exists d :: d in a.deals && d.entry != In then Profits(a.deals) + Swaps(a.deals) + Commissions(a.deals)
            else Way(o, a.send.price) / ins.size * ins.value * o.lot
  {
    LivePnlIs(o, a.send.price, a.deals, ins);
  }

  class MT5Executor {
    const pips: string -> Instrument

    constructor (pips: string -> Instrument)
      ensures this.pips == pips
    {
      this.pips := pips;
    }

    method Place(order: Order, quoted: bool, rules: Option<VolumeRules>, freeMargin: Option<real>,
                 perLot: Option<real>, send: SendResult)
      requires rules.Some? ==> rules.value.step > 0.0
      modifies order
      ensures var fit := FitToMargin(old(order.lot), rules, freeMargin, perLot);
              if !quoted || fit.Reject?
              then order.Val() == old(order.Val()).(status := REJECTED)
              else if !send.Filled?
              then order.Val() == old(order.Val()).(lot := FittedLots(old(order.lot), fit), status := REJECTED)
              else order.Val() == old(order.Val()).(lot := FittedLots(old(order.lot), fit), entry := send.price,
                                                    id := send.ticket, ticket := Some(send.ticket), status := OPEN)
    {
      if !quoted {
        order.status := REJECTED;
        return;
      }
      var fit := FitToMargin(order.lot, rules, freeMargin, perLot);
      match fit {
        case Reject =>
          order.status := REJECTED;
          return;
        case Scale(lots) => order.lot := lots;
        case Keep =>
      }
      if !send.Filled? {
        order.status := REJECTED;
        return;
      }
      order.ticket := Some(send.ticket);
      order.id := send.ticket;
      order.entry := send.price;
      order.status := OPEN;
    }

    /** Marks the order CLOSED only when the broker confirmed; every other answer
        leaves it REJECTED with nothing stamped. */
    method Close(order: Order, a: CloseAnswers)
      modifies order
      ensures order.Val() == LiveClosed(old(order.Val()), a, pips(order.symbol))
    {
      if order.ticket.None? || a.volumes.None? || |a.volumes.value| == 0 {
        order.status := REJECTED;
        return;
      }
      if a.volumes.value[0] <= 0.0 || !a.quoted {
        order.status := REJECTED;
        return;
      }
      if !a.send.Filled? {
        order.status := REJECTED;
        return;
      }
      order.pnl := LivePnl(order.Val(), a.send.price, a.deals, pips(order.symbol));
      order.status := CLOSED;
      order.exit := Some(a.send.price);
    }
  }
}
