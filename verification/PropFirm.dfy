/** `PropFirmGuard`: daily window, running peak and kill latches of a prop-firm
    challenge, refined to a function of what was observed. Dates are day numbers. */
module PropFirm {
  import opened Common

  datatype Policy = Policy(initial: real, maxDailyLossPct: real, maxDrawdownPct: real,
                           maxLot: Option<real>, requireStop: bool, fromPeak: bool)

  function DailyLimit(p: Policy): real { p.initial * p.maxDailyLossPct }
  function DrawdownLimit(p: Policy): real { p.initial * p.maxDrawdownPct }

  /** The single persisted row. */
  datatype State = State(peak: real, dayOpen: real, day: int, killedToday: bool, killedForever: bool,
                         tradingDays: nat, lastTradeDay: Option<int>)

  datatype Event = Observe(day: int, balance: real) | TradeOpened(day: int)

  predicate Breach(loss: real, limit: real) {
    loss > 0.0 && loss >= limit
  }

  function Baseline(p: Policy, peak: real): real {
    if p.fromPeak then Max(peak, p.initial) else p.initial
  }

  // ------------------------------------------------------------ one event

  function Initialised(p: Policy, st: Option<State>, day: int): State {
    match st case Some(s) => s case None => State(p.initial, p.initial, day, false, false, 0, None)
  }

  /** Day rollover, then peak. */
  function Rolled(s: State, day: int, balance: real): State {
    var s := if s.day != day then s.(day := day, dayOpen := balance, killedToday := false) else s;
    s.(peak := Max(s.peak, balance))
  }

  /** Formatting the kill reason divides by the baseline of the breached limit; a
      zero baseline raises, and the bot swallows the exception. */
  predicate Raises(p: Policy, st: Option<State>, e: Event) {
    e.Observe? &&
    var s := Rolled(Initialised(p, st, e.day), e.day, e.balance);
    var base := Baseline(p, s.peak);
    || (!s.killedToday && Breach(s.dayOpen - e.balance, DailyLimit(p)) && s.dayOpen == 0.0)
    || (!s.killedForever && Breach(base - e.balance, DrawdownLimit(p)) && base == 0.0)
  }

  function Observed(p: Policy, s: State, e: Event): State
    requires e.Observe?
  {
    var s := Rolled(s, e.day, e.balance);
    s.(killedToday := s.killedToday || Breach(s.dayOpen - e.balance, DailyLimit(p)),
       killedForever := s.killedForever || Breach(Baseline(p, s.peak) - e.balance, DrawdownLimit(p)))
  }

  function Step(p: Policy, st: Option<State>, e: Event): Option<State> {
    match e
    case Observe(day, _) =>
      var s := Initialised(p, st, day);
      Some(if Raises(p, st, e) then s else Observed(p, s, e))
    case TradeOpened(day) =>
      match st
      case None => None
      case Some(s) =>
        Some(if s.lastTradeDay == Some(day) then s
             else s.(tradingDays := s.tradingDays + 1, lastTradeDay := Some(day)))
  }

  function Run(p: Policy, h: seq<Event>): Option<State> {
    if h == [] then None else Step(p, Run(p, h[..|h| - 1]), h[|h| - 1])
  }

  datatype Verdict = Approved | KilledForever | KilledToday | StopRequired | LotTooBig

  function Check(p: Policy, st: Option<State>, hasStop: bool, lot: real): Verdict {
    match st
    case None => Approved
    case Some(s) =>
      if s.killedForever then KilledForever
      else if s.killedToday then KilledToday
      else if p.requireStop && !hasStop then StopRequired
      else if p.maxLot.Some? && lot > p.maxLot.value then LotTooBig
      else Approved
  }

  class PropFirmGuard {
    const policy: Policy
    var row: Option<State>

    constructor (policy: Policy)
      ensures this.policy == policy && row == None
    {
      this.policy := policy;
      row := None;
    }

    method ObserveBalance(day: int, balance: real) returns (raised: bool)
      modifies this
      ensures raised <==> Raises(policy, old(row), Observe(day, balance))
      ensures row == Step(policy, old(row), Observe(day, balance))
    {
      if row.None? {
        row := Some(State(policy.initial, policy.initial, day, false, false, 0, None));
      }
      var s := row.value;
      if s.day != day {
        s := s.(day := day, dayOpen := balance, killedToday := false);
      }
      if balance > s.peak {
        s := s.(peak := balance);
      }
      if !s.killedToday {
        var loss := s.dayOpen - balance;
        if loss > 0.0 && loss >= DailyLimit(policy) {
          if s.dayOpen == 0.0 { return true; }
          s := s.(killedToday := true);
        }
      }
      if !s.killedForever {
        var base := if policy.fromPeak then Max(s.peak, policy.initial) else policy.initial;
        var loss := base - balance;
        if loss > 0.0 && loss >= DrawdownLimit(policy) {
          if base == 0.0 { return true; }
          s := s.(killedForever := true);
        }
      }
      row := Some(s);
      return false;
    }

    method NoteTradeOpened(day: int)
      modifies this
      ensures row == Step(policy, old(row), TradeOpened(day))
    {
      if row.Some? && row.value.lastTradeDay != Some(day) {
        row := Some(row.value.(tradingDays := row.value.tradingDays + 1, lastTradeDay := Some(day)));
      }
    }

    function CheckCandidate(hasStop: bool, lot: real): Verdict
      reads this
    {
      Check(policy, row, hasStop, lot)
    }
  }

  // --------------------------------------------- what the history says

  /** Highest of the initial balance and every balance observed. */
  function PeakOf(p: Policy, h: seq<Event>): real {
    if h == [] then p.initial
    else
      var before, e := PeakOf(p, h[..|h| - 1]), h[|h| - 1];
      if e.Observe? then Max(before, e.balance) else before
  }

  function FirstDay(h: seq<Event>): Option<int> {
    if h == [] then None
    else
      var before, e := FirstDay(h[..|h| - 1]), h[|h| - 1];
      if before.None? && e.Observe? then Some(e.day) else before
  }

  function LastDay(h: seq<Event>): Option<int> {
    if h == [] then None
    else
      var e := h[|h| - 1];
      if e.Observe? then Some(e.day) else LastDay(h[..|h| - 1])
  }

  function FirstBalanceOn(h: seq<Event>, day: int): Option<real> {
    if h == [] then None
    else
      var before, e := FirstBalanceOn(h[..|h| - 1], day), h[|h| - 1];
      if before.None? && e.Observe? && e.day == day then Some(e.balance) else before
  }

  /** Daily baseline: the initial balance on day one, the day's first balance after. */
  function DayOpenOf(p: Policy, h: seq<Event>, day: int): real {
    if FirstDay(h) == Some(day) then p.initial
    else match FirstBalanceOn(h, day) case Some(b) => b case None => p.initial
  }

  ghost predicate BreachedDaily(p: Policy, h: seq<Event>, day: int) {
    exists k :: 0 <= k < |h| && h[k].Observe? && h[k].day == day &&
                Breach(DayOpenOf(p, h, day) - h[k].balance, DailyLimit(p))
  }

  ghost predicate BreachedDrawdown(p: Policy, h: seq<Event>) {
    exists k :: 0 <= k < |h| && h[k].Observe? && BreachesAt(p, h, k)
  }

  /** The k-th event breaches the drawdown from its baseline at that moment. */
  ghost predicate BreachesAt(p: Policy, h: seq<Event>, k: nat)
    requires k < |h| && h[k].Observe?
  {
    Breach(Baseline(p, PeakOf(p, h[..k + 1])) - h[k].balance, DrawdownLimit(p))
  }

  /** A balance observed on the day was below the day's opening by at least the daily share of
      the initial balance. */
  ghost predicate LostInADay(p: Policy, h: seq<Event>, day: int) {
    exists k :: 0 <= k < |h| && h[k].Observe? && h[k].day == day &&
                var loss := DayOpenOf(p, h, day) - h[k].balance;
                loss > 0.0 && loss >= p.initial * p.maxDailyLossPct
  }

  /** An observed balance was below the peak so far, or below the initial balance when the
      policy does not trail, by at least the drawdown share of the initial balance. */
  ghost predicate DrawnDown(p: Policy, h: seq<Event>) {
    exists k :: 0 <= k < |h| && h[k].Observe? && DrawnDownAt(p, h, k)
  }

  ghost predicate DrawnDownAt(p: Policy, h: seq<Event>, k: nat)
    requires k < |h| && h[k].Observe?
  {
    var loss := (if p.fromPeak then PeakOf(p, h[..k + 1]) else p.initial) - h[k].balance;
    loss > 0.0 && loss >= p.initial * p.maxDrawdownPct
  }

  lemma {:induction false} PeakAtLeast(p: Policy, h: seq<Event>)
    ensures PeakOf(p, h) >= p.initial
  {
    if h != [] { PeakAtLeast(p, h[..|h| - 1]); }
  }

  /** The guard's breaches are those amounts. */
  lemma AmountsAgree(p: Policy, h: seq<Event>)
    ensures forall day :: BreachedDaily(p, h, day) <==> LostInADay(p, h, day)
    ensures BreachedDrawdown(p, h) <==> DrawnDown(p, h)
  {
    forall k | 0 <= k < |h| && h[k].Observe? ensures BreachesAt(p, h, k) <==> DrawnDownAt(p, h, k) {
      PeakAtLeast(p, h[..k + 1]);
    }
    forall day ensures BreachedDaily(p, h, day) <==> LostInADay(p, h, day) {
      DailyAgrees(p, h, day);
    }
    if BreachedDrawdown(p, h) {
      var k :| 0 <= k < |h| && h[k].Observe? && BreachesAt(p, h, k);
      assert DrawnDownAt(p, h, k);
    }
    if DrawnDown(p, h) {
      var k :| 0 <= k < |h| && h[k].Observe? && DrawnDownAt(p, h, k);
      assert BreachesAt(p, h, k);
    }
  }

  lemma DailyAgrees(p: Policy, h: seq<Event>, day: int)
    ensures BreachedDaily(p, h, day) <==> LostInADay(p, h, day)
  {
    assert DailyLimit(p) == p.initial * p.maxDailyLossPct;
  }

  /** Days on which a trade opened once the account was initialised. */
  function TradeDays(h: seq<Event>): set<int> {
    if h == [] then {}
    else
      var before, e := TradeDays(h[..|h| - 1]), h[|h| - 1];
      if e.TradeOpened? && LastDay(h[..|h| - 1]).Some? then before + {e.day} else before
  }

  ghost predicate ClockMonotone(h: seq<Event>) {
    forall i, j :: 0 <= i < j < |h| ==> h[i].day <= h[j].day
  }

  /** The stored row is this function of the history. */
  ghost predicate Refines(p: Policy, h: seq<Event>, st: Option<State>) {
    match LastDay(h)
    case None => st == None
    case Some(day) =>
      && st.Some?
      && st.value.day == day
      && st.value.peak == PeakOf(p, h)
      && st.value.dayOpen == DayOpenOf(p, h, day)
      && (st.value.killedToday <==> BreachedDaily(p, h, day))
      && (st.value.killedForever <==> BreachedDrawdown(p, h))
      && st.value.tradingDays == |TradeDays(h)|
  }

  ghost predicate NeverRaises(p: Policy, h: seq<Event>) {
    forall k :: 0 <= k < |h| ==> !Raises(p, Run(p, h[..k]), h[k])
  }

  ghost predicate AlwaysRefines(p: Policy, h: seq<Event>) {
    forall k :: 0 <= k <= |h| ==> Refines(p, h[..k], Run(p, h[..k]))
  }

  // -------------------------------------------------------- the refinement

  lemma {:induction false} FirstBalanceSince(h: seq<Event>, day: int)
    requires FirstBalanceOn(h, day).Some?
    ensures exists k :: 0 <= k < |h| && h[k].Observe? && h[k].day == day
  {
    var before := h[..|h| - 1];
    if FirstBalanceOn(before, day).Some? {
      FirstBalanceSince(before, day);
      var k :| 0 <= k < |before| && before[k].Observe? && before[k].day == day;
      assert h[k] == before[k];
    }
  }

  lemma {:induction false} DaysObserved(h: seq<Event>)
    ensures LastDay(h).Some? <==> FirstDay(h).Some?
    ensures LastDay(h).Some? ==> exists k :: 0 <= k < |h| && h[k].Observe? && h[k].day == LastDay(h).value
    ensures FirstDay(h).Some? ==> exists k :: 0 <= k < |h| && h[k].Observe? && h[k].day == FirstDay(h).value
    ensures LastDay(h).None? ==> forall k :: 0 <= k < |h| ==> !h[k].Observe?
  {
    if h != [] {
      var before := h[..|h| - 1];
      DaysObserved(before);
      assert forall k :: 0 <= k < |before| ==> h[k] == before[k];
    }
  }

  lemma {:induction false} LastDayIsLatest(h: seq<Event>)
    requires ClockMonotone(h) && LastDay(h).Some?
    ensures forall k :: 0 <= k < |h| && h[k].Observe? ==> h[k].day <= LastDay(h).value
  {
    if !h[|h| - 1].Observe? {
      var before := h[..|h| - 1];
      LastDayIsLatest(before);
      assert forall k :: 0 <= k < |before| ==> h[k] == before[k];
    }
  }

  lemma {:induction false} TradeDaysSeen(h: seq<Event>, day: int)
    requires day in TradeDays(h)
    ensures exists k :: 0 <= k < |h| && h[k].TradeOpened? && h[k].day == day
  {
    var before := h[..|h| - 1];
    if day in TradeDays(before) {
      TradeDaysSeen(before, day);
      var k :| 0 <= k < |before| && before[k].TradeOpened? && before[k].day == day;
      assert h[k] == before[k];
    } else {
      assert h[|h| - 1].TradeOpened?;
    }
  }

  lemma DrawdownExtends(p: Policy, before: seq<Event>, e: Event)
    ensures var h := before + [e];
            BreachedDrawdown(p, h) <==>
            BreachedDrawdown(p, before) ||
            (e.Observe? && Breach(Baseline(p, PeakOf(p, h)) - e.balance, DrawdownLimit(p)))
  {
    var h := before + [e];
    if BreachedDrawdown(p, h) {
      var k :| 0 <= k < |h| && h[k].Observe? && BreachesAt(p, h, k);
      if k < |before| { SameBreach(p, before, e, k); } else { LastBreach(p, before, e); }
    }
    if BreachedDrawdown(p, before) {
      var k :| 0 <= k < |before| && before[k].Observe? && BreachesAt(p, before, k);
      SameBreach(p, before, e, k);
    }
    if e.Observe? && Breach(Baseline(p, PeakOf(p, h)) - e.balance, DrawdownLimit(p)) {
      LastBreach(p, before, e);
    }
  }

  lemma SameBreach(p: Policy, before: seq<Event>, e: Event, k: nat)
    requires k < |before| && before[k].Observe?
    ensures (before + [e])[k].Observe? && (BreachesAt(p, before + [e], k) <==> BreachesAt(p, before, k))
  {
    assert (before + [e])[..k + 1] == before[..k + 1];
  }

  lemma LastBreach(p: Policy, before: seq<Event>, e: Event)
    requires e.Observe?
    ensures var h := before + [e];
            h[|before|] == e &&
            (BreachesAt(p, h, |before|) <==> Breach(Baseline(p, PeakOf(p, h)) - e.balance, DrawdownLimit(p)))
  {
    var h := before + [e];
    assert h[..|before| + 1] == h;
  }

  lemma DailyExtends(p: Policy, before: seq<Event>, e: Event, day: int)
    requires DayOpenOf(p, before + [e], day) == DayOpenOf(p, before, day)
    ensures var h := before + [e];
            BreachedDaily(p, h, day) <==>
            BreachedDaily(p, before, day) ||
            (e.Observe? && e.day == day && Breach(DayOpenOf(p, h, day) - e.balance, DailyLimit(p)))
  {
    var h := before + [e];
    assert forall k :: 0 <= k < |before| ==> h[k] == before[k];
    assert h[|before|] == e;
  }

  ghost predicate Unobserved(h: seq<Event>, day: int) {
    forall k :: 0 <= k < |h| && h[k].Observe? ==> h[k].day != day
  }

  lemma UnobservedHasNoOpen(h: seq<Event>, day: int)
    requires Unobserved(h, day)
    ensures FirstBalanceOn(h, day) == None
  {
    if FirstBalanceOn(h, day).Some? {
      FirstBalanceSince(h, day);
    }
  }

  lemma UnobservedIsNotFirst(h: seq<Event>, day: int)
    requires Unobserved(h, day)
    ensures FirstDay(h) != Some(day)
  {
    DaysObserved(h);
  }

  /** A day nobody observed before has no breach before. */
  lemma NewDay(before: seq<Event>, e: Event)
    requires e.Observe? && ClockMonotone(before + [e])
    requires LastDay(before) != Some(e.day)
    ensures Unobserved(before, e.day)
  {
    var h := before + [e];
    assert forall k :: 0 <= k < |before| ==> h[k] == before[k];
    assert h[|before|] == e;
    assert ClockMonotone(before);
    DaysObserved(before);
    if LastDay(before).Some? {
      LastDayIsLatest(before);
      var k :| 0 <= k < |before| && before[k].Observe? && before[k].day == LastDay(before).value;
      assert h[k].day <= h[|before|].day;
    }
  }

  /** What the trade-day counter needs remembered. */
  ghost predicate TradesTracked(h: seq<Event>, st: Option<State>) {
    match st
    case None => TradeDays(h) == {}
    case Some(s) =>
      match s.lastTradeDay
      case None => TradeDays(h) == {}
      case Some(d) => d in TradeDays(h) && forall x :: x in TradeDays(h) ==> x <= d
  }

  lemma StepTrade(p: Policy, before: seq<Event>, e: Event)
    requires e.TradeOpened? && ClockMonotone(before + [e])
    requires Refines(p, before, Run(p, before)) && TradesTracked(before, Run(p, before))
    ensures Refines(p, before + [e], Run(p, before + [e])) && TradesTracked(before + [e], Run(p, before + [e]))
  {
    var h := before + [e];
    assert h[..|before|] == before;
    DrawdownExtends(p, before, e);
    match LastDay(before)
    case None =>
    case Some(day) =>
      DailyExtends(p, before, e, day);
      forall x | x in TradeDays(before) ensures x <= e.day {
        TradeDaysSeen(before, x);
        var k :| 0 <= k < |before| && before[k].TradeOpened? && before[k].day == x;
        assert h[k] == before[k] && h[|before|] == e;
      }
      if e.day in TradeDays(before) {
        assert TradeDays(before) + {e.day} == TradeDays(before);
      }
  }

  lemma StepObserve(p: Policy, before: seq<Event>, e: Event)
    requires e.Observe? && ClockMonotone(before + [e])
    requires Refines(p, before, Run(p, before)) && TradesTracked(before, Run(p, before))
    ensures !Raises(p, Run(p, before), e) ==>
              Refines(p, before + [e], Run(p, before + [e])) && TradesTracked(before + [e], Run(p, before + [e]))
    ensures Raises(p, Run(p, before), e) ==> !Refines(p, before + [e], Run(p, before + [e]))
  {
    var h := before + [e];
    assert h[..|before|] == before;
    if LastDay(before) == Some(e.day) {
      ObserveSameDay(p, before, e);
    } else {
      ObserveNewDay(p, before, e);
    }
  }

  /** Exactly the outcome `StepObserve` needs, for either kind of day. */
  ghost predicate ObserveOutcome(p: Policy, before: seq<Event>, e: Event) {
    var h := before + [e];
    if Raises(p, Run(p, before), e) then !Refines(p, h, Run(p, h))
    else Refines(p, h, Run(p, h)) && TradesTracked(h, Run(p, h))
  }

  lemma ObserveSameDay(p: Policy, before: seq<Event>, e: Event)
    requires e.Observe? && LastDay(before) == Some(e.day)
    requires Refines(p, before, Run(p, before)) && TradesTracked(before, Run(p, before))
    ensures ObserveOutcome(p, before, e)
  {
    ObserveTracks(p, before, e);
    SameDayRefines(p, before, e);
  }

  /** An observation opens no trade. */
  lemma ObserveTracks(p: Policy, before: seq<Event>, e: Event)
    requires e.Observe? && TradesTracked(before, Run(p, before))
    ensures TradesTracked(before + [e], Run(p, before + [e]))
  {
    assert (before + [e])[..|before|] == before;
  }

  lemma SameDayRefines(p: Policy, before: seq<Event>, e: Event)
    requires e.Observe? && LastDay(before) == Some(e.day) && Refines(p, before, Run(p, before))
    ensures Refines(p, before + [e], Run(p, before + [e])) <==> !Raises(p, Run(p, before), e)
  {
    var h := before + [e];
    assert h[..|before|] == before;
    DrawdownExtends(p, before, e);
    SameDayOpen(p, before, e);
    DailyExtends(p, before, e, e.day);
  }

  lemma ObserveNewDay(p: Policy, before: seq<Event>, e: Event)
    requires e.Observe? && LastDay(before) != Some(e.day) && ClockMonotone(before + [e])
    requires Refines(p, before, Run(p, before)) && TradesTracked(before, Run(p, before))
    ensures ObserveOutcome(p, before, e)
  {
    ObserveTracks(p, before, e);
    NewDay(before, e);
    if LastDay(before).None? {
      FirstDayRefines(p, before, e);
    } else {
      NextDayRefines(p, before, e);
    }
  }

  lemma FirstDayRefines(p: Policy, before: seq<Event>, e: Event)
    requires e.Observe? && LastDay(before).None? && Refines(p, before, Run(p, before)) && Unobserved(before, e.day)
    requires TradesTracked(before, Run(p, before))
    ensures Refines(p, before + [e], Run(p, before + [e])) <==> !Raises(p, Run(p, before), e)
  {
    var h := before + [e];
    assert h[..|before|] == before;
    DrawdownExtends(p, before, e);
    FirstBreachOfDay(p, before, e);
    DaysObserved(before);
    NoObserveNoDrawdown(p, before);
    UnobservedPeak(p, before);
    assert DayOpenOf(p, h, e.day) == p.initial;
  }

  lemma NextDayRefines(p: Policy, before: seq<Event>, e: Event)
    requires e.Observe? && LastDay(before).Some? && LastDay(before) != Some(e.day)
    requires Refines(p, before, Run(p, before)) && Unobserved(before, e.day)
    ensures Refines(p, before + [e], Run(p, before + [e])) <==> !Raises(p, Run(p, before), e)
  {
    var h := before + [e];
    assert h[..|before|] == before;
    DrawdownExtends(p, before, e);
    FirstBreachOfDay(p, before, e);
    UnobservedHasNoOpen(before, e.day);
    UnobservedIsNotFirst(before, e.day);
    DayOpensAtFirstBalance(p, before, e);
  }

  lemma DayOpensAtFirstBalance(p: Policy, before: seq<Event>, e: Event)
    requires e.Observe? && LastDay(before).Some? && FirstBalanceOn(before, e.day) == None
             && FirstDay(before) != Some(e.day)
    ensures DayOpenOf(p, before + [e], e.day) == e.balance
  {
    assert (before + [e])[..|before|] == before;
    DaysObserved(before);
  }

  lemma NoObserveNoDrawdown(p: Policy, h: seq<Event>)
    ensures LastDay(h).None? ==> !BreachedDrawdown(p, h)
  {
    DaysObserved(h);
  }

  lemma {:induction false} UnobservedPeak(p: Policy, h: seq<Event>)
    ensures LastDay(h).None? ==> PeakOf(p, h) == p.initial
  {
    if h != [] { UnobservedPeak(p, h[..|h| - 1]); }
  }

  lemma FirstBreachOfDay(p: Policy, before: seq<Event>, e: Event)
    requires e.Observe? && Unobserved(before, e.day)
    ensures var h := before + [e];
            BreachedDaily(p, h, e.day) <==> Breach(DayOpenOf(p, h, e.day) - e.balance, DailyLimit(p))
  {
    var h := before + [e];
    assert forall k :: 0 <= k < |before| ==> h[k] == before[k];
    assert h[|before|] == e;
  }

  lemma SameDayOpen(p: Policy, before: seq<Event>, e: Event)
    requires e.Observe? && LastDay(before) == Some(e.day)
    ensures DayOpenOf(p, before + [e], e.day) == DayOpenOf(p, before, e.day)
  {
    assert (before + [e])[..|before|] == before;
    DaysObserved(before);
    OpenKnown(before, e.day);
  }

  lemma {:induction false} OpenKnown(h: seq<Event>, day: int)
    requires exists k :: 0 <= k < |h| && h[k].Observe? && h[k].day == day
    ensures FirstBalanceOn(h, day).Some?
  {
    var k :| 0 <= k < |h| && h[k].Observe? && h[k].day == day;
    if k < |h| - 1 {
      var before := h[..|h| - 1];
      assert before[k] == h[k];
      OpenKnown(before, day);
    }
  }

  /** The guard refines its history at every moment exactly when no observation
      raised; the clock must not go backwards. */
  lemma {:induction false} GuardRefinesHistory(p: Policy, h: seq<Event>)
    requires ClockMonotone(h)
    ensures AlwaysRefines(p, h) <==> NeverRaises(p, h)
    ensures NeverRaises(p, h) ==> TradesTracked(h, Run(p, h))
  {
    if h == [] {
      assert AlwaysRefines(p, h);
    } else {
      var before, e := h[..|h| - 1], h[|h| - 1];
      assert h == before + [e];
      GuardRefinesHistory(p, before);
      assert before[..|before|] == before;
      SplitRefines(p, before, e);
      SplitRaises(p, before, e);
      if AlwaysRefines(p, before) {
        assert Refines(p, before[..|before|], Run(p, before[..|before|]));
        if e.Observe? { StepObserve(p, before, e); } else { StepTrade(p, before, e); }
      }
    }
  }

  lemma SplitRaises(p: Policy, before: seq<Event>, e: Event)
    ensures NeverRaises(p, before + [e]) <==> NeverRaises(p, before) && !Raises(p, Run(p, before), e)
  {
    var h := before + [e];
    assert h[|before|] == e && h[..|before|] == before;
    assert forall k :: 0 <= k < |before| ==> h[..k] == before[..k] && h[k] == before[k];
    if NeverRaises(p, h) {
      assert !Raises(p, Run(p, h[..|before|]), h[|before|]);
      forall k | 0 <= k < |before| ensures !Raises(p, Run(p, before[..k]), before[k]) {
        assert !Raises(p, Run(p, h[..k]), h[k]);
      }
    }
    if NeverRaises(p, before) && !Raises(p, Run(p, before), e) {
      forall k | 0 <= k < |h| ensures !Raises(p, Run(p, h[..k]), h[k]) {
        assert k < |before| ==> !Raises(p, Run(p, before[..k]), before[k]);
      }
    }
  }

  lemma SplitRefines(p: Policy, before: seq<Event>, e: Event)
    ensures var h := before + [e];
            AlwaysRefines(p, h) <==> AlwaysRefines(p, before) && Refines(p, h, Run(p, h))
  {
    var h := before + [e];
    assert h[..|h|] == h;
    assert forall k :: 0 <= k <= |before| ==> h[..k] == before[..k];
    if AlwaysRefines(p, h) {
      assert Refines(p, h[..|h|], Run(p, h[..|h|]));
      forall k | 0 <= k <= |before| ensures Refines(p, before[..k], Run(p, before[..k])) {
        assert Refines(p, h[..k], Run(p, h[..k]));
      }
    }
    if AlwaysRefines(p, before) && Refines(p, h, Run(p, h)) {
      forall k | 0 <= k <= |h| ensures Refines(p, h[..k], Run(p, h[..k])) {
        if k < |h| { assert Refines(p, before[..k], Run(p, before[..k])); }
      }
    }
  }

  /** The stored kills, in amounts: while nothing has raised, the day's kill is set exactly when
      a day's loss reached the daily share, the account's exactly when a loss from the peak
      reached the drawdown share. */
  lemma KillsInAmounts(p: Policy, h: seq<Event>)
    requires ClockMonotone(h) && NeverRaises(p, h) && LastDay(h).Some?
    ensures Run(p, h).Some? && Run(p, h).value.day == LastDay(h).value
    ensures Run(p, h).value.killedToday <==> LostInADay(p, h, LastDay(h).value)
    ensures Run(p, h).value.killedForever <==> DrawnDown(p, h)
  {
    GuardRefinesHistory(p, h);
    assert h[..|h|] == h && Refines(p, h[..|h|], Run(p, h[..|h|]));
    AmountsAgree(p, h);
  }

  /** The two limits are two amounts: on the first observation the day dies exactly when the
      loss reaches the daily share, and the account exactly when it reaches the drawdown share. */
  lemma LimitsAreSeparate(p: Policy, day: int, balance: real)
    requires p.initial > 0.0 && balance < p.initial
    ensures Run(p, [Observe(day, balance)]).Some?
    ensures var st, loss := Run(p, [Observe(day, balance)]), p.initial - balance;
            && (st.value.killedToday <==> loss >= p.initial * p.maxDailyLossPct)
            && (st.value.killedForever <==> loss >= p.initial * p.maxDrawdownPct)
            && (p.initial * p.maxDailyLossPct <= loss < p.initial * p.maxDrawdownPct ==>
                  Check(p, st, true, 0.0) == KilledToday)
  {
    var h := [Observe(day, balance)];
    assert h[..0] == [] && Run(p, h) == Step(p, None, h[0]);
  }

  /** A candidate passes a row exactly when neither kill is set, it has a stop where one is
      asked for, and its lot is within the cap; before the first observation all pass. */
  lemma CheckApprovesIff(p: Policy, st: Option<State>, hasStop: bool, lot: real)
    ensures Check(p, st, hasStop, lot) == Approved <==>
            (st.Some? ==>
               && !st.value.killedForever && !st.value.killedToday
               && (p.requireStop ==> hasStop) && (p.maxLot.Some? ==> lot <= p.maxLot.value))
  {
  }

  /** An account whose balances stay positive never raises. */
  lemma {:induction false} PositiveNeverRaises(p: Policy, h: seq<Event>)
    requires p.initial > 0.0 && forall k :: 0 <= k < |h| && h[k].Observe? ==> h[k].balance > 0.0
    ensures NeverRaises(p, h)
    ensures Run(p, h).Some? ==> Run(p, h).value.dayOpen > 0.0 && Run(p, h).value.peak >= p.initial
  {
    if h != [] {
      var before := h[..|h| - 1];
      PositiveNeverRaises(p, before);
      forall k | 0 <= k < |h| ensures !Raises(p, Run(p, h[..k]), h[k]) {
        if k < |before| { assert h[..k] == before[..k] && h[k] == before[k]; }
      }
    }
  }

  /** Every policy a challenge account can have: a positive balance and a drawdown limit of
      at most all of it. */
  predicate Ordinary(p: Policy) {
    p.initial > 0.0 && p.maxDrawdownPct <= 1.0
  }

  ghost predicate Killed(st: Option<State>) {
    st.Some? && st.value.killedForever
  }

  /** What holds until the permanent kill: the peak is the true one, and a day that opened
      at zero equity has already been a kill. */
  ghost predicate UntilKilled(p: Policy, h: seq<Event>, st: Option<State>) {
    match st
    case None => PeakOf(p, h) == p.initial && !BreachedDrawdown(p, h)
    case Some(s) =>
      s.killedForever || (s.peak == PeakOf(p, h) && s.peak >= p.initial && s.dayOpen != 0.0 && !BreachedDrawdown(p, h))
  }

  lemma LimitWithinBalance(p: Policy)
    requires Ordinary(p)
    ensures DrawdownLimit(p) <= p.initial
  {
    MulMono(p.maxDrawdownPct, 1.0, p.initial);
  }

  /** One event keeps it, whatever the clock says; only a killed account's raises. */
  lemma UntilKilledStep(p: Policy, before: seq<Event>, e: Event)
    requires Ordinary(p) && UntilKilled(p, before, Run(p, before))
    ensures UntilKilled(p, before + [e], Step(p, Run(p, before), e))
    ensures Raises(p, Run(p, before), e) ==> Killed(Run(p, before))
  {
    LimitWithinBalance(p);
    assert (before + [e])[..|before|] == before;
    DrawdownExtends(p, before, e);
  }

  lemma {:induction false} AlwaysUntilKilled(p: Policy, h: seq<Event>)
    requires Ordinary(p)
    ensures UntilKilled(p, h, Run(p, h))
  {
    if h != [] {
      AlwaysUntilKilled(p, h[..|h| - 1]);
      assert h == h[..|h| - 1] + [h[|h| - 1]];
      UntilKilledStep(p, h[..|h| - 1], h[|h| - 1]);
    }
  }

  /** An observation of an ordinary account raises only when the account is already killed,
      so no verdict is lost with it. */
  lemma RaisesOnlyWhenKilled(p: Policy, h: seq<Event>, e: Event)
    requires Ordinary(p) && Raises(p, Run(p, h), e)
    ensures Killed(Run(p, h))
  {
    AlwaysUntilKilled(p, h);
    UntilKilledStep(p, h, e);
  }

  /** The kill is a latch. */
  lemma {:induction false} KillStays(p: Policy, h: seq<Event>, later: seq<Event>)
    requires Killed(Run(p, h))
    ensures Killed(Run(p, h + later))
  {
    if later == [] {
      assert h + later == h;
    } else {
      KillStays(p, h, later[..|later| - 1]);
      assert (h + later)[..|h + later| - 1] == h + later[..|later| - 1];
    }
  }

  lemma BreachIsKept(p: Policy, h: seq<Event>)
    requires Ordinary(p) && DrawnDown(p, h)
    ensures Killed(Run(p, h))
  {
    AmountsAgree(p, h);
    AlwaysUntilKilled(p, h);
  }

  /** After a history that breached the drawdown nothing is ever approved again, whatever
      follows and whatever is asked. */
  ghost predicate NeverApprovesAgain(p: Policy, h: seq<Event>) {
    DrawnDown(p, h) ==>
      forall later, hasStop, lot :: Check(p, Run(p, h + later), hasStop, lot) == KilledForever
  }

  /** A degenerate policy: the day opens at zero equity unpunished, and the breach on it
      raises before it is stored. */
  lemma LosesTheKill(p: Policy) returns (h: seq<Event>)
    requires !Ordinary(p)
    ensures BreachedDrawdown(p, h) && !Killed(Run(p, h))
  {
    var x := 1.0 + Abs(p.initial) + Abs(DailyLimit(p)) + Abs(DrawdownLimit(p));
    var e0, e1, e2 := Observe(0, p.initial), Observe(1, 0.0), Observe(1, -x);
    h := [e0, e1, e2];
    var h1, h2 := [e0], [e0, e1];
    assert h1[..0] == [] && h2[..1] == h1 && h[..2] == h2;
    var s1 := Run(p, h1).value;
    assert Run(p, h1) == Step(p, Run(p, []), e0) && s1 == State(p.initial, p.initial, 0, false, false, 0, None);
    if p.initial > 0.0 {
      BeyondBalance(p);
    }
    assert Run(p, h2) == Step(p, Some(s1), e1);
    var s2 := Run(p, h2).value;
    assert s2.dayOpen == 0.0 && s2.day == 1 && !s2.killedToday && !s2.killedForever;
    assert Raises(p, Some(s2), e2);
    assert Run(p, h) == Step(p, Some(s2), e2) == Some(s2);
    DrawdownExtends(p, h2, e2);
    assert h2 + [e2] == h;
    PeakAtLeast(p, h);
  }

  lemma BeyondBalance(p: Policy)
    requires p.initial > 0.0 && p.maxDrawdownPct > 1.0
    ensures DrawdownLimit(p) > p.initial
  {
    MoreThanWhole(p.initial, p.maxDrawdownPct, DrawdownLimit(p));
  }

  lemma MoreThanWhole(whole: real, pct: real, limit: real)
    requires whole > 0.0 && pct > 1.0 && limit == whole * pct
    ensures limit > whole
  {
    assert whole * (pct - 1.0) > 0.0;
  }

  /** The permanent kill survives every history, with any clock and any observation that
      raises, exactly when the policy is an ordinary one. */
  lemma KillIsForeverIff(p: Policy)
    ensures (forall h :: NeverApprovesAgain(p, h)) <==> Ordinary(p)
  {
    if Ordinary(p) {
      forall h ensures NeverApprovesAgain(p, h) {
        if DrawnDown(p, h) {
          BreachIsKept(p, h);
          forall later, hasStop, lot ensures Check(p, Run(p, h + later), hasStop, lot) == KilledForever {
            KillStays(p, h, later);
          }
        }
      }
    } else {
      var h := LosesTheKill(p);
      AmountsAgree(p, h);
      assert h + [] == h;
      assert Check(p, Run(p, h + []), true, 0.0) != KilledForever;
      assert !NeverApprovesAgain(p, h);
    }
  }

  /** A day's kill holds for the rest of that day, whatever is observed. */
  lemma {:induction false} KillLastsTheDay(p: Policy, st: State, later: seq<Event>, hasStop: bool, lot: real)
    requires st.killedToday
    requires forall k :: 0 <= k < |later| && later[k].Observe? ==> later[k].day == st.day
    ensures Check(p, Some(AfterDay(p, st, later)), hasStop, lot) in {KilledForever, KilledToday}
    ensures AfterDay(p, st, later).killedToday && AfterDay(p, st, later).day == st.day
  {
    if later != [] {
      KillLastsTheDay(p, st, later[..|later| - 1], hasStop, lot);
    }
  }

  function AfterDay(p: Policy, st: State, later: seq<Event>): State {
    if later == [] then st
    else Step(p, Some(AfterDay(p, st, later[..|later| - 1])), later[|later| - 1]).value
  }

  /** Nothing is approved, at least for the rest of this day. */
  predicate Blocked(st: Option<State>, day: int) {
    st.Some? && (st.value.killedForever || (st.value.killedToday && st.value.day == day))
  }

  /** The stored row of an ordinary account follows its history until the account is killed;
      an observation that raises comes after. */
  lemma {:induction false} KilledOrRefines(p: Policy, h: seq<Event>)
    requires Ordinary(p) && ClockMonotone(h)
    ensures Killed(Run(p, h)) || (Refines(p, h, Run(p, h)) && TradesTracked(h, Run(p, h)))
  {
    if h != [] {
      var before, e := h[..|h| - 1], h[|h| - 1];
      assert h == before + [e];
      KilledOrRefines(p, before);
      if Killed(Run(p, before)) {
        KillStays(p, before, [e]);
      } else if e.Observe? {
        StepObserve(p, before, e);
        if Raises(p, Run(p, before), e) {
          RaisesOnlyWhenKilled(p, before, e);
        }
      } else {
        StepTrade(p, before, e);
      }
    }
  }

  /** A breach of the daily limit on the last observed day blocks an ordinary account for the
      rest of that day. */
  lemma DailyBreachBlocks(p: Policy, h: seq<Event>, day: int)
    requires Ordinary(p) && ClockMonotone(h) && LastDay(h) == Some(day) && LostInADay(p, h, day)
    ensures Blocked(Run(p, h), day)
  {
    AmountsAgree(p, h);
    KilledOrRefines(p, h);
  }
}
