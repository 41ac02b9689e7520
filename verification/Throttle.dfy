/** `PortfolioThrottle`: how much correlated risk the open book already carries. */
module Throttle {
  import opened Common

  datatype OpenPosition = OpenPosition(symbol: string, side: Side, riskPct: real)

  datatype Policy = Policy(enabled: bool, maxHeat: real, floor: real, unknown: real)

  /** `pair` is the correlation store; the candidate's symbol comes first. */
  datatype Candidate = Candidate(symbol: string, side: Side, riskPct: real,
                                 pair: (string, string) -> Option<real>)

  datatype Decision = Decision(approved: bool, heat: real)

  function EffectiveCorrelation(pol: Policy, c: Candidate, p: OpenPosition): real {
    var raw := if p.symbol == c.symbol then 1.0
               else match c.pair(c.symbol, p.symbol) case None => pol.unknown case Some(v) => v;
    var signed := if p.side == c.side then raw else -raw;
    if Abs(signed) < pol.floor then 0.0 else signed
  }

  /** What one open position adds: a hedge adds nothing, it never subtracts. */
  function Contribution(pol: Policy, c: Candidate, p: OpenPosition): (r: real)
    ensures r >= 0.0
  {
    Max(0.0, p.riskPct * EffectiveCorrelation(pol, c, p))
  }

  function Heat(pol: Policy, c: Candidate, open: seq<OpenPosition>): (r: real)
    ensures r >= 0.0
  {
    if |open| == 0 then 0.0
    else Heat(pol, c, open[..|open| - 1]) + Contribution(pol, c, open[|open| - 1])
  }

  function Approves(pol: Policy, c: Candidate, open: seq<OpenPosition>): bool {
    !pol.enabled || open == [] || Heat(pol, c, open) + c.riskPct <= pol.maxHeat
  }

  method Decide(pol: Policy, c: Candidate, open: seq<OpenPosition>) returns (d: Decision)
    ensures d.approved <==> Approves(pol, c, open)
    ensures d.heat == if pol.enabled then Heat(pol, c, open) else 0.0
  {
    if !pol.enabled || |open| == 0 {
      return Decision(true, 0.0);
    }
    var effective := 0.0;
    for i := 0 to |open|
      invariant effective == Heat(pol, c, open[..i])
    {
      var contrib := Contribution(pol, c, open[i]);
      assert open[..i + 1][..i] == open[..i];
      if contrib > 0.0 {
        effective := effective + contrib;
      }
    }
    assert open[..|open|] == open;
    return Decision(effective + c.riskPct <= pol.maxHeat, effective);
  }

  /** What one open position contributes, from its own numbers: on the candidate's symbol its
      full risk or, against it, nothing; on another symbol its risk times the correlation, the
      sign turned when the sides differ, nothing below the floor, and never less than nothing. */
  lemma OnePosition(pol: Policy, c: Candidate, p: OpenPosition)
    requires p.riskPct >= 0.0 && 0.0 <= pol.floor <= 1.0
    ensures var heat := Heat(pol, c, [p]);
            && (p.symbol == c.symbol && p.side == c.side ==> heat == p.riskPct)
            && (p.symbol == c.symbol && p.side != c.side ==> heat == 0.0)
            && (p.symbol != c.symbol ==>
                  var r := c.pair(c.symbol, p.symbol).GetOr(pol.unknown);
                  && (p.side == c.side ==> heat == if r >= pol.floor && r > 0.0 then p.riskPct * r else 0.0)
                  && (p.side != c.side ==> heat == if -r >= pol.floor && r < 0.0 then p.riskPct * -r else 0.0))
  {
    assert [p][..0] == [];
    var e := EffectiveCorrelation(pol, c, p);
    if e >= 0.0 { MulMono(0.0, p.riskPct, e); } else { MulMono(0.0, p.riskPct, -e); }
  }

  /** The cap is on the open positions' heat and the candidate's own risk together; a switched
      off throttle and an empty book let everything through. */
  lemma ApprovesIff(pol: Policy, c: Candidate, open: seq<OpenPosition>)
    ensures !pol.enabled || open == [] ==> Approves(pol, c, open)
    ensures pol.enabled && open != [] ==> (Approves(pol, c, open) <==> Heat(pol, c, open) <= pol.maxHeat - c.riskPct)
  {
  }

  lemma {:induction false} HeatRemove(pol: Policy, c: Candidate, open: seq<OpenPosition>, i: nat)
    requires i < |open|
    ensures Heat(pol, c, open) == Heat(pol, c, open[..i] + open[i + 1..]) + Contribution(pol, c, open[i])
  {
    var n := |open| - 1;
    var rest := open[..i] + open[i + 1..];
    if i == n {
      assert rest == open[..n];
    } else {
      HeatRemove(pol, c, open[..n], i);
      assert rest[..n - 1] == open[..n][..i] + open[..n][i + 1..];
      assert rest[n - 1] == open[n];
    }
  }

  /** A book holding every position of `small` (with multiplicity) is at least as hot. */
  lemma {:induction false} HeatMonotone(pol: Policy, c: Candidate, small: seq<OpenPosition>, big: seq<OpenPosition>)
    requires multiset(small) <= multiset(big)
    ensures Heat(pol, c, small) <= Heat(pol, c, big)
  {
    if small != [] {
      var n := |small| - 1;
      var p := small[n];
      assert small == small[..n] + [p];
      assert p in multiset(small);
      assert p in multiset(big);
      var i :| 0 <= i < |big| && big[i] == p;
      var rest := big[..i] + big[i + 1..];
      assert big == big[..i] + [p] + big[i + 1..];
      assert multiset(rest) == multiset(big) - multiset{p};
      assert multiset(small[..n]) == multiset(small) - multiset{p};
      HeatMonotone(pol, c, small[..n], rest);
      HeatRemove(pol, c, big, i);
    }
  }

  /** The order in which open positions are listed is irrelevant. */
  lemma OrderIrrelevant(pol: Policy, c: Candidate, a: seq<OpenPosition>, b: seq<OpenPosition>)
    requires multiset(a) == multiset(b)
    ensures Heat(pol, c, a) == Heat(pol, c, b)
    ensures Approves(pol, c, a) <==> Approves(pol, c, b)
  {
    HeatMonotone(pol, c, a, b);
    HeatMonotone(pol, c, b, a);
    assert |multiset(a)| == |a| && |multiset(b)| == |b|;
  }

  /** Adding positions, hedges included, never turns a rejection into an approval. */
  lemma AddingNeverApproves(pol: Policy, c: Candidate, small: seq<OpenPosition>, big: seq<OpenPosition>)
    requires multiset(small) <= multiset(big)
    requires !Approves(pol, c, small)
    ensures !Approves(pol, c, big)
  {
    HeatMonotone(pol, c, small, big);
    assert small[0] in multiset(small);
    assert small[0] in multiset(big);
    assert big != [];
  }
}
