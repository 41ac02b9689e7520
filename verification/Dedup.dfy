/** `SignalDedupStore`: the last bar acted on, per (strategy, symbol). */
module Dedup {
  import opened Common

  /** The last bar acted on, and its side, by (strategy, symbol). */
  type LastBars = map<(string, string), (int, Side)>

  predicate Remembers(last: LastBars, strategy: string, symbol: string, ts: int) {
    (strategy, symbol) in last && last[(strategy, symbol)].0 == ts
  }

  class SignalDedupStore {
    var last: LastBars

    constructor ()
      ensures last == map[]
    {
      last := map[];
    }

    predicate AlreadyActed(strategy: string, symbol: string, ts: int)
      reads this
    {
      Remembers(last, strategy, symbol, ts)
    }

    method Remember(strategy: string, symbol: string, ts: int, side: Side)
      modifies this
      ensures last == old(last)[(strategy, symbol) := (ts, side)]
    {
      last := last[(strategy, symbol) := (ts, side)];
    }
  }

  // -------------------------------------- what one key's gate lets through

  /** Bars the gate acts on, from the bars of one key's signals in arrival order. */
  function Acted(bars: seq<int>): seq<int> {
    if bars == [] then []
    else
      var n := |bars| - 1;
      if n > 0 && bars[n - 1] == bars[n] then Acted(bars[..n]) else Acted(bars[..n]) + [bars[n]]
  }

  ghost predicate NoRepeats(bars: seq<int>) {
    forall i, j :: 0 <= i < j < |bars| ==> bars[i] != bars[j]
  }

  /** Equal bars arrive together. */
  ghost predicate Contiguous(bars: seq<int>) {
    forall i, j, k :: 0 <= i < j < k < |bars| && bars[i] == bars[k] ==> bars[j] == bars[i]
  }

  lemma {:induction false} ActedSame(bars: seq<int>)
    ensures forall x :: x in Acted(bars) <==> x in bars
    ensures bars != [] ==> Acted(bars) != [] && Acted(bars)[|Acted(bars)| - 1] == bars[|bars| - 1]
  {
    if bars != [] {
      var n := |bars| - 1;
      ActedSame(bars[..n]);
      assert bars == bars[..n] + [bars[n]];
    }
  }

  lemma {:induction false} ActedIsUniqueIff(bars: seq<int>)
    ensures NoRepeats(Acted(bars)) <==> Contiguous(bars)
  {
    if bars != [] {
      var n := |bars| - 1;
      var before, x := bars[..n], bars[n];
      ActedIsUniqueIff(before);
      ActedSame(before);
      assert forall i :: 0 <= i < n ==> before[i] == bars[i];
      ContiguousPrefix(bars);
      if n > 0 && bars[n - 1] == x {
        if Contiguous(before) {
          forall i, j, k | 0 <= i < j < k < |bars| && bars[i] == bars[k] ensures bars[j] == bars[i] {
            if k == n && j < n - 1 { assert before[i] == before[n - 1]; }
            if k < n { assert before[i] == before[k]; }
          }
        }
      } else if x in before {
        var i :| 0 <= i < n && before[i] == x;
        assert bars[i] == bars[n] && bars[n - 1] != x;
        assert !Contiguous(bars);
        var k :| 0 <= k < |Acted(before)| && Acted(before)[k] == x;
        assert Acted(bars)[k] == Acted(bars)[|Acted(before)|];
      } else {
        if Contiguous(before) {
          forall i, j, k | 0 <= i < j < k < |bars| && bars[i] == bars[k] ensures bars[j] == bars[i] {
            assert bars[i] in before;
            assert k < n && before[i] == before[k];
          }
        }
        AppendNew(Acted(before), x);
      }
    }
  }

  lemma ContiguousPrefix(bars: seq<int>)
    requires bars != []
    ensures Contiguous(bars) ==> Contiguous(bars[..|bars| - 1])
  {
    var before := bars[..|bars| - 1];
    if Contiguous(bars) {
      forall i, j, k | 0 <= i < j < k < |before| && before[i] == before[k] ensures before[j] == before[i] {
        assert bars[i] == bars[k];
      }
    }
  }

  lemma AppendNew(xs: seq<int>, x: int)
    requires x !in xs
    ensures NoRepeats(xs + [x]) <==> NoRepeats(xs)
  {
    var all := xs + [x];
    assert forall i :: 0 <= i < |xs| ==> all[i] == xs[i] && xs[i] in xs;
  }

  /** The store's gate over one key's signals: ask, then remember what was let through. */
  function Gated(last: LastBars, strategy: string, symbol: string, bars: seq<(int, Side)>): (seq<int>, LastBars) {
    if bars == [] then ([], last)
    else
      var (acted, now) := Gated(last, strategy, symbol, bars[..|bars| - 1]);
      var (ts, side) := bars[|bars| - 1];
      if Remembers(now, strategy, symbol, ts) then (acted, now)
      else (acted + [ts], now[(strategy, symbol) := (ts, side)])
  }

  function Stamps(bars: seq<(int, Side)>): seq<int> {
    if bars == [] then [] else Stamps(bars[..|bars| - 1]) + [bars[|bars| - 1].0]
  }

  lemma {:induction false} GateActs(last: LastBars, strategy: string, symbol: string, bars: seq<(int, Side)>)
    requires (strategy, symbol) !in last
    ensures Gated(last, strategy, symbol, bars).0 == Acted(Stamps(bars)) && |Stamps(bars)| == |bars|
    ensures var now := Gated(last, strategy, symbol, bars).1;
            if bars == [] then now == last
            else (strategy, symbol) in now && now[(strategy, symbol)].0 == bars[|bars| - 1].0
  {
    if bars != [] {
      var n := |bars| - 1;
      GateActs(last, strategy, symbol, bars[..n]);
      var before := Stamps(bars[..n]);
      assert Stamps(bars)[..n] == before;
      if n > 0 {
        assert bars[..n][n - 1] == bars[n - 1] && before[n - 1] == bars[n - 1].0;
      }
    }
  }

  /** Remembering one bar per key lets no bar act twice exactly when equal bars arrive
      together. */
  lemma OneBarSufficesIff(last: LastBars, strategy: string, symbol: string, bars: seq<(int, Side)>)
    requires (strategy, symbol) !in last
    ensures NoRepeats(Gated(last, strategy, symbol, bars).0) <==> Contiguous(Stamps(bars))
  {
    GateActs(last, strategy, symbol, bars);
    ActedIsUniqueIff(Stamps(bars));
  }
}
