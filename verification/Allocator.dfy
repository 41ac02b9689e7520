/** Champion/challenger grading of strategy variants, symbol by symbol. */
module Allocator {

  datatype Score = Score(strategy: string, symbol: string, avgR: real, samples: int, winRate: real)
  datatype Policy = Policy(minSamples: int, tolerance: real, champion: real, challenger: real, probe: real, floor: real)
  datatype Role = Champion | Challenger | Probe | Cold
  datatype Allocation = Allocation(score: Score, role: Role, weight: real)

  // ------------------------------------------------------------ one symbol

  predicate Eligible(p: Policy, s: Score) {
    s.samples >= p.minSamples
  }

  function Select(p: Policy, group: seq<Score>, eligible: bool): seq<Score> {
    if group == [] then []
    else
      var rest, last := Select(p, group[..|group| - 1], eligible), group[|group| - 1];
      if Eligible(p, last) == eligible then rest + [last] else rest
  }

  /** `max(..., key=avg_r)`: the first of the best. */
  function FirstBest(xs: seq<Score>): (k: nat)
    requires xs != []
    ensures k < |xs|
    ensures forall i :: 0 <= i < |xs| ==> xs[i].avgR <= xs[k].avgR && (i < k ==> xs[i].avgR < xs[k].avgR)
  {
    var n := |xs| - 1;
    if n == 0 then 0
    else
      var k := FirstBest(xs[..n]);
      assert forall i :: 0 <= i < n ==> xs[..n][i] == xs[i];
      if xs[n].avgR > xs[k].avgR then n else k
  }

  function Grade(p: Policy, s: Score, best: real, isChampion: bool): Allocation {
    if best < p.floor then Allocation(s, Probe, p.probe)
    else if isChampion then Allocation(s, Champion, p.champion)
    else if best - s.avgR <= p.tolerance then Allocation(s, Challenger, p.challenger)
    else Allocation(s, Probe, p.probe)
  }

  /** Grades the first `n` eligible scores; the champion is the one at position `k`. */
  function Graded(p: Policy, eligible: seq<Score>, k: nat, n: nat): seq<Allocation>
    requires k < |eligible| && n <= |eligible|
  {
    if n == 0 then [] else Graded(p, eligible, k, n - 1) + [Grade(p, eligible[n - 1], eligible[k].avgR, n - 1 == k)]
  }

  function Colds(xs: seq<Score>): seq<Allocation> {
    if xs == [] then [] else Colds(xs[..|xs| - 1]) + [Allocation(xs[|xs| - 1], Cold, 0.0)]
  }

  function ForSymbol(p: Policy, group: seq<Score>): seq<Allocation> {
    var eligible := Select(p, group, true);
    Colds(Select(p, group, false)) + if eligible == [] then [] else Graded(p, eligible, FirstBest(eligible), |eligible|)
  }

  // ------------------------------------------------------------ all symbols

  function Group(scores: seq<Score>, symbol: string): seq<Score> {
    if scores == [] then []
    else
      var rest, last := Group(scores[..|scores| - 1], symbol), scores[|scores| - 1];
      if last.symbol == symbol then rest + [last] else rest
  }

  /** Symbols in the order they first appear: the keys of the grouping dictionary. */
  function Symbols(scores: seq<Score>): seq<string> {
    if scores == [] then []
    else
      var rest, last := Symbols(scores[..|scores| - 1]), scores[|scores| - 1];
      if last.symbol in rest then rest else rest + [last.symbol]
  }

  function PerSymbol(p: Policy, scores: seq<Score>, symbols: seq<string>): seq<Allocation> {
    if symbols == [] then []
    else PerSymbol(p, scores, symbols[..|symbols| - 1]) + ForSymbol(p, Group(scores, symbols[|symbols| - 1]))
  }

  /** Python's string order. */
  predicate LexLe(a: string, b: string) {
    a == "" || (b != "" && (a[0] < b[0] || (a[0] == b[0] && LexLe(a[1..], b[1..]))))
  }

  predicate KeyLe(a: Allocation, b: Allocation) {
    if a.score.symbol == b.score.symbol then LexLe(a.score.strategy, b.score.strategy)
    else LexLe(a.score.symbol, b.score.symbol)
  }

  function Insert(xs: seq<Allocation>, a: Allocation): seq<Allocation> {
    if xs == [] || KeyLe(xs[|xs| - 1], a) then xs + [a] else Insert(xs[..|xs| - 1], a) + [xs[|xs| - 1]]
  }

  /** A stable sort on (symbol, strategy). */
  function Sort(xs: seq<Allocation>): seq<Allocation> {
    if xs == [] then [] else Insert(Sort(xs[..|xs| - 1]), xs[|xs| - 1])
  }

  function Allocated(p: Policy, scores: seq<Score>): seq<Allocation> {
    Sort(PerSymbol(p, scores, Symbols(scores)))
  }

  class ChampionChallengerAllocator {
    const policy: Policy

    constructor (policy: Policy)
      ensures this.policy == policy
    {
      this.policy := policy;
    }

    method Allocate(scores: seq<Score>) returns (out: seq<Allocation>)
      ensures out == Allocated(policy, scores)
    {
      var bySymbol: map<string, seq<Score>> := map[];
      var order: seq<string> := [];
      for i := 0 to |scores|
        invariant order == Symbols(scores[..i]) && forall s :: s in order <==> s in bySymbol
        invariant forall s :: s in bySymbol ==> bySymbol[s] == Group(scores[..i], s)
        invariant forall s :: s !in bySymbol ==> Group(scores[..i], s) == []
      {
        assert scores[..i + 1][..i] == scores[..i];
        var symbol := scores[i].symbol;
        if symbol in bySymbol {
          bySymbol := bySymbol[symbol := bySymbol[symbol] + [scores[i]]];
        } else {
          order := order + [symbol];
          bySymbol := bySymbol[symbol := [scores[i]]];
        }
      }
      assert scores[..|scores|] == scores;
      out := [];
      for j := 0 to |order|
        invariant out == PerSymbol(policy, scores, order[..j])
      {
        assert order[..j + 1][..j] == order[..j];
        var rows := AllocateSymbol(bySymbol[order[j]]);
        out := out + rows;
      }
      assert order[..|order|] == order;
      out := Sort(out);
    }

    method AllocateSymbol(group: seq<Score>) returns (out: seq<Allocation>)
      ensures out == ForSymbol(policy, group)
    {
      var eligible, cold := Select(policy, group, true), Select(policy, group, false);
      out := [];
      for i := 0 to |cold|
        invariant out == Colds(cold[..i])
      {
        assert cold[..i + 1][..i] == cold[..i];
        out := out + [Allocation(cold[i], Cold, 0.0)];
      }
      assert cold[..|cold|] == cold;
      if eligible == [] {
        return;
      }
      var k := FirstBest(eligible);
      var graded: seq<Allocation> := [];
      for n := 0 to |eligible|
        invariant graded == Graded(policy, eligible, k, n)
      {
        graded := graded + [Grade(policy, eligible[n], eligible[k].avgR, n == k)];
      }
      out := out + graded;
    }
  }

  // -------------------------------------------------------- the sort order

  lemma {:induction false} LexTotal(a: string, b: string)
    ensures LexLe(a, b) || LexLe(b, a)
    ensures LexLe(a, b) && LexLe(b, a) ==> a == b
  {
    if a != "" && b != "" && a[0] == b[0] {
      LexTotal(a[1..], b[1..]);
      assert a == [a[0]] + a[1..] && b == [b[0]] + b[1..];
    }
  }

  lemma {:induction false} LexTransitive(a: string, b: string, c: string)
    requires LexLe(a, b) && LexLe(b, c)
    ensures LexLe(a, c)
  {
    if a != "" && a[0] == b[0] == c[0] {
      LexTransitive(a[1..], b[1..], c[1..]);
    }
  }

  lemma KeyTotal(a: Allocation, b: Allocation)
    ensures KeyLe(a, b) || KeyLe(b, a)
  {
    LexTotal(a.score.symbol, b.score.symbol);
    LexTotal(a.score.strategy, b.score.strategy);
  }

  lemma KeyTransitive(a: Allocation, b: Allocation, c: Allocation)
    requires KeyLe(a, b) && KeyLe(b, c)
    ensures KeyLe(a, c)
  {
    if a.score.symbol == b.score.symbol == c.score.symbol {
      LexTransitive(a.score.strategy, b.score.strategy, c.score.strategy);
    } else if a.score.symbol != b.score.symbol && b.score.symbol != c.score.symbol {
      LexTransitive(a.score.symbol, b.score.symbol, c.score.symbol);
      LexTotal(a.score.symbol, b.score.symbol);
    }
  }

  /** Every element is below `a`. */
  ghost predicate AllLe(xs: seq<Allocation>, a: Allocation) {
    forall x :: x in xs ==> KeyLe(x, a)
  }

  ghost predicate Ordered(xs: seq<Allocation>) {
    xs == [] || (AllLe(xs[..|xs| - 1], xs[|xs| - 1]) && Ordered(xs[..|xs| - 1]))
  }

  lemma OrderedStep(xs: seq<Allocation>, a: Allocation)
    ensures Ordered(xs + [a]) <==> Ordered(xs) && AllLe(xs, a)
  {
    assert (xs + [a])[..|xs|] == xs;
  }

  lemma AllLeTransitive(xs: seq<Allocation>, a: Allocation, b: Allocation)
    requires AllLe(xs, a) && KeyLe(a, b)
    ensures AllLe(xs, b)
  {
    forall x | x in xs ensures KeyLe(x, b) {
      KeyTransitive(x, a, b);
    }
  }

  lemma AllLeConcat(xs: seq<Allocation>, y: Allocation, a: Allocation)
    ensures AllLe(xs + [y], a) <==> AllLe(xs, a) && KeyLe(y, a)
  {
    assert y in xs + [y];
    assert forall x :: x in xs ==> x in xs + [y];
  }

  lemma {:induction false} InsertAll(xs: seq<Allocation>, a: Allocation)
    ensures multiset(Insert(xs, a)) == multiset(xs) + multiset{a}
  {
    if xs != [] {
      assert xs == xs[..|xs| - 1] + [xs[|xs| - 1]];
      InsertAll(xs[..|xs| - 1], a);
    }
  }

  lemma SameMembers(xs: seq<Allocation>, ys: seq<Allocation>, a: Allocation, b: Allocation)
    requires multiset(ys) == multiset(xs) + multiset{a} && AllLe(xs, b) && KeyLe(a, b)
    ensures AllLe(ys, b)
  {
    forall y | y in ys ensures KeyLe(y, b) {
      assert y in multiset(ys);
    }
  }

  lemma {:induction false} InsertOrders(xs: seq<Allocation>, a: Allocation)
    requires Ordered(xs)
    ensures Ordered(Insert(xs, a))
  {
    if xs == [] {
      OrderedStep(xs, a);
    } else {
      var front, last := xs[..|xs| - 1], xs[|xs| - 1];
      assert xs == front + [last];
      if KeyLe(last, a) {
        AllLeTransitive(front, last, a);
        AllLeConcat(front, last, a);
        OrderedStep(xs, a);
      } else {
        KeyTotal(a, last);
        InsertOrders(front, a);
        InsertAll(front, a);
        SameMembers(front, Insert(front, a), a, last);
        OrderedStep(Insert(front, a), last);
      }
    }
  }

  lemma {:induction false} SortOrders(xs: seq<Allocation>)
    ensures Ordered(Sort(xs)) && multiset(Sort(xs)) == multiset(xs)
  {
    if xs != [] {
      var front, last := xs[..|xs| - 1], xs[|xs| - 1];
      assert xs == front + [last];
      SortOrders(front);
      InsertOrders(Sort(front), last);
      InsertAll(Sort(front), last);
    }
  }

  // --------------------------------------------------- each symbol on its own

  function Restrict(xs: seq<Allocation>, symbol: string): seq<Allocation> {
    if xs == [] then []
    else
      var rest, last := Restrict(xs[..|xs| - 1], symbol), xs[|xs| - 1];
      if last.score.symbol == symbol then rest + [last] else rest
  }

  lemma {:induction false} RestrictConcat(xs: seq<Allocation>, ys: seq<Allocation>, symbol: string)
    ensures Restrict(xs + ys, symbol) == Restrict(xs, symbol) + Restrict(ys, symbol)
  {
    if ys == [] {
      assert xs + ys == xs;
    } else {
      assert (xs + ys)[..|xs + ys| - 1] == xs + ys[..|ys| - 1];
      RestrictConcat(xs, ys[..|ys| - 1], symbol);
    }
  }

  lemma RestrictStep(xs: seq<Allocation>, a: Allocation, symbol: string)
    ensures Restrict(xs + [a], symbol)
         == if a.score.symbol == symbol then Restrict(xs, symbol) + [a] else Restrict(xs, symbol)
  {
    assert (xs + [a])[..|xs|] == xs;
  }

  lemma {:induction false} RestrictMembers(xs: seq<Allocation>, symbol: string)
    ensures forall a :: a in Restrict(xs, symbol) <==> a in xs && a.score.symbol == symbol
  {
    if xs != [] {
      assert xs == xs[..|xs| - 1] + [xs[|xs| - 1]];
      RestrictMembers(xs[..|xs| - 1], symbol);
    }
  }

  lemma AppendsLast(xs: seq<Allocation>, a: Allocation, symbol: string)
    requires AllLe(xs, a)
    ensures Insert(Restrict(xs, symbol), a) == Restrict(xs, symbol) + [a]
  {
    RestrictMembers(xs, symbol);
    var kept := Restrict(xs, symbol);
    if kept != [] {
      assert kept[|kept| - 1] in kept;
    }
  }

  lemma InsertStep(xs: seq<Allocation>, last: Allocation, a: Allocation)
    requires !KeyLe(last, a)
    ensures Insert(xs + [last], a) == Insert(xs, a) + [last]
  {
    assert (xs + [last])[..|xs|] == xs;
  }

  lemma {:induction false} RestrictInsert(xs: seq<Allocation>, a: Allocation, symbol: string)
    requires Ordered(xs)
    ensures Restrict(Insert(xs, a), symbol) ==
            if a.score.symbol == symbol then Insert(Restrict(xs, symbol), a) else Restrict(xs, symbol)
  {
    if xs == [] {
      RestrictStep(xs, a, symbol);
    } else {
      var front, last := xs[..|xs| - 1], xs[|xs| - 1];
      assert xs == front + [last];
      if KeyLe(last, a) {
        AllLeTransitive(front, last, a);
        AllLeConcat(front, last, a);
        AppendsLast(xs, a, symbol);
        RestrictStep(xs, a, symbol);
      } else {
        RestrictInsert(front, a, symbol);
        RestrictStep(Insert(front, a), last, symbol);
        InsertStep(Restrict(front, symbol), last, a);
      }
    }
  }

  /** Sorting everything and picking out a symbol is sorting that symbol's rows. */
  lemma {:induction false} RestrictSort(xs: seq<Allocation>, symbol: string)
    ensures Restrict(Sort(xs), symbol) == Sort(Restrict(xs, symbol))
  {
    if xs != [] {
      var front, last := xs[..|xs| - 1], xs[|xs| - 1];
      RestrictSort(front, symbol);
      SortOrders(front);
      RestrictInsert(Sort(front), last, symbol);
      var kept := Restrict(front, symbol);
      assert (kept + [last])[..|kept|] == kept;
    }
  }

  ghost predicate AllOf(xs: seq<Allocation>, symbol: string) {
    forall a :: a in xs ==> a.score.symbol == symbol
  }

  lemma {:induction false} RestrictUniform(xs: seq<Allocation>, own: string, symbol: string)
    requires AllOf(xs, own)
    ensures Restrict(xs, symbol) == if symbol == own then xs else []
  {
    if xs != [] {
      var front, last := xs[..|xs| - 1], xs[|xs| - 1];
      assert xs == front + [last];
      assert last in xs && forall a :: a in front ==> a in xs;
      RestrictUniform(front, own, symbol);
    }
  }

  function ScoresOf(xs: seq<Allocation>): seq<Score> {
    if xs == [] then [] else ScoresOf(xs[..|xs| - 1]) + [xs[|xs| - 1].score]
  }

  lemma {:induction false} ScoresConcat(xs: seq<Allocation>, ys: seq<Allocation>)
    ensures ScoresOf(xs + ys) == ScoresOf(xs) + ScoresOf(ys)
  {
    if ys == [] {
      assert xs + ys == xs;
    } else {
      assert (xs + ys)[..|xs + ys| - 1] == xs + ys[..|ys| - 1];
      ScoresConcat(xs, ys[..|ys| - 1]);
    }
  }

  lemma {:induction false} ColdScores(xs: seq<Score>)
    ensures ScoresOf(Colds(xs)) == xs
  {
    if xs != [] {
      var front := xs[..|xs| - 1];
      ColdScores(front);
      assert (Colds(front) + [Allocation(xs[|xs| - 1], Cold, 0.0)])[..|Colds(front)|] == Colds(front);
    }
  }

  lemma {:induction false} GradedScores(p: Policy, eligible: seq<Score>, k: nat, n: nat)
    requires k < |eligible| && n <= |eligible|
    ensures |Graded(p, eligible, k, n)| == n && ScoresOf(Graded(p, eligible, k, n)) == eligible[..n]
    ensures forall i :: 0 <= i < n ==> Graded(p, eligible, k, n)[i] == Grade(p, eligible[i], eligible[k].avgR, i == k)
  {
    if n > 0 {
      GradedScores(p, eligible, k, n - 1);
      var before := Graded(p, eligible, k, n - 1);
      assert Graded(p, eligible, k, n)[..n - 1] == before;
    }
  }

  lemma {:induction false} SelectSplits(p: Policy, group: seq<Score>)
    ensures multiset(Select(p, group, false)) + multiset(Select(p, group, true)) == multiset(group)
    ensures forall s :: s in Select(p, group, true) ==> Eligible(p, s) && s in group
    ensures forall s :: s in Select(p, group, false) ==> !Eligible(p, s) && s in group
    ensures forall s :: s in group && Eligible(p, s) ==> s in Select(p, group, true)
  {
    if group != [] {
      assert group == group[..|group| - 1] + [group[|group| - 1]];
      SelectSplits(p, group[..|group| - 1]);
    }
  }

  lemma ForSymbolScores(p: Policy, group: seq<Score>)
    ensures multiset(ScoresOf(ForSymbol(p, group))) == multiset(group)
  {
    var eligible, cold := Select(p, group, true), Select(p, group, false);
    SelectSplits(p, group);
    ColdScores(cold);
    if eligible == [] {
      assert Colds(cold) + [] == Colds(cold);
    } else {
      var graded := Graded(p, eligible, FirstBest(eligible), |eligible|);
      GradedScores(p, eligible, FirstBest(eligible), |eligible|);
      ScoresConcat(Colds(cold), graded);
      assert eligible[..|eligible|] == eligible;
    }
  }

  lemma {:induction false} ScoreMembers(xs: seq<Allocation>)
    ensures forall a :: a in xs ==> a.score in ScoresOf(xs)
  {
    if xs != [] {
      assert xs == xs[..|xs| - 1] + [xs[|xs| - 1]];
      ScoreMembers(xs[..|xs| - 1]);
    }
  }

  lemma {:induction false} GroupMembers(scores: seq<Score>, symbol: string)
    ensures forall s :: s in Group(scores, symbol) <==> s in scores && s.symbol == symbol
    ensures forall s: Score :: s.symbol == symbol ==> multiset(Group(scores, symbol))[s] == multiset(scores)[s]
  {
    if scores != [] {
      assert scores == scores[..|scores| - 1] + [scores[|scores| - 1]];
      GroupMembers(scores[..|scores| - 1], symbol);
    }
  }

  lemma ForSymbolOwn(p: Policy, scores: seq<Score>, symbol: string)
    ensures AllOf(ForSymbol(p, Group(scores, symbol)), symbol)
  {
    var rows, group := ForSymbol(p, Group(scores, symbol)), Group(scores, symbol);
    ForSymbolScores(p, group);
    ScoreMembers(rows);
    GroupMembers(scores, symbol);
    forall a | a in rows ensures a.score.symbol == symbol {
      assert a.score in multiset(ScoresOf(rows));
      assert a.score in multiset(group);
    }
  }

  ghost predicate NoRepeat(symbols: seq<string>) {
    symbols == [] || (symbols[|symbols| - 1] !in symbols[..|symbols| - 1] && NoRepeat(symbols[..|symbols| - 1]))
  }

  lemma {:induction false} SymbolsDistinct(scores: seq<Score>)
    ensures NoRepeat(Symbols(scores))
    ensures forall s :: s in scores ==> s.symbol in Symbols(scores)
  {
    if scores != [] {
      var front, last := scores[..|scores| - 1], scores[|scores| - 1];
      assert scores == front + [last];
      SymbolsDistinct(front);
      var before := Symbols(front);
      assert (before + [last.symbol])[..|before|] == before;
    }
  }

  lemma {:induction false} PerSymbolRestricts(p: Policy, scores: seq<Score>, symbols: seq<string>, symbol: string)
    requires NoRepeat(symbols)
    ensures Restrict(PerSymbol(p, scores, symbols), symbol) ==
            if symbol in symbols then ForSymbol(p, Group(scores, symbol)) else []
  {
    if symbols != [] {
      var front, last := symbols[..|symbols| - 1], symbols[|symbols| - 1];
      assert symbols == front + [last];
      PerSymbolRestricts(p, scores, front, symbol);
      var rows := ForSymbol(p, Group(scores, last));
      RestrictConcat(PerSymbol(p, scores, front), rows, symbol);
      ForSymbolOwn(p, scores, last);
      RestrictUniform(rows, last, symbol);
    }
  }

  lemma {:induction false} NoGroup(scores: seq<Score>, symbol: string)
    requires symbol !in Symbols(scores)
    ensures Group(scores, symbol) == [] && forall p :: ForSymbol(p, []) == []
  {
    if scores != [] {
      NoGroup(scores[..|scores| - 1], symbol);
    }
  }

  /** A symbol's allocations depend on that symbol's scores alone. */
  lemma SymbolsDoNotCompete(p: Policy, scores: seq<Score>, symbol: string)
    ensures Restrict(Allocated(p, scores), symbol) == Sort(ForSymbol(p, Group(scores, symbol)))
  {
    SymbolsDistinct(scores);
    PerSymbolRestricts(p, scores, Symbols(scores), symbol);
    RestrictSort(PerSymbol(p, scores, Symbols(scores)), symbol);
    if symbol !in Symbols(scores) {
      NoGroup(scores, symbol);
    }
  }

  lemma {:induction false} RestrictCounts(xs: seq<Allocation>, s: Score)
    ensures multiset(ScoresOf(Restrict(xs, s.symbol)))[s] == multiset(ScoresOf(xs))[s]
  {
    if xs != [] {
      var front, last := xs[..|xs| - 1], xs[|xs| - 1];
      RestrictCounts(front, s);
      ScoresConcat(Restrict(front, s.symbol), [last]);
      assert ScoresOf([last]) == [last.score];
    }
  }

  lemma {:induction false} SortScores(xs: seq<Allocation>)
    ensures multiset(ScoresOf(Sort(xs))) == multiset(ScoresOf(xs))
  {
    if xs != [] {
      SortScores(xs[..|xs| - 1]);
      InsertScores(Sort(xs[..|xs| - 1]), xs[|xs| - 1]);
    }
  }

  lemma {:induction false} InsertScores(xs: seq<Allocation>, a: Allocation)
    ensures multiset(ScoresOf(Insert(xs, a))) == multiset(ScoresOf(xs)) + multiset{a.score}
  {
    if xs == [] || KeyLe(xs[|xs| - 1], a) {
      ScoresConcat(xs, [a]);
      assert ScoresOf([a]) == [a.score];
    } else {
      var front, last := xs[..|xs| - 1], xs[|xs| - 1];
      InsertScores(front, a);
      ScoresConcat(Insert(front, a), [last]);
      assert ScoresOf([last]) == [last.score];
    }
  }

  /** Exactly one allocation per score, in (symbol, strategy) order. */
  lemma OnePerScore(p: Policy, scores: seq<Score>)
    ensures multiset(ScoresOf(Allocated(p, scores))) == multiset(scores) && Ordered(Allocated(p, scores))
  {
    var out := Allocated(p, scores);
    SortOrders(PerSymbol(p, scores, Symbols(scores)));
    forall s: Score ensures multiset(ScoresOf(out))[s] == multiset(scores)[s] {
      RestrictCounts(out, s);
      SymbolsDoNotCompete(p, scores, s.symbol);
      SortScores(ForSymbol(p, Group(scores, s.symbol)));
      ForSymbolScores(p, Group(scores, s.symbol));
      GroupMembers(scores, s.symbol);
    }
  }

  // ------------------------------------------------- champions and weights

  function Champions(xs: seq<Allocation>): nat {
    if xs == [] then 0
    else Champions(xs[..|xs| - 1]) + if xs[|xs| - 1].role == Champion then 1 else 0
  }

  lemma {:induction false} ChampionsConcat(xs: seq<Allocation>, ys: seq<Allocation>)
    ensures Champions(xs + ys) == Champions(xs) + Champions(ys)
  {
    if ys == [] {
      assert xs + ys == xs;
    } else {
      assert (xs + ys)[..|xs + ys| - 1] == xs + ys[..|ys| - 1];
      ChampionsConcat(xs, ys[..|ys| - 1]);
    }
  }

  lemma {:induction false} InsertChampions(xs: seq<Allocation>, a: Allocation)
    ensures Champions(Insert(xs, a)) == Champions(xs) + Champions([a])
  {
    if xs == [] || KeyLe(xs[|xs| - 1], a) {
      ChampionsConcat(xs, [a]);
    } else {
      InsertChampions(xs[..|xs| - 1], a);
      ChampionsConcat(Insert(xs[..|xs| - 1], a), [xs[|xs| - 1]]);
    }
  }

  lemma {:induction false} SortChampions(xs: seq<Allocation>)
    ensures Champions(Sort(xs)) == Champions(xs)
  {
    if xs != [] {
      SortChampions(xs[..|xs| - 1]);
      InsertChampions(Sort(xs[..|xs| - 1]), xs[|xs| - 1]);
    }
  }

  lemma {:induction false} ColdChampions(xs: seq<Score>)
    ensures Champions(Colds(xs)) == 0
  {
    if xs != [] {
      ColdChampions(xs[..|xs| - 1]);
      ChampionsConcat(Colds(xs[..|xs| - 1]), [Allocation(xs[|xs| - 1], Cold, 0.0)]);
    }
  }

  lemma {:induction false} GradedChampions(p: Policy, eligible: seq<Score>, k: nat, n: nat)
    requires k < |eligible| && n <= |eligible|
    ensures Champions(Graded(p, eligible, k, n)) == if k < n && eligible[k].avgR >= p.floor then 1 else 0
  {
    if n > 0 {
      GradedChampions(p, eligible, k, n - 1);
      ChampionsConcat(Graded(p, eligible, k, n - 1), [Grade(p, eligible[n - 1], eligible[k].avgR, n - 1 == k)]);
    }
  }

  /** Some variant of the symbol has enough samples and is not below the floor. */
  ghost predicate WorthTrading(p: Policy, scores: seq<Score>, symbol: string) {
    exists s :: s in scores && s.symbol == symbol && Eligible(p, s) && s.avgR >= p.floor
  }

  lemma BestClearsFloor(p: Policy, scores: seq<Score>, symbol: string)
    ensures var eligible := Select(p, Group(scores, symbol), true);
            WorthTrading(p, scores, symbol) <==> eligible != [] && eligible[FirstBest(eligible)].avgR >= p.floor
  {
    var eligible := Select(p, Group(scores, symbol), true);
    SelectSplits(p, Group(scores, symbol));
    GroupMembers(scores, symbol);
    if WorthTrading(p, scores, symbol) {
      var s :| s in scores && s.symbol == symbol && Eligible(p, s) && s.avgR >= p.floor;
      assert s in eligible;
    } else if eligible != [] {
      assert eligible[FirstBest(eligible)] in eligible;
    }
  }

  /** A symbol has exactly one champion when some variant is worth trading, else none. */
  lemma OneChampionIff(p: Policy, scores: seq<Score>, symbol: string)
    ensures Champions(Restrict(Allocated(p, scores), symbol)) == if WorthTrading(p, scores, symbol) then 1 else 0
  {
    SymbolsDoNotCompete(p, scores, symbol);
    var group := Group(scores, symbol);
    var eligible, cold := Select(p, group, true), Select(p, group, false);
    SortChampions(ForSymbol(p, group));
    BestClearsFloor(p, scores, symbol);
    ColdChampions(cold);
    if eligible == [] {
      assert Colds(cold) + [] == Colds(cold);
    } else {
      var k := FirstBest(eligible);
      GradedChampions(p, eligible, k, |eligible|);
      ChampionsConcat(Colds(cold), Graded(p, eligible, k, |eligible|));
    }
  }

  lemma {:induction false} ColdRoles(xs: seq<Score>)
    ensures forall a :: a in Colds(xs) ==> a.role == Cold
  {
    if xs != [] {
      ColdRoles(xs[..|xs| - 1]);
    }
  }

  lemma RowOfSymbol(p: Policy, scores: seq<Score>, a: Allocation)
    requires a in Allocated(p, scores)
    ensures a in ForSymbol(p, Group(scores, a.score.symbol))
  {
    var rows := ForSymbol(p, Group(scores, a.score.symbol));
    RestrictMembers(Allocated(p, scores), a.score.symbol);
    SymbolsDoNotCompete(p, scores, a.score.symbol);
    SortOrders(rows);
    assert a in multiset(Sort(rows));
    assert a in multiset(rows);
  }

  /** Where an eligible variant's row comes from. */
  lemma FromGrade(p: Policy, group: seq<Score>, a: Allocation) returns (isBest: bool)
    requires a in ForSymbol(p, group) && a.role != Cold
    ensures var eligible := Select(p, group, true);
            && eligible != [] && a.score in eligible
            && a == Grade(p, a.score, eligible[FirstBest(eligible)].avgR, isBest)
            && (isBest ==> a.score == eligible[FirstBest(eligible)])
  {
    ColdRoles(Select(p, group, false));
    ColdOrGraded(p, group, a);
    var eligible := Select(p, group, true);
    isBest := GradedRow(p, eligible, FirstBest(eligible), a);
  }

  lemma GradedRow(p: Policy, eligible: seq<Score>, k: nat, a: Allocation) returns (isBest: bool)
    requires k < |eligible| && a in Graded(p, eligible, k, |eligible|)
    ensures a.score in eligible && a == Grade(p, a.score, eligible[k].avgR, isBest)
    ensures isBest ==> a.score == eligible[k]
  {
    GradedScores(p, eligible, k, |eligible|);
    var i :| 0 <= i < |eligible| && Graded(p, eligible, k, |eligible|)[i] == a;
    isBest := i == k;
  }

  lemma {:induction false} ColdRowsAre(p: Policy, group: seq<Score>, a: Allocation)
    requires a in Colds(Select(p, group, false))
    ensures a.role == Cold && a.weight == 0.0 && a.score in group && a.score.samples < p.minSamples
  {
    if group != [] {
      var rest, last := group[..|group| - 1], group[|group| - 1];
      assert group == rest + [last];
      var before := Select(p, rest, false);
      if last.samples < p.minSamples {
        assert (before + [last])[..|before|] == before;
      }
      if a in Colds(before) {
        ColdRowsAre(p, rest, a);
      }
    }
  }

  /** The best average among the symbol's scores with enough samples. */
  ghost predicate IsBest(p: Policy, scores: seq<Score>, symbol: string, best: real) {
    && (exists s :: s in scores && s.symbol == symbol && s.samples >= p.minSamples && s.avgR == best)
    && (forall s :: s in scores && s.symbol == symbol && s.samples >= p.minSamples ==> s.avgR <= best)
  }

  /** One row of the table, from the policy's numbers: too few samples are cold at weight 0;
      below the floor everybody only probes; the champion has the best average; whoever is
      within the tolerance of it challenges; the others probe. */
  ghost predicate GradedBy(p: Policy, a: Allocation, best: real) {
    if best < p.floor then a.role == Probe && a.weight == p.probe
    else if a.role == Champion then a.weight == p.champion && a.score.avgR == best
    else if best - a.score.avgR <= p.tolerance then a.role == Challenger && a.weight == p.challenger
    else a.role == Probe && a.weight == p.probe
  }

  lemma RowIs(p: Policy, scores: seq<Score>, a: Allocation)
    requires a in Allocated(p, scores)
    ensures if a.score.samples < p.minSamples then a.role == Cold && a.weight == 0.0
            else exists best :: IsBest(p, scores, a.score.symbol, best) && GradedBy(p, a, best)
  {
    RowOfSymbol(p, scores, a);
    if a.role == Cold {
      ColdRow(p, Group(scores, a.score.symbol), a);
    } else {
      WarmRow(p, scores, a);
    }
  }

  lemma WarmRow(p: Policy, scores: seq<Score>, a: Allocation)
    requires a in ForSymbol(p, Group(scores, a.score.symbol)) && a.role != Cold
    ensures a.score.samples >= p.minSamples
    ensures exists best :: IsBest(p, scores, a.score.symbol, best) && GradedBy(p, a, best)
  {
    var group := Group(scores, a.score.symbol);
    var eligible := Select(p, group, true);
    var isBest := FromGrade(p, group, a);
    SelectSplits(p, group);
    BestOfSymbol(p, scores, a.score.symbol);
    GradeIs(p, a.score, eligible[FirstBest(eligible)].avgR, isBest);
  }

  lemma GradeIs(p: Policy, s: Score, best: real, isChampion: bool)
    requires isChampion ==> s.avgR == best
    ensures GradedBy(p, Grade(p, s, best, isChampion), best)
  {
  }

  lemma BestOfSymbol(p: Policy, scores: seq<Score>, symbol: string)
    requires Select(p, Group(scores, symbol), true) != []
    ensures var eligible := Select(p, Group(scores, symbol), true);
            IsBest(p, scores, symbol, eligible[FirstBest(eligible)].avgR)
  {
    var eligible := Select(p, Group(scores, symbol), true);
    GroupMembers(scores, symbol);
    SelectSplits(p, Group(scores, symbol));
    assert eligible[FirstBest(eligible)] in eligible;
  }

  lemma ColdRow(p: Policy, group: seq<Score>, a: Allocation)
    requires a in ForSymbol(p, group) && a.role == Cold
    ensures a.weight == 0.0 && a.score in group && a.score.samples < p.minSamples
  {
    var eligible := Select(p, group, true);
    if eligible != [] {
      GradedNotCold(p, eligible, FirstBest(eligible), |eligible|);
    }
    ColdOrGraded(p, group, a);
    ColdRowsAre(p, group, a);
  }

  lemma {:induction false} GradedNotCold(p: Policy, eligible: seq<Score>, k: nat, n: nat)
    requires k < |eligible| && n <= |eligible|
    ensures forall a :: a in Graded(p, eligible, k, n) ==> a.role != Cold
    decreases n
  {
    if n > 0 { GradedNotCold(p, eligible, k, n - 1); }
  }

  lemma ColdOrGraded(p: Policy, group: seq<Score>, a: Allocation)
    requires a in ForSymbol(p, group)
    ensures var eligible := Select(p, group, true);
            || a in Colds(Select(p, group, false))
            || (eligible != [] && a in Graded(p, eligible, FirstBest(eligible), |eligible|))
  {
  }

  /** Python's string order: a string precedes its extensions, and otherwise the first
      difference decides. */
  lemma {:induction false} LexIff(a: string, b: string)
    ensures LexLe(a, b) <==>
            || a <= b
            || exists k :: 0 <= k < |a| && k < |b| && a[..k] == b[..k] && a[k] < b[k]
  {
    if a != "" && b != "" && a[0] == b[0] {
      LexIff(a[1..], b[1..]);
      if LexLe(a[1..], b[1..]) {
        if a[1..] <= b[1..] {
          assert a == [a[0]] + a[1..] && b == [b[0]] + b[1..];
          assert a <= b;
        } else {
          var k :| 0 <= k < |a[1..]| && k < |b[1..]| && a[1..][..k] == b[1..][..k] && a[1..][k] < b[1..][k];
          assert a[..k + 1] == [a[0]] + a[1..][..k] && b[..k + 1] == [b[0]] + b[1..][..k];
          assert a[k + 1] < b[k + 1];
        }
      }
      if a <= b {
        assert a[1..] <= b[1..];
      }
      if k :| 0 <= k < |a| && k < |b| && a[..k] == b[..k] && a[k] < b[k] {
        assert k > 0;
        assert a[1..][..k - 1] == a[..k][1..] && b[1..][..k - 1] == b[..k][1..];
        assert a[1..][k - 1] < b[1..][k - 1];
      }
    } else if a != "" && b != "" && a[0] < b[0] {
      assert a[..0] == b[..0];
    } else if a != "" && b != "" {
      FirstDiffers(a, b);
    }
  }

  lemma FirstDiffers(a: string, b: string)
    requires a != "" && b != "" && a[0] > b[0]
    ensures !(a <= b) && forall k :: 0 <= k < |a| && k < |b| && a[..k] == b[..k] ==> a[k] >= b[k]
  {
    assert forall k :: 0 < k <= |a| && k <= |b| ==> a[..k][0] == a[0] && b[..k][0] == b[0];
  }

  lemma BestIsMax(eligible: seq<Score>, s: Score)
    requires s in eligible
    ensures s.avgR <= eligible[FirstBest(eligible)].avgR
  {
  }

  /** `a` and `b` are rows of one table, one symbol, both eligible, `a` strictly better. */
  ghost predicate Outranks(p: Policy, scores: seq<Score>, a: Allocation, b: Allocation) {
    && a in Allocated(p, scores) && b in Allocated(p, scores) && a.score.symbol == b.score.symbol
    && a.role != Cold && b.role != Cold && a.score.avgR > b.score.avgR
  }

  /** With a negative tolerance there are no challengers, with tolerance 0 only variants
      tied with the champion. */
  predicate WeightsOrdered(p: Policy) {
    && p.champion >= p.probe
    && (p.tolerance >= 0.0 ==> p.challenger >= p.probe)
    && (p.tolerance > 0.0 ==> p.champion >= p.challenger)
  }

  lemma BetterNeverTradesSmaller(p: Policy, scores: seq<Score>, a: Allocation, b: Allocation)
    requires WeightsOrdered(p) && Outranks(p, scores, a, b)
    ensures a.weight >= b.weight
  {
    var group := Group(scores, a.score.symbol);
    RowOfSymbol(p, scores, a);
    RowOfSymbol(p, scores, b);
    var first := FromGrade(p, group, a);
    var second := FromGrade(p, group, b);
    BestIsMax(Select(p, group, true), a.score);
    GradeMonotone(p, a.score, b.score, Select(p, group, true)[FirstBest(Select(p, group, true))].avgR, first, second);
  }

  lemma GradeMonotone(p: Policy, s: Score, t: Score, best: real, first: bool, second: bool)
    requires WeightsOrdered(p) && t.avgR < s.avgR <= best && (second ==> t.avgR == best)
    ensures Grade(p, s, best, first).weight >= Grade(p, t, best, second).weight
  {
  }

  /** Eligible scores of one symbol, the first one among the best. */
  ghost predicate Ranked(p: Policy, es: seq<Score>, symbol: string) {
    && (forall i :: 0 <= i < |es| ==> es[i].symbol == symbol && Eligible(p, es[i]))
    && (forall i :: 0 < i < |es| ==> es[i].avgR <= es[0].avgR)
  }

  lemma {:induction false} WholeGroup(p: Policy, es: seq<Score>, symbol: string)
    requires forall i :: 0 <= i < |es| ==> es[i].symbol == symbol && Eligible(p, es[i])
    ensures Group(es, symbol) == es && Select(p, es, true) == es
  {
    if es != [] {
      WholeGroup(p, es[..|es| - 1], symbol);
      assert es == es[..|es| - 1] + [es[|es| - 1]];
    }
  }

  lemma RankedRow(p: Policy, es: seq<Score>, symbol: string, i: nat)
    requires Ranked(p, es, symbol) && i < |es|
    ensures Grade(p, es[i], es[0].avgR, i == 0) in Allocated(p, es)
  {
    WholeGroup(p, es, symbol);
    GradedScores(p, es, 0, |es|);
    assert FirstBest(es) == 0;
    var a, rows := Grade(p, es[i], es[0].avgR, i == 0), ForSymbol(p, es);
    assert a == Graded(p, es, 0, |es|)[i];
    assert a in rows;
    SortOrders(rows);
    assert a in multiset(Sort(rows));
    SymbolsDoNotCompete(p, es, symbol);
    RestrictMembers(Allocated(p, es), symbol);
  }

  lemma PairTradesSmaller(p: Policy, es: seq<Score>, i: nat, j: nat)
    requires Ranked(p, es, "X") && i < |es| && j < |es| && es[i].avgR > es[j].avgR && es[0].avgR >= p.floor
    ensures Outranks(p, es, Grade(p, es[i], es[0].avgR, i == 0), Grade(p, es[j], es[0].avgR, j == 0))
  {
    RankedRow(p, es, "X", i);
    RankedRow(p, es, "X", j);
  }

  function At(p: Policy, strategy: string, avgR: real): Score {
    Score(strategy, "X", avgR, p.minSamples, 0.5)
  }

  /** Out of order weights: some table where the better variant trades smaller. */
  lemma Inverted(p: Policy) returns (scores: seq<Score>, a: Allocation, b: Allocation)
    requires !WeightsOrdered(p)
    ensures Outranks(p, scores, a, b) && a.weight < b.weight
  {
    var wide := if p.tolerance > 0.0 then p.tolerance else 0.0;
    var best, probe := At(p, "a", p.floor), At(p, "c", p.floor - wide - 1.0);
    if p.champion < p.probe {
      scores := [best, probe];
      PairTradesSmaller(p, scores, 0, 1);
      a, b := Grade(p, best, p.floor, true), Grade(p, probe, p.floor, false);
    } else {
      var next := At(p, "b", p.floor - p.tolerance);
      scores := [best, next, probe];
      if p.challenger < p.probe {
        PairTradesSmaller(p, scores, 1, 2);
        a, b := Grade(p, next, p.floor, false), Grade(p, probe, p.floor, false);
      } else {
        PairTradesSmaller(p, scores, 0, 1);
        a, b := Grade(p, best, p.floor, true), Grade(p, next, p.floor, false);
      }
    }
  }

  /** Among a symbol's eligible variants a better one never trades smaller, on every list
      of scores, exactly when the policy's weights are in order. */
  lemma BetterNeverTradesSmallerIff(p: Policy)
    ensures (forall scores, a, b :: Outranks(p, scores, a, b) ==> a.weight >= b.weight) <==> WeightsOrdered(p)
  {
    if WeightsOrdered(p) {
      forall scores, a, b | Outranks(p, scores, a, b) ensures a.weight >= b.weight {
        BetterNeverTradesSmaller(p, scores, a, b);
      }
    } else {
      var scores, a, b := Inverted(p);
    }
  }

  // ------------------------------------------------------- disjoint groups

  lemma {:induction false} SortOfOrdered(xs: seq<Allocation>)
    requires Ordered(xs)
    ensures Sort(xs) == xs
  {
    if xs != [] {
      var front, last := xs[..|xs| - 1], xs[|xs| - 1];
      SortOfOrdered(front);
      if front != [] {
        assert front[|front| - 1] in front;
      }
      assert xs == front + [last];
    }
  }

  lemma LastOfRestrict(xs: seq<Allocation>)
    requires xs != []
    ensures var kept := Restrict(xs, xs[|xs| - 1].score.symbol);
            kept != [] && kept[|kept| - 1] == xs[|xs| - 1]
  {
  }

  lemma SymbolBelowLast(xs: seq<Allocation>, symbol: string)
    requires Ordered(xs) && Restrict(xs, symbol) != []
    ensures xs != [] && LexLe(symbol, xs[|xs| - 1].score.symbol)
  {
    RestrictMembers(xs, symbol);
    var a := Restrict(xs, symbol)[0];
    assert a in Restrict(xs, symbol);
    LexTotal(symbol, symbol);
    var front, last := xs[..|xs| - 1], xs[|xs| - 1];
    assert xs == front + [last];
    assert a in front ==> KeyLe(a, last);
  }

  ghost predicate SameRestrictions(a: seq<Allocation>, b: seq<Allocation>) {
    forall symbol :: Restrict(a, symbol) == Restrict(b, symbol)
  }

  lemma Cancel(a: seq<Allocation>, b: seq<Allocation>, x: Allocation)
    ensures a + [x] == b + [x] ==> a == b
  {
    assert (a + [x])[..|a|] == a && (b + [x])[..|b|] == b;
    assert a + [x] == b + [x] ==> |a| == |a + [x]| - 1 == |b|;
  }

  /** Two tables in key order that agree symbol by symbol are the same table. */
  lemma {:induction false} OrderedIsDetermined(a: seq<Allocation>, b: seq<Allocation>)
    requires Ordered(a) && Ordered(b) && SameRestrictions(a, b)
    ensures a == b
  {
    if a != [] {
      LastOfRestrict(a);
      SymbolBelowLast(b, a[|a| - 1].score.symbol);
    }
    if b != [] {
      LastOfRestrict(b);
      SymbolBelowLast(a, b[|b| - 1].score.symbol);
    }
    if a != [] {
      LexTotal(a[|a| - 1].score.symbol, b[|b| - 1].score.symbol);
      var x := a[|a| - 1];
      assert b[|b| - 1] == x;
      var front, rest := a[..|a| - 1], b[..|b| - 1];
      assert a == front + [x] && b == rest + [x];
      forall symbol ensures Restrict(front, symbol) == Restrict(rest, symbol) {
        assert Restrict(a, symbol) == Restrict(b, symbol);
        RestrictStep(front, x, symbol);
        RestrictStep(rest, x, symbol);
        Cancel(Restrict(front, symbol), Restrict(rest, symbol), x);
      }
      OrderedIsDetermined(front, rest);
    }
  }

  lemma {:induction false} GroupConcat(x: seq<Score>, y: seq<Score>, symbol: string)
    ensures Group(x + y, symbol) == Group(x, symbol) + Group(y, symbol)
  {
    if y == [] {
      assert x + y == x;
    } else {
      assert (x + y)[..|x + y| - 1] == x + y[..|y| - 1];
      GroupConcat(x, y[..|y| - 1], symbol);
    }
  }

  lemma RestrictAllocatedSorted(p: Policy, scores: seq<Score>, symbol: string)
    ensures Sort(Restrict(Allocated(p, scores), symbol)) == Restrict(Allocated(p, scores), symbol)
  {
    SymbolsDoNotCompete(p, scores, symbol);
    SortOrders(ForSymbol(p, Group(scores, symbol)));
    SortOfOrdered(Sort(ForSymbol(p, Group(scores, symbol))));
  }

  lemma OneSideEmpty(p: Policy, x: seq<Score>, y: seq<Score>, symbol: string)
    requires Group(x, symbol) == [] || Group(y, symbol) == []
    ensures Restrict(Allocated(p, x + y), symbol) == Restrict(Sort(Allocated(p, x) + Allocated(p, y)), symbol)
  {
    var ax, ay := Restrict(Allocated(p, x), symbol), Restrict(Allocated(p, y), symbol);
    SymbolsDoNotCompete(p, x + y, symbol);
    SymbolsDoNotCompete(p, x, symbol);
    SymbolsDoNotCompete(p, y, symbol);
    GroupConcat(x, y, symbol);
    RestrictSort(Allocated(p, x) + Allocated(p, y), symbol);
    RestrictConcat(Allocated(p, x), Allocated(p, y), symbol);
    RestrictAllocatedSorted(p, x, symbol);
    RestrictAllocatedSorted(p, y, symbol);
    EmptyGroup(p);
    if Group(x, symbol) == [] {
      assert [] + Group(y, symbol) == Group(y, symbol) && ax + ay == ay;
    } else {
      assert Group(x, symbol) + [] == Group(x, symbol) && ax + ay == ax;
    }
  }

  lemma EmptyGroup(p: Policy)
    ensures ForSymbol(p, []) == [] && Sort([]) == []
  {
  }

  /** Grading two groups of disjoint symbols together is grading each and sorting. */
  lemma DisjointGroupsAgree(p: Policy, x: seq<Score>, y: seq<Score>)
    requires forall s, t :: s in x && t in y ==> s.symbol != t.symbol
    ensures Allocated(p, x + y) == Sort(Allocated(p, x) + Allocated(p, y))
  {
    SortOrders(PerSymbol(p, x + y, Symbols(x + y)));
    SortOrders(Allocated(p, x) + Allocated(p, y));
    forall symbol
      ensures Restrict(Allocated(p, x + y), symbol) == Restrict(Sort(Allocated(p, x) + Allocated(p, y)), symbol)
    {
      GroupMembers(x, symbol);
      GroupMembers(y, symbol);
      NotBoth(x, y, symbol);
      OneSideEmpty(p, x, y, symbol);
    }
    OrderedIsDetermined(Allocated(p, x + y), Sort(Allocated(p, x) + Allocated(p, y)));
  }

  lemma NotBoth(x: seq<Score>, y: seq<Score>, symbol: string)
    requires forall s, t :: s in x && t in y ==> s.symbol != t.symbol
    ensures Group(x, symbol) == [] || Group(y, symbol) == []
  {
    GroupMembers(x, symbol);
    GroupMembers(y, symbol);
    forall s, t | s in Group(x, symbol) && t in Group(y, symbol) ensures s.symbol != t.symbol {
    }
    if Group(x, symbol) != [] {
      var s := Group(x, symbol)[0];
      assert s in Group(x, symbol);
      forall t | t in y ensures t.symbol != symbol {
      }
      NoneInGroup(y, symbol);
    }
  }

  lemma {:induction false} NoneInGroup(scores: seq<Score>, symbol: string)
    requires forall t :: t in scores ==> t.symbol != symbol
    ensures Group(scores, symbol) == []
  {
    if scores != [] {
      assert scores[|scores| - 1] in scores;
      NoneInGroup(scores[..|scores| - 1], symbol);
    }
  }
}
