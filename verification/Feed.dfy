/** The copy-trade feed: journal events served page by page against a client's bookmark. */
module Feed {
  import opened Common
  import opened Orders
  import opened Journal

  // ------------------------------------------------------------- the query

  /** The journal's two tables. Timestamps keep only their order. */
  datatype Tables = Tables(trades: seq<Row>, changes: seq<ModRow>)

  datatype Kind = Opened | Closed | Modified
  datatype Event = Event(kind: Kind, tradeId: int, ts: int, strategy: string)

  function OpenOf(r: Row): Event {
    Event(Opened, r.id, r.openedAt, r.strategy)
  }

  function Opens(rows: seq<Row>): seq<Event> {
    if rows == [] then [] else Opens(rows[..|rows| - 1]) + [OpenOf(rows[|rows| - 1])]
  }

  function CloseOf(r: Row): seq<Event> {
    if r.closedAt.Some? then [Event(Closed, r.id, r.closedAt.value, r.strategy)] else []
  }

  function Closes(rows: seq<Row>): seq<Event> {
    if rows == [] then [] else Closes(rows[..|rows| - 1]) + CloseOf(rows[|rows| - 1])
  }

  /** The join of one modification with the trades table, whose id is its primary key. */
  function ChangeOf(rows: seq<Row>, c: ModRow): seq<Event> {
    if rows == [] then []
    else
      var last := rows[|rows| - 1];
      if last.id == c.tradeId then [Event(Modified, c.tradeId, c.ts, last.strategy)]
      else ChangeOf(rows[..|rows| - 1], c)
  }

  function Changes(rows: seq<Row>, changes: seq<ModRow>): seq<Event> {
    if changes == [] then []
    else Changes(rows, changes[..|changes| - 1]) + ChangeOf(rows, changes[|changes| - 1])
  }

  function Events(t: Tables): seq<Event> {
    Opens(t.trades) + Closes(t.trades) + Changes(t.trades, t.changes)
  }

  /** What the delivery filter looks up: shared strategies, the operator's picks,
      and the trades the operator still holds. */
  datatype Prefs = Prefs(copyable: set<string>, picks: set<string>, masters: set<int>)

  /** The two selections made on events. `Passes(None)`: looking up the preferences
      failed and the page is served unfiltered. */
  datatype Keep = NewerThan(since: int) | Passes(prefs: Option<Prefs>)

  predicate Kept(keep: Keep, e: Event) {
    match keep
    case NewerThan(since) => e.ts > since
    case Passes(None) => true
    case Passes(Some(p)) =>
      (e.strategy in p.copyable && e.strategy in p.picks) || (e.kind != Opened && e.tradeId in p.masters)
  }

  function Filter(evs: seq<Event>, keep: Keep): seq<Event> {
    if evs == [] then []
    else
      var rest, last := Filter(evs[..|evs| - 1], keep), evs[|evs| - 1];
      if Kept(keep, last) then rest + [last] else rest
  }

  function Insert(s: seq<Event>, e: Event): seq<Event> {
    if s == [] || s[|s| - 1].ts <= e.ts then s + [e] else Insert(s[..|s| - 1], e) + [s[|s| - 1]]
  }

  /** `ORDER BY ts`. */
  function Sorted(evs: seq<Event>): seq<Event> {
    if evs == [] then [] else Insert(Sorted(evs[..|evs| - 1]), evs[|evs| - 1])
  }

  function Take(s: seq<Event>, n: nat): seq<Event> {
    if n < |s| then s[..n] else s
  }

  function EventsSince(t: Tables, since: int, limit: nat): seq<Event> {
    Take(Sorted(Filter(Events(t), NewerThan(since))), limit)
  }

  // ---------------------------------------------------------- the endpoint

  datatype Reply = Reply(bookmark: int, events: seq<Event>)

  function PageSize(limit: int): (r: nat)
    ensures 1 <= r <= 500 && (1 <= limit <= 500 ==> r == limit)
  {
    if limit <= 0 || limit > 500 then 100 else limit
  }

  const EPOCH := 0

  function Latest(evs: seq<Event>): int
    requires evs != []
  {
    var rest, last := evs[..|evs| - 1], evs[|evs| - 1];
    if rest == [] || Latest(rest) < last.ts then last.ts else Latest(rest)
  }

  /** The newest open or close; modifications are not looked at. */
  function ColdBookmark(t: Tables): int {
    var stamps := Opens(t.trades) + Closes(t.trades);
    if stamps == [] then EPOCH else Latest(stamps)
  }

  function Poll(t: Tables, since: Option<int>, limit: int, prefs: Option<Prefs>): Reply {
    if since.None? then Reply(ColdBookmark(t), [])
    else
      var events := Filter(EventsSince(t, since.value, PageSize(limit)), Passes(prefs));
      Reply(if events == [] then since.value else events[|events| - 1].ts, events)
  }

  /** One poll: the tables, the asked limit and the preferences at that moment. */
  datatype Call = Call(tables: Tables, limit: int, prefs: Option<Prefs>)

  /** A client that sends back each bookmark it was given. */
  function Session(since: int, calls: seq<Call>): Reply {
    if calls == [] then Reply(since, [])
    else
      var before, c := Session(since, calls[..|calls| - 1]), calls[|calls| - 1];
      var now := Poll(c.tables, Some(before.bookmark), c.limit, c.prefs);
      Reply(now.bookmark, before.events + now.events)
  }

  // ------------------------------------------------- sorting and filtering

  ghost predicate Ordered(evs: seq<Event>) {
    forall i, j :: 0 <= i < j < |evs| ==> evs[i].ts <= evs[j].ts
  }

  ghost predicate AllAfter(evs: seq<Event>, since: int) {
    forall e :: e in evs ==> e.ts > since
  }

  ghost predicate AllUpTo(evs: seq<Event>, limit: int) {
    forall e :: e in evs ==> e.ts <= limit
  }

  ghost predicate Increasing(evs: seq<Event>) {
    forall i, j :: 0 <= i < j < |evs| ==> evs[i].ts < evs[j].ts
  }

  lemma AppendOrdered(s: seq<Event>, e: Event)
    requires Ordered(s) && (AllUpTo(s, e.ts) || s == [] || s[|s| - 1].ts <= e.ts)
    ensures Ordered(s + [e])
  {
  }

  lemma {:induction false} InsertOrders(s: seq<Event>, e: Event)
    requires Ordered(s)
    ensures Ordered(Insert(s, e)) && multiset(Insert(s, e)) == multiset(s) + multiset{e}
    ensures forall x :: x in Insert(s, e) <==> x in s || x == e
  {
    if s == [] || s[|s| - 1].ts <= e.ts {
      AppendOrdered(s, e);
    } else {
      var front, last := s[..|s| - 1], s[|s| - 1];
      assert s == front + [last];
      InsertOrders(front, e);
      assert AllUpTo(front, last.ts);
      assert AllUpTo(Insert(front, e), last.ts);
      AppendOrdered(Insert(front, e), last);
    }
  }

  /** The query's order is a permutation of its rows, oldest first. */
  lemma {:induction false} SortedOrders(evs: seq<Event>)
    ensures Ordered(Sorted(evs)) && multiset(Sorted(evs)) == multiset(evs)
    ensures forall x :: x in Sorted(evs) <==> x in evs
  {
    if evs != [] {
      var front, last := evs[..|evs| - 1], evs[|evs| - 1];
      assert evs == front + [last];
      SortedOrders(front);
      InsertOrders(Sorted(front), last);
    }
  }

  lemma {:induction false} FilterConcat(a: seq<Event>, b: seq<Event>, keep: Keep)
    ensures Filter(a + b, keep) == Filter(a, keep) + Filter(b, keep)
  {
    if b == [] {
      assert a + b == a;
    } else {
      var front, last := b[..|b| - 1], b[|b| - 1];
      assert (a + b)[..|a + b| - 1] == a + front;
      FilterConcat(a, front, keep);
    }
  }

  lemma {:induction false} FilterKeepsOrder(evs: seq<Event>, keep: Keep)
    requires Ordered(evs)
    ensures Ordered(Filter(evs, keep)) && multiset(Filter(evs, keep)) <= multiset(evs)
  {
    if evs != [] {
      var front := evs[..|evs| - 1];
      assert evs == front + [evs[|evs| - 1]];
      FilterKeepsOrder(front, keep);
      FilterMembers(front, keep);
      assert AllUpTo(Filter(front, keep), evs[|evs| - 1].ts);
      AppendOrdered(Filter(front, keep), evs[|evs| - 1]);
    }
  }

  lemma {:induction false} FilterMembers(evs: seq<Event>, keep: Keep)
    ensures forall e :: e in Filter(evs, keep) <==> e in evs && Kept(keep, e)
  {
    if evs != [] {
      assert evs == evs[..|evs| - 1] + [evs[|evs| - 1]];
      FilterMembers(evs[..|evs| - 1], keep);
    }
  }

  lemma {:induction false} FilterNone(evs: seq<Event>, keep: Keep)
    requires forall e :: e in evs ==> !Kept(keep, e)
    ensures Filter(evs, keep) == []
  {
    if evs != [] {
      assert evs[|evs| - 1] in evs;
      FilterNone(evs[..|evs| - 1], keep);
    }
  }

  lemma {:induction false} NewerOfInsert(s: seq<Event>, e: Event, since: int)
    requires Ordered(s)
    ensures Filter(Insert(s, e), NewerThan(since)) ==
            if e.ts > since then Insert(Filter(s, NewerThan(since)), e) else Filter(s, NewerThan(since))
  {
    var keep := NewerThan(since);
    if s == [] {
    } else if s[|s| - 1].ts <= e.ts {
      FilterConcat(s, [e], keep);
      assert Filter([e], keep) == if e.ts > since then [e] else [];
      FilterMembers(s, keep);
      assert forall x :: x in Filter(s, keep) ==> x.ts <= s[|s| - 1].ts;
    } else {
      var front, last := s[..|s| - 1], s[|s| - 1];
      NewerOfInsert(front, e, since);
      assert (Insert(front, e) + [last])[..|Insert(front, e)|] == Insert(front, e);
      if e.ts <= since && last.ts > since {
      } else if last.ts > since {
        assert (Filter(front, keep) + [last])[..|Filter(front, keep)|] == Filter(front, keep);
      }
    }
  }

  /** Selecting the newer rows and then sorting reads the chronicle from the bookmark on. */
  lemma {:induction false} NewerOfSorted(evs: seq<Event>, since: int)
    ensures Sorted(Filter(evs, NewerThan(since))) == Filter(Sorted(evs), NewerThan(since))
  {
    if evs != [] {
      var front, last := evs[..|evs| - 1], evs[|evs| - 1];
      NewerOfSorted(front, since);
      SortedOrders(front);
      NewerOfInsert(Sorted(front), last, since);
      var kept := Filter(front, NewerThan(since));
      assert (kept + [last])[..|kept|] == kept;
    }
  }

  // --------------------------------------------- any filter, any journal

  lemma SliceIsFresh(t: Tables, since: int, size: nat)
    ensures var page := EventsSince(t, since, size);
            Ordered(page) && AllAfter(page, since) && multiset(page) <= multiset(Events(t))
  {
    var newer := Filter(Events(t), NewerThan(since));
    SortedOrders(newer);
    FilterMembers(Events(t), NewerThan(since));
    FilterShrinks(Events(t), NewerThan(since));
    TakeIsPart(Sorted(newer), size);
  }

  lemma TakeIsPart(s: seq<Event>, n: nat)
    ensures multiset(Take(s, n)) <= multiset(s) && forall e :: e in Take(s, n) ==> e in s
    ensures Ordered(s) ==> Ordered(Take(s, n))
  {
    assert s == Take(s, n) + s[|Take(s, n)|..];
  }

  lemma PageIsFresh(t: Tables, since: int, limit: int, prefs: Option<Prefs>)
    ensures var r := Poll(t, Some(since), limit, prefs);
            && Ordered(r.events) && AllAfter(r.events, since) && AllUpTo(r.events, r.bookmark)
            && r.bookmark >= since && multiset(r.events) <= multiset(Events(t))
  {
    var page := EventsSince(t, since, PageSize(limit));
    SliceIsFresh(t, since, PageSize(limit));
    FilterKeepsOrder(page, Passes(prefs));
    FilterMembers(page, Passes(prefs));
    if Filter(page, Passes(prefs)) != [] {
      LastIsNewest(Filter(page, Passes(prefs)), since);
    }
  }

  lemma LastIsNewest(evs: seq<Event>, since: int)
    requires Ordered(evs) && AllAfter(evs, since) && evs != []
    ensures AllUpTo(evs, evs[|evs| - 1].ts) && evs[|evs| - 1].ts > since
  {
    assert evs[|evs| - 1] in evs;
  }

  lemma {:induction false} FilterShrinks(evs: seq<Event>, keep: Keep)
    ensures multiset(Filter(evs, keep)) <= multiset(evs)
  {
    if evs != [] {
      assert evs == evs[..|evs| - 1] + [evs[|evs| - 1]];
      FilterShrinks(evs[..|evs| - 1], keep);
    }
  }

  lemma {:induction false} SessionIsFresh(since: int, calls: seq<Call>)
    ensures var r := Session(since, calls);
            Ordered(r.events) && AllAfter(r.events, since) && AllUpTo(r.events, r.bookmark) && r.bookmark >= since
  {
    if calls != [] {
      var n := |calls| - 1;
      SessionIsFresh(since, calls[..n]);
      PageIsFresh(calls[n].tables, Session(since, calls[..n]).bookmark, calls[n].limit, calls[n].prefs);
    }
  }

  lemma {:induction false} SessionSplits(since: int, a: seq<Call>, b: seq<Call>)
    ensures var s1 := Session(since, a);
            var s2 := Session(s1.bookmark, b);
            Session(since, a + b) == Reply(s2.bookmark, s1.events + s2.events)
  {
    if b == [] {
      assert a + b == a;
    } else {
      var front, c := b[..|b| - 1], b[|b| - 1];
      assert (a + b)[..|a + b| - 1] == a + front;
      SessionSplits(since, a, front);
      var s1 := Session(since, a);
      var mid := Session(s1.bookmark, front);
      var now := Poll(c.tables, Some(mid.bookmark), c.limit, c.prefs);
      assert s1.events + mid.events + now.events == s1.events + (mid.events + now.events);
    }
  }

  /** Whatever the filters, limits and edits of the journal between polls: events come
      oldest first, and all of a later poll's events are strictly newer than all earlier ones. */
  lemma OnlyForward(since: int, a: seq<Call>, b: seq<Call>)
    ensures var s1 := Session(since, a);
            var s2 := Session(s1.bookmark, b);
            && Session(since, a + b) == Reply(s2.bookmark, s1.events + s2.events)
            && Ordered(s1.events + s2.events)
            && (forall d, e :: d in s1.events && e in s2.events ==> d.ts < e.ts)
  {
    SessionSplits(since, a, b);
    SessionIsFresh(since, a);
    SessionIsFresh(Session(since, a).bookmark, b);
  }

  // ------------------------------------------------- a journal that grows

  function Chronicle(t: Tables): seq<Event> {
    Sorted(Events(t))
  }

  /** How many of the chronicle's events are no newer than `b`. */
  function Cut(log: seq<Event>, b: int): (m: nat)
    ensures m <= |log|
  {
    if log == [] then 0
    else if log[|log| - 1].ts > b then Cut(log[..|log| - 1], b) else |log|
  }

  ghost predicate SplitsAt(log: seq<Event>, m: int, b: int) {
    && 0 <= m <= |log|
    && (forall i :: 0 <= i < m ==> log[i].ts <= b)
    && (forall i :: m <= i < |log| ==> log[i].ts > b)
  }

  lemma {:induction false} CutSplits(log: seq<Event>, b: int)
    requires Ordered(log)
    ensures SplitsAt(log, Cut(log, b), b)
  {
    if log != [] && log[|log| - 1].ts > b {
      CutSplits(log[..|log| - 1], b);
    }
  }

  lemma CutIs(log: seq<Event>, m: int, b: int)
    requires Ordered(log) && SplitsAt(log, m, b)
    ensures Cut(log, b) == m
  {
    CutSplits(log, b);
    var c := Cut(log, b);
    assert c < |log| ==> log[c].ts > b;
    assert m < |log| ==> log[m].ts > b;
  }

  lemma {:induction false} NewerIsSuffix(log: seq<Event>, m: int, b: int)
    requires SplitsAt(log, m, b)
    ensures Filter(log, NewerThan(b)) == log[m..]
  {
    if log != [] {
      var n := |log| - 1;
      if m == |log| {
        NewerIsSuffix(log[..n], n, b);
      } else {
        NewerIsSuffix(log[..n], m, b);
        assert log[..n][m..] + [log[n]] == log[m..];
      }
    }
  }

  lemma {:induction false} LastKept(evs: seq<Event>, keep: Keep) returns (j: nat)
    requires Filter(evs, keep) != []
    ensures 0 < j <= |evs| && Kept(keep, evs[j - 1]) && Filter(evs[..j], keep) == Filter(evs, keep)
    ensures evs[j - 1] == Filter(evs, keep)[|Filter(evs, keep)| - 1]
    ensures forall i :: j <= i < |evs| ==> !Kept(keep, evs[i])
  {
    var n := |evs| - 1;
    if Kept(keep, evs[n]) {
      j := n + 1;
      assert evs[..j] == evs;
    } else {
      j := LastKept(evs[..n], keep);
      assert evs[..n][..j] == evs[..j];
      assert forall i :: j <= i < n ==> evs[i] == evs[..n][i];
    }
  }

  function PageEnd(log: seq<Event>, m: nat, size: nat): (k: nat)
    requires m <= |log|
    ensures m <= k <= |log|
  {
    if m + size < |log| then m + size else |log|
  }

  lemma PageIsSlice(t: Tables, b: int, size: nat)
    ensures var log := Chronicle(t);
            EventsSince(t, b, size) == log[Cut(log, b)..PageEnd(log, Cut(log, b), size)]
  {
    var log := Chronicle(t);
    SortedOrders(Events(t));
    NewerOfSorted(Events(t), b);
    CutSplits(log, b);
    NewerIsSuffix(log, Cut(log, b), b);
    TakeOfSuffix(log, Cut(log, b), size);
  }

  lemma TakeOfSuffix(log: seq<Event>, m: nat, size: nat)
    requires m <= |log|
    ensures Take(log[m..], size) == log[m..PageEnd(log, m, size)]
  {
  }

  /** The client moves from `m` to `to`, just past the last passing event of the page that
      ends at `k`, or nowhere when the whole page is filtered out. */
  ghost predicate Moves(log: seq<Event>, m: int, to: int, k: int, keep: Keep) {
    && 0 <= m <= to <= k <= |log|
    && (to > m ==> Kept(keep, log[to - 1]))
    && (forall i :: to <= i < k ==> !Kept(keep, log[i]))
  }

  /** What the poll then answers. */
  ghost predicate Answers(r: Reply, b: int, log: seq<Event>, m: int, to: int, keep: Keep)
    requires 0 <= m <= to <= |log|
  {
    && r.events == Filter(log[m..to], keep)
    && (to == m ==> r == Reply(b, []))
    && (to > m ==> r.events != [] && r.bookmark == log[to - 1].ts)
  }

  /** Just past the last passing event of `log[m..k]`; `m` when none passes. */
  function Reached(log: seq<Event>, m: nat, k: nat, keep: Keep): (to: nat)
    requires m <= k <= |log|
    ensures m <= to <= k
  {
    if k == m || Kept(keep, log[k - 1]) then k else Reached(log, m, k - 1, keep)
  }

  lemma {:induction false} ReachedMoves(log: seq<Event>, m: nat, k: nat, keep: Keep)
    requires m <= k <= |log|
    ensures Moves(log, m, Reached(log, m, k, keep), k, keep)
  {
    if k > m && !Kept(keep, log[k - 1]) {
      ReachedMoves(log, m, k - 1, keep);
    }
  }

  lemma MovesOnce(log: seq<Event>, m: nat, to: nat, to': nat, k: nat, keep: Keep)
    requires Moves(log, m, to, k, keep) && Moves(log, m, to', k, keep)
    ensures to == to'
  {
  }

  lemma PageMoves(log: seq<Event>, m: nat, k: nat, keep: Keep)
    requires m <= k <= |log|
    ensures var to := Reached(log, m, k, keep);
            Moves(log, m, to, k, keep) && PageDelivers(log, m, to, k, keep)
  {
    var to := PageMovesTo(log, m, k, keep);
    ReachedMoves(log, m, k, keep);
    MovesOnce(log, m, to, Reached(log, m, k, keep), k, keep);
  }

  ghost predicate PageDelivers(log: seq<Event>, m: int, to: int, k: int, keep: Keep)
    requires 0 <= m <= to <= k <= |log|
  {
    var events := Filter(log[m..k], keep);
    && Filter(log[m..to], keep) == events
    && if to == m then events == [] else events != [] && events[|events| - 1] == log[to - 1]
  }

  lemma PrefixOfPage(log: seq<Event>, m: nat, k: nat, j: nat)
    requires m <= k <= |log| && j <= k - m
    ensures log[m..k][..j] == log[m..m + j]
  {
  }

  lemma PageMovesTo(log: seq<Event>, m: nat, k: nat, keep: Keep) returns (to: nat)
    requires m <= k <= |log|
    ensures Moves(log, m, to, k, keep) && PageDelivers(log, m, to, k, keep)
  {
    var page := log[m..k];
    if Filter(page, keep) == [] {
      to := m;
      FilterMembers(page, keep);
      forall i | m <= i < k ensures !Kept(keep, log[i]) {
        assert page[i - m] in page;
      }
    } else {
      var j := LastKept(page, keep);
      to := m + j;
      PrefixOfPage(log, m, k, j);
      assert forall i :: to <= i < k ==> log[i] == page[i - m];
    }
  }

  lemma MovedCut(log: seq<Event>, to: nat)
    requires Increasing(log) && 0 < to <= |log|
    ensures Cut(log, log[to - 1].ts) == to
  {
    CutIs(log, to, log[to - 1].ts);
  }

  lemma PollAdvances(t: Tables, b: int, limit: int, prefs: Option<Prefs>) returns (to: nat)
    requires Increasing(Chronicle(t))
    ensures var log, r, m := Chronicle(t), Poll(t, Some(b), limit, prefs), Cut(Chronicle(t), b);
            && Moves(log, m, to, PageEnd(log, m, PageSize(limit)), Passes(prefs))
            && Answers(r, b, log, m, to, Passes(prefs)) && Cut(log, r.bookmark) == to
  {
    var log, m := Chronicle(t), Cut(Chronicle(t), b);
    PageIsSlice(t, b, PageSize(limit));
    to := Reached(log, m, PageEnd(log, m, PageSize(limit)), Passes(prefs));
    PageMoves(log, m, PageEnd(log, m, PageSize(limit)), Passes(prefs));
    if to > m {
      MovedCut(log, to);
    }
  }

  /** Every poll filters alike, and the chronicle only grows at its newer end. */
  ghost predicate Growing(calls: seq<Call>, prefs: Option<Prefs>) {
    calls == [] ||
    var n := |calls| - 1;
    && Growing(calls[..n], prefs)
    && calls[n].prefs == prefs && Increasing(Chronicle(calls[n].tables))
    && (n > 0 ==> Chronicle(calls[n - 1].tables) <= Chronicle(calls[n].tables))
  }

  ghost predicate DeliveredUpTo(since: int, calls: seq<Call>, log: seq<Event>, prefs: Option<Prefs>) {
    var r := Session(since, calls);
    var a, m := Cut(log, since), Cut(log, r.bookmark);
    a <= m && r.events == Filter(log[a..m], Passes(prefs))
  }

  lemma CutStable(log: seq<Event>, more: seq<Event>, b: int)
    requires Increasing(more) && log <= more && log != [] && b <= log[|log| - 1].ts
    ensures Cut(more, b) == Cut(log, b)
  {
    assert forall i :: 0 <= i < |log| ==> log[i] == more[i];
    CutSplits(log, b);
    CutIs(more, Cut(log, b), b);
  }

  lemma SessionStep(since: int, before: seq<Call>, c: Call)
    ensures var s := Session(since, before);
            var now := Poll(c.tables, Some(s.bookmark), c.limit, c.prefs);
            Session(since, before + [c]) == Reply(now.bookmark, s.events + now.events)
  {
    assert (before + [c])[..|before|] == before;
  }

  lemma FilterJoins(log: seq<Event>, a: int, m: int, to: int, keep: Keep)
    requires 0 <= a <= m <= to <= |log|
    ensures Filter(log[a..to], keep) == Filter(log[a..m], keep) + Filter(log[m..to], keep)
  {
    assert log[a..to] == log[a..m] + log[m..to];
    FilterConcat(log[a..m], log[m..to], keep);
  }

  lemma OwedSplits(log: seq<Event>, since: int, m: nat, keep: Keep)
    requires Ordered(log) && Cut(log, since) <= m <= |log|
    ensures Filter(Filter(log, NewerThan(since)), keep) ==
            Filter(log[Cut(log, since)..m], keep) + Filter(log[m..], keep)
  {
    CutSplits(log, since);
    NewerIsSuffix(log, Cut(log, since), since);
    FilterJoins(log, Cut(log, since), m, |log|, keep);
    assert log[m..|log|] == log[m..];
    assert log[Cut(log, since)..|log|] == log[Cut(log, since)..];
  }

  /** What the client has received is exactly the passing events of the chronicle up to
      its bookmark: nothing skipped, nothing out of order. */
  lemma {:induction false} DeliveredIsPrefix(since: int, calls: seq<Call>, prefs: Option<Prefs>)
    requires Growing(calls, prefs) && calls != []
    ensures var log := Chronicle(calls[|calls| - 1].tables);
            && DeliveredUpTo(since, calls, log, prefs)
            && Session(since, calls).events <= Filter(Filter(log, NewerThan(since)), Passes(prefs))
  {
    var n := |calls| - 1;
    var before, c := calls[..n], calls[n];
    var log := Chronicle(c.tables);
    assert calls == before + [c];
    if n == 0 {
      NothingDelivered(since, log, prefs);
    } else {
      DeliveredIsPrefix(since, before, prefs);
      StillDelivered(since, before, Chronicle(before[n - 1].tables), log, prefs);
    }
    PollExtends(since, before, c, prefs);
    OwedSplits(log, since, Cut(log, Session(since, calls).bookmark), Passes(prefs));
  }

  lemma NothingDelivered(since: int, log: seq<Event>, prefs: Option<Prefs>)
    ensures DeliveredUpTo(since, [], log, prefs)
  {
    assert log[Cut(log, since)..Cut(log, since)] == [];
  }

  ghost predicate Seen(since: int, r: Reply, log: seq<Event>) {
    r == Reply(since, []) || (since < r.bookmark && log != [] && r.bookmark <= log[|log| - 1].ts)
  }

  lemma PollIsSeen(t: Tables, b: int, limit: int, prefs: Option<Prefs>)
    requires Increasing(Chronicle(t))
    ensures Seen(b, Poll(t, Some(b), limit, prefs), Chronicle(t))
  {
    var to := PollAdvances(t, b, limit, prefs);
    CutSplits(Chronicle(t), b);
  }

  lemma SeenJoins(since: int, s: Reply, log: seq<Event>, now: Reply, more: seq<Event>)
    requires log <= more && Increasing(more)
    requires Seen(since, s, log) && Seen(s.bookmark, now, more)
    ensures Seen(since, Reply(now.bookmark, s.events + now.events), more)
  {
    assert [] + now.events == now.events && s.events + [] == s.events;
    if log != [] {
      assert log[|log| - 1] == more[|log| - 1];
    }
  }

  /** A bookmark other than the client's first is the stamp of an event of the chronicle. */
  lemma {:induction false} BookmarkIsSeen(since: int, calls: seq<Call>, prefs: Option<Prefs>)
    requires Growing(calls, prefs) && calls != []
    ensures Seen(since, Session(since, calls), Chronicle(calls[|calls| - 1].tables))
  {
    var n := |calls| - 1;
    var before, c := calls[..n], calls[n];
    assert calls == before + [c];
    SessionStep(since, before, c);
    PollIsSeen(c.tables, Session(since, before).bookmark, c.limit, prefs);
    var now := Poll(c.tables, Some(Session(since, before).bookmark), c.limit, prefs);
    if n > 0 {
      BookmarkIsSeen(since, before, prefs);
      SeenJoins(since, Session(since, before), Chronicle(before[n - 1].tables), now, Chronicle(c.tables));
    } else {
      SeenJoins(since, Reply(since, []), [], now, Chronicle(c.tables));
    }
  }

  lemma StillDelivered(since: int, calls: seq<Call>, log: seq<Event>, more: seq<Event>, prefs: Option<Prefs>)
    requires Growing(calls, prefs) && calls != [] && log == Chronicle(calls[|calls| - 1].tables)
    requires Increasing(more) && log <= more && DeliveredUpTo(since, calls, log, prefs)
    ensures DeliveredUpTo(since, calls, more, prefs)
  {
    BookmarkIsSeen(since, calls, prefs);
    var r := Session(since, calls);
    if r == Reply(since, []) {
      assert more[Cut(more, since)..Cut(more, since)] == [];
    } else {
      CutStable(log, more, since);
      CutStable(log, more, r.bookmark);
      PrefixSlice(log, more, Cut(log, since), Cut(log, r.bookmark));
    }
  }

  lemma PrefixSlice(log: seq<Event>, more: seq<Event>, a: nat, m: nat)
    requires log <= more && a <= m <= |log|
    ensures log[a..m] == more[a..m]
  {
    assert log == more[..|log|];
  }

  lemma PollExtends(since: int, before: seq<Call>, c: Call, prefs: Option<Prefs>)
    requires Increasing(Chronicle(c.tables)) && c.prefs == prefs
    requires DeliveredUpTo(since, before, Chronicle(c.tables), prefs)
    ensures DeliveredUpTo(since, before + [c], Chronicle(c.tables), prefs)
  {
    var log, s := Chronicle(c.tables), Session(since, before);
    SessionStep(since, before, c);
    var to := PollAdvances(c.tables, s.bookmark, c.limit, c.prefs);
    FilterJoins(log, Cut(log, since), Cut(log, s.bookmark), to, Passes(prefs));
  }

  // ---------------------------------------------------- draining the feed

  function Repeat(c: Call, n: nat): (r: seq<Call>)
    ensures |r| == n && forall i :: 0 <= i < n ==> r[i] == c
  {
    if n == 0 then [] else Repeat(c, n - 1) + [c]
  }

  function Owed(t: Tables, since: int, prefs: Option<Prefs>): seq<Event> {
    Filter(Filter(Chronicle(t), NewerThan(since)), Passes(prefs))
  }

  ghost predicate DeadPage(evs: seq<Event>, i: int, size: int, keep: Keep) {
    0 <= i && forall k :: i <= k < i + size && k < |evs| ==> !Kept(keep, evs[k])
  }

  /** Some passing event is preceded by a whole page of filtered ones. */
  ghost predicate Blocked(evs: seq<Event>, size: int, keep: Keep) {
    exists i, j :: 0 <= i <= i + size <= j < |evs| && DeadPage(evs, i, size, keep) && Kept(keep, evs[j])
  }

  lemma {:induction false} RepeatGrows(c: Call, n: nat)
    requires Increasing(Chronicle(c.tables))
    ensures Growing(Repeat(c, n), c.prefs)
  {
    if n > 0 {
      RepeatGrows(c, n - 1);
      assert Repeat(c, n)[..n - 1] == Repeat(c, n - 1);
    }
  }

  /** Where the client stands after `n` polls of an unchanging journal. */
  function Position(since: int, c: Call, n: nat): nat {
    Cut(Chronicle(c.tables), Session(since, Repeat(c, n)).bookmark)
  }

  lemma StandsAt(since: int, c: Call, n: nat)
    requires Increasing(Chronicle(c.tables))
    ensures var log, a := Chronicle(c.tables), Cut(Chronicle(c.tables), since);
            && a <= Position(since, c, n)
            && Session(since, Repeat(c, n)).events == Filter(log[a..Position(since, c, n)], Passes(c.prefs))
            && Owed(c.tables, since, c.prefs) ==
               Session(since, Repeat(c, n)).events + Filter(log[Position(since, c, n)..], Passes(c.prefs))
  {
    var log := Chronicle(c.tables);
    if n == 0 {
      NothingDelivered(since, log, c.prefs);
    } else {
      RepeatGrows(c, n);
      DeliveredIsPrefix(since, Repeat(c, n), c.prefs);
    }
    OwedSplits(log, since, Position(since, c, n), Passes(c.prefs));
  }

  lemma {:induction false} NeverPasses(since: int, c: Call, n: nat, i: nat)
    requires Increasing(Chronicle(c.tables))
    requires Cut(Chronicle(c.tables), since) <= i <= i + PageSize(c.limit) <= |Chronicle(c.tables)|
    requires DeadPage(Chronicle(c.tables), i, PageSize(c.limit), Passes(c.prefs))
    ensures Position(since, c, n) <= i
  {
    if n > 0 {
      NeverPasses(since, c, n - 1, i);
      assert Repeat(c, n)[..n - 1] == Repeat(c, n - 1);
      var to := PollAdvances(c.tables, Session(since, Repeat(c, n - 1)).bookmark, c.limit, c.prefs);
    }
  }

  lemma {:induction false} EachPollDelivers(since: int, c: Call, n: nat)
    requires Increasing(Chronicle(c.tables))
    requires !Blocked(Chronicle(c.tables)[Cut(Chronicle(c.tables), since)..], PageSize(c.limit), Passes(c.prefs))
    ensures || |Session(since, Repeat(c, n)).events| >= n
            || Session(since, Repeat(c, n)).events == Owed(c.tables, since, c.prefs)
  {
    if n > 0 {
      EachPollDelivers(since, c, n - 1);
      assert Repeat(c, n)[..n - 1] == Repeat(c, n - 1);
      var s := Session(since, Repeat(c, n - 1));
      StandsAt(since, c, n - 1);
      StandsAt(since, c, n);
      var to := PollAdvances(c.tables, s.bookmark, c.limit, c.prefs);
      var log, m := Chronicle(c.tables), Position(since, c, n - 1);
      if to == m && Filter(log[m..], Passes(c.prefs)) != [] {
        StuckIsBlocked(log, Cut(log, since), m, PageSize(c.limit), Passes(c.prefs));
      }
    }
  }

  lemma StuckIsBlocked(log: seq<Event>, a: nat, m: nat, size: nat, keep: Keep)
    requires a <= m <= |log| && Filter(log[m..], keep) != []
    requires forall i :: m <= i < PageEnd(log, m, size) ==> !Kept(keep, log[i])
    ensures Blocked(log[a..], size, keep)
  {
    var x := Filter(log[m..], keep)[0];
    FilterMembers(log[m..], keep);
    assert x in log[m..] && Kept(keep, x);
    var j :| 0 <= j < |log[m..]| && log[m..][j] == x;
    var evs := log[a..];
    assert log[m + j] == x && evs[m - a + j] == x;
    assert forall k :: m - a <= k < |evs| ==> evs[k] == log[a + k];
    assert DeadPage(evs, m - a, size, keep);
  }

  /** Polling an unchanging journal drains it, in at most one poll per owed event, exactly
      when no full page of filtered events stands before a passing one. */
  lemma DrainsIff(since: int, c: Call)
    requires Increasing(Chronicle(c.tables))
    ensures var log := Chronicle(c.tables);
            var owed := Owed(c.tables, since, c.prefs);
            && ((exists n: nat :: Session(since, Repeat(c, n)).events == owed) <==>
                !Blocked(log[Cut(log, since)..], PageSize(c.limit), Passes(c.prefs)))
            && (!Blocked(log[Cut(log, since)..], PageSize(c.limit), Passes(c.prefs)) ==>
                Session(since, Repeat(c, |owed|)).events == owed)
  {
    var log, owed, keep, size := Chronicle(c.tables), Owed(c.tables, since, c.prefs), Passes(c.prefs),
        PageSize(c.limit);
    var a := Cut(log, since);
    if Blocked(log[a..], size, keep) {
      forall n: nat ensures Session(since, Repeat(c, n)).events != owed {
        BlockedForever(since, c, n);
      }
    } else {
      EachPollDelivers(since, c, |owed|);
      StandsAt(since, c, |owed|);
    }
  }

  lemma StillOwed(log: seq<Event>, m: nat, j: nat, keep: Keep)
    requires m <= j < |log| && Kept(keep, log[j])
    ensures Filter(log[m..], keep) != []
  {
    FilterMembers(log[m..], keep);
    assert log[m..][j - m] == log[j] && log[j] in log[m..];
  }

  lemma DeadInLog(log: seq<Event>, a: nat, i: int, size: int, keep: Keep)
    requires a <= |log| && DeadPage(log[a..], i, size, keep)
    ensures DeadPage(log, a + i, size, keep)
  {
    forall k | a + i <= k < a + i + size && k < |log| ensures !Kept(keep, log[k]) {
      assert log[k] == log[a..][k - a];
    }
  }

  lemma BlockedAt(log: seq<Event>, a: nat, size: int, keep: Keep) returns (i: nat, j: nat)
    requires a <= |log| && Blocked(log[a..], size, keep)
    ensures a <= i <= i + size <= j < |log| && DeadPage(log, i, size, keep) && Kept(keep, log[j])
  {
    var evs := log[a..];
    var k, l :| 0 <= k <= k + size <= l < |evs| && DeadPage(evs, k, size, keep) && Kept(keep, evs[l]);
    DeadInLog(log, a, k, size, keep);
    i, j := a + k, a + l;
  }

  lemma BlockedForever(since: int, c: Call, n: nat)
    requires Increasing(Chronicle(c.tables))
    requires Blocked(Chronicle(c.tables)[Cut(Chronicle(c.tables), since)..], PageSize(c.limit), Passes(c.prefs))
    ensures Session(since, Repeat(c, n)).events != Owed(c.tables, since, c.prefs)
  {
    var log := Chronicle(c.tables);
    var i, j := BlockedAt(log, Cut(log, since), PageSize(c.limit), Passes(c.prefs));
    NeverPasses(since, c, n, i);
    StandsAt(since, c, n);
    StillOwed(log, Position(since, c, n), j, Passes(c.prefs));
  }

  // ------------------------------------------- what the feed can lose

  lemma NeverBlocked(evs: seq<Event>, size: int)
    requires size >= 1
    ensures !Blocked(evs, size, Passes(None))
  {
    forall i | 0 <= i < |evs| ensures !DeadPage(evs, i, size, Passes(None)) {
      assert Kept(Passes(None), evs[i]);
    }
  }

  /** An event reaches an unfiltered client exactly when it is stamped after the
      client's bookmark; one written late with an older stamp never arrives. */
  lemma ReachesIff(e: Event, since: int, c: Call)
    requires Increasing(Chronicle(c.tables)) && c.prefs.None? && e in Events(c.tables)
    ensures (exists n: nat :: e in Session(since, Repeat(c, n)).events) <==> e.ts > since
  {
    if e.ts > since {
      DrainsIff(since, c);
      SortedOrders(Events(c.tables));
      NeverBlocked(Chronicle(c.tables)[Cut(Chronicle(c.tables), since)..], PageSize(c.limit));
      FilterMembers(Chronicle(c.tables), NewerThan(since));
      FilterMembers(Filter(Chronicle(c.tables), NewerThan(since)), Passes(None));
      assert e in Owed(c.tables, since, c.prefs);
      var n := |Owed(c.tables, since, c.prefs)|;
      assert e in Session(since, Repeat(c, n)).events;
    } else {
      forall n: nat ensures e !in Session(since, Repeat(c, n)).events {
        SessionIsFresh(since, Repeat(c, n));
      }
    }
  }

  lemma {:induction false} NoPrefsKeepAll(evs: seq<Event>)
    ensures Filter(evs, Passes(None)) == evs
  {
    if evs != [] {
      NoPrefsKeepAll(evs[..|evs| - 1]);
      assert evs == evs[..|evs| - 1] + [evs[|evs| - 1]];
    }
  }

  /** When more than a page is newer than the bookmark, the rest stays newer than the
      reply's bookmark exactly when the cut does not fall between equal timestamps. */
  lemma CutIsSafeIff(t: Tables, since: int, limit: int)
    requires |Sorted(Filter(Events(t), NewerThan(since)))| > PageSize(limit)
    ensures var newer, n := Sorted(Filter(Events(t), NewerThan(since))), PageSize(limit);
            AllAfter(newer[n..], Poll(t, Some(since), limit, None).bookmark) <==> newer[n].ts > newer[n - 1].ts
  {
    var newer, n := Sorted(Filter(Events(t), NewerThan(since))), PageSize(limit);
    SortedOrders(Filter(Events(t), NewerThan(since)));
    NoPrefsKeepAll(EventsSince(t, since, n));
    assert newer[n..][0] == newer[n] && newer[n] in newer[n..];
    assert forall e :: e in newer[n..] ==> e.ts >= newer[n].ts;
  }

  /** What a tie at the cut loses, no later poll serves. */
  lemma TieAcrossPagesIsLost(t: Tables, since: int, limit: int, calls: seq<Call>)
    requires |Sorted(Filter(Events(t), NewerThan(since)))| > PageSize(limit)
    requires Sorted(Filter(Events(t), NewerThan(since)))[PageSize(limit)].ts
          == Sorted(Filter(Events(t), NewerThan(since)))[PageSize(limit) - 1].ts
    ensures var newer, n := Sorted(Filter(Events(t), NewerThan(since))), PageSize(limit);
            newer[n] in Events(t) && newer[n] !in Session(Poll(t, Some(since), limit, None).bookmark, calls).events
  {
    var newer, n := Sorted(Filter(Events(t), NewerThan(since))), PageSize(limit);
    var page := EventsSince(t, since, n);
    SortedOrders(Filter(Events(t), NewerThan(since)));
    FilterMembers(Events(t), NewerThan(since));
    assert newer[n] in newer;
    NoPrefsKeepAll(page);
    SessionIsFresh(page[n - 1].ts, calls);
  }

  /** Counting pages from `m`, no boundary falls between equal timestamps. */
  ghost predicate Untied(log: seq<Event>, m: nat, size: nat)
    requires size >= 1
    decreases |log| - m
  {
    m + size >= |log| || (log[m + size - 1].ts < log[m + size].ts && Untied(log, m + size, size))
  }

  lemma CutAfter(log: seq<Event>, k: nat)
    requires Ordered(log) && 0 < k <= |log|
    ensures Cut(log, log[k - 1].ts) >= k
    ensures Cut(log, log[k - 1].ts) == k <==> k == |log| || log[k - 1].ts < log[k].ts
  {
    var c := Cut(log, log[k - 1].ts);
    CutSplits(log, log[k - 1].ts);
    assert c < |log| ==> log[c].ts > log[k - 1].ts;
    assert k < |log| && k < c ==> log[k].ts <= log[k - 1].ts;
  }

  lemma {:induction false} RepeatFront(c: Call, n: nat)
    ensures Repeat(c, n + 1) == [c] + Repeat(c, n)
  {
    if n > 0 {
      RepeatFront(c, n - 1);
      assert [c] + Repeat(c, n - 1) + [c] == [c] + Repeat(c, n);
    }
  }

  /** A repeated client is one poll ahead of itself. */
  lemma FirstPoll(b: int, c: Call, n: nat)
    ensures var r := Poll(c.tables, Some(b), c.limit, c.prefs);
            Session(b, Repeat(c, n + 1)).events == r.events + Session(r.bookmark, Repeat(c, n)).events
  {
    RepeatFront(c, n);
    SessionSplits(b, [c], Repeat(c, n));
    SessionStep(b, [], c);
    assert [] + [c] == [c];
    assert [] + Poll(c.tables, Some(b), c.limit, c.prefs).events == Poll(c.tables, Some(b), c.limit, c.prefs).events;
  }

  // -------------------------------------------- draining, ties and filters

  /** Where the next page starts: past everything tied with the last event delivered. */
  function Next(log: seq<Event>, to: nat): (m: nat)
    requires 0 < to <= |log|
    ensures m <= |log|
  {
    Cut(log, log[to - 1].ts)
  }

  lemma NextIsPast(log: seq<Event>, to: nat)
    requires Ordered(log) && 0 < to <= |log|
    ensures to <= Next(log, to)
  {
    CutAfter(log, to);
  }

  function Part(log: seq<Event>, a: nat, b: nat, keep: Keep): seq<Event>
    requires a <= b <= |log|
  {
    Filter(log[a..b], keep)
  }

  /** From `m` on: nothing is owed any more, or the page delivers something, skips nothing
      that is owed, and the same holds from the next page on. */
  ghost predicate Clear(log: seq<Event>, m: nat, size: nat, keep: Keep)
    requires Ordered(log) && m <= |log| && size >= 1
    decreases |log| - m
  {
    Part(log, m, |log|, keep) == [] ||
    (var to := Reached(log, m, PageEnd(log, m, size), keep);
     to > m &&
     (NextIsPast(log, to);
      Part(log, to, Next(log, to), keep) == [] && Clear(log, Next(log, to), size, keep)))
  }

  /** The answer of a poll in terms of the page `log[m..k]`. */
  lemma PollServes(t: Tables, b: int, limit: int, prefs: Option<Prefs>)
    ensures var log, r := Chronicle(t), Poll(t, Some(b), limit, prefs);
            var m := Cut(log, b);
            && r.events == Part(log, m, PageEnd(log, m, PageSize(limit)), Passes(prefs))
            && r.bookmark == if r.events == [] then b else r.events[|r.events| - 1].ts
  {
    PageIsSlice(t, b, PageSize(limit));
  }

  /** One poll, whatever the filter and the ties. */
  ghost predicate Lands(log: seq<Event>, b: int, r: Reply, size: nat, keep: Keep)
    requires size >= 1
  {
    var m := Cut(log, b);
    var to := Reached(log, m, PageEnd(log, m, size), keep);
    && r.events == Part(log, m, to, keep)
    && if to == m then r == Reply(b, []) else Cut(log, r.bookmark) == Next(log, to)
  }

  lemma ServedLands(log: seq<Event>, b: int, r: Reply, size: nat, keep: Keep)
    requires size >= 1 && r.events == Part(log, Cut(log, b), PageEnd(log, Cut(log, b), size), keep)
    requires r.bookmark == if r.events == [] then b else r.events[|r.events| - 1].ts
    ensures Lands(log, b, r, size, keep)
  {
    PageMoves(log, Cut(log, b), PageEnd(log, Cut(log, b), size), keep);
  }

  lemma PollLands(t: Tables, b: int, limit: int, prefs: Option<Prefs>)
    ensures Lands(Chronicle(t), b, Poll(t, Some(b), limit, prefs), PageSize(limit), Passes(prefs))
  {
    PollServes(t, b, limit, prefs);
    ServedLands(Chronicle(t), b, Poll(t, Some(b), limit, prefs), PageSize(limit), Passes(prefs));
  }

  /** What is owed from `m` on: what this page delivers, what it skips, what is owed later. */
  lemma OwedInThree(log: seq<Event>, m: nat, to: nat, next: nat, keep: Keep)
    requires m <= to <= next <= |log|
    ensures Part(log, m, |log|, keep) ==
            Part(log, m, to, keep) + Part(log, to, next, keep) + Part(log, next, |log|, keep)
  {
    FilterJoins(log, m, to, |log|, keep);
    FilterJoins(log, to, next, |log|, keep);
  }

  lemma ClearStep(log: seq<Event>, m: nat, size: nat, keep: Keep)
    requires Ordered(log) && m <= |log| && size >= 1 && Clear(log, m, size, keep) && Part(log, m, |log|, keep) != []
    ensures var to := Reached(log, m, PageEnd(log, m, size), keep);
            && m < to <= Next(log, to) && Clear(log, Next(log, to), size, keep)
            && Part(log, m, |log|, keep) == Part(log, m, to, keep) + Part(log, Next(log, to), |log|, keep)
  {
    var to := Reached(log, m, PageEnd(log, m, size), keep);
    NextIsPast(log, to);
    OwedInThree(log, m, to, Next(log, to), keep);
  }

  lemma {:induction false} ClearDrains(b: int, c: Call) returns (n: nat)
    requires Ordered(Chronicle(c.tables))
    requires Clear(Chronicle(c.tables), Cut(Chronicle(c.tables), b), PageSize(c.limit), Passes(c.prefs))
    ensures var log := Chronicle(c.tables);
            Session(b, Repeat(c, n)).events == Part(log, Cut(log, b), |log|, Passes(c.prefs))
    decreases |Chronicle(c.tables)| - Cut(Chronicle(c.tables), b)
  {
    var log, keep := Chronicle(c.tables), Passes(c.prefs);
    var m := Cut(log, b);
    if Part(log, m, |log|, keep) == [] {
      n := 0;
    } else {
      ClearStep(log, m, PageSize(c.limit), keep);
      PollLands(c.tables, b, c.limit, c.prefs);
      var r := Poll(c.tables, Some(b), c.limit, c.prefs);
      var rest := ClearDrains(r.bookmark, c);
      FirstPoll(b, c, rest);
      n := rest + 1;
    }
  }

  ghost predicate AtMost(got: nat, owed: nat, clear: bool) {
    got <= owed && (!clear ==> got < owed)
  }

  /** A page and what is got after it make no more than what was owed, and less where a
      page is dead or skips something. */
  lemma PageAtMost(log: seq<Event>, m: nat, size: nat, keep: Keep, later: nat)
    requires Ordered(log) && m <= |log| && size >= 1
    requires var to := Reached(log, m, PageEnd(log, m, size), keep);
             to > m && AtMost(later, |Part(log, Next(log, to), |log|, keep)|, Clear(log, Next(log, to), size, keep))
    ensures var to := Reached(log, m, PageEnd(log, m, size), keep);
            AtMost(|Part(log, m, to, keep)| + later, |Part(log, m, |log|, keep)|, Clear(log, m, size, keep))
  {
    var to := Reached(log, m, PageEnd(log, m, size), keep);
    NextIsPast(log, to);
    OwedInThree(log, m, to, Next(log, to), keep);
  }

  ghost predicate GotAtMost(b: int, c: Call, got: nat)
    requires Ordered(Chronicle(c.tables))
  {
    var log := Chronicle(c.tables);
    AtMost(got, |Part(log, Cut(log, b), |log|, Passes(c.prefs))|,
           Clear(log, Cut(log, b), PageSize(c.limit), Passes(c.prefs)))
  }

  lemma PollAtMost(b: int, c: Call, later: nat)
    requires Ordered(Chronicle(c.tables))
    requires GotAtMost(Poll(c.tables, Some(b), c.limit, c.prefs).bookmark, c, later)
    ensures GotAtMost(b, c, |Poll(c.tables, Some(b), c.limit, c.prefs).events| + later)
  {
    var log, m := Chronicle(c.tables), Cut(Chronicle(c.tables), b);
    PollLands(c.tables, b, c.limit, c.prefs);
    if Reached(log, m, PageEnd(log, m, PageSize(c.limit)), Passes(c.prefs)) > m {
      PageAtMost(log, m, PageSize(c.limit), Passes(c.prefs), later);
    }
  }

  lemma {:induction false} NeverMore(b: int, c: Call, n: nat)
    requires Ordered(Chronicle(c.tables))
    ensures GotAtMost(b, c, |Session(b, Repeat(c, n)).events|)
    decreases n
  {
    if n > 0 {
      var r := Poll(c.tables, Some(b), c.limit, c.prefs);
      FirstPoll(b, c, n - 1);
      NeverMore(r.bookmark, c, n - 1);
      PollAtMost(b, c, |Session(r.bookmark, Repeat(c, n - 1)).events|);
    }
  }

  lemma NewerIsPart(log: seq<Event>, since: int, keep: Keep)
    requires Ordered(log)
    ensures Filter(Filter(log, NewerThan(since)), keep) == Part(log, Cut(log, since), |log|, keep)
  {
    var a := Cut(log, since);
    CutSplits(log, since);
    NewerIsSuffix(log, a, since);
    assert log[a..] == log[a..|log|];
  }

  lemma OwedIsPart(t: Tables, since: int, prefs: Option<Prefs>)
    ensures var log := Chronicle(t);
            Ordered(log) && Owed(t, since, prefs) == Part(log, Cut(log, since), |log|, Passes(prefs))
  {
    SortedOrders(Events(t));
    NewerIsPart(Chronicle(t), since, Passes(prefs));
  }

  lemma NotClearLacks(since: int, c: Call, n: nat)
    requires Ordered(Chronicle(c.tables))
    requires !Clear(Chronicle(c.tables), Cut(Chronicle(c.tables), since), PageSize(c.limit), Passes(c.prefs))
    ensures Session(since, Repeat(c, n)).events != Owed(c.tables, since, c.prefs)
  {
    OwedIsPart(c.tables, since, c.prefs);
    NeverMore(since, c, n);
  }

  /** On any journal, with any filter, page size and tied timestamps: repeated polls deliver
      everything owed exactly when from the bookmark on every page delivers something and
      skips nothing that is owed. */
  lemma FeedDrainsIff(since: int, c: Call)
    ensures Ordered(Chronicle(c.tables))
    ensures (exists n: nat :: Session(since, Repeat(c, n)).events == Owed(c.tables, since, c.prefs)) <==>
            Clear(Chronicle(c.tables), Cut(Chronicle(c.tables), since), PageSize(c.limit), Passes(c.prefs))
  {
    OwedIsPart(c.tables, since, c.prefs);
    if Clear(Chronicle(c.tables), Cut(Chronicle(c.tables), since), PageSize(c.limit), Passes(c.prefs)) {
      var n := ClearDrains(since, c);
    } else {
      forall n: nat ensures Session(since, Repeat(c, n)).events != Owed(c.tables, since, c.prefs) {
        NotClearLacks(since, c, n);
      }
    }
  }

  /** Without a filter a page delivers all it holds, and may only skip at its end. */
  lemma UnfilteredPage(log: seq<Event>, m: nat, size: nat)
    requires Ordered(log) && m < |log| && size >= 1
    ensures var k := PageEnd(log, m, size);
            k > m && (Clear(log, m, size, Passes(None)) <==> Next(log, k) == k && Clear(log, k, size, Passes(None)))
  {
    var k := PageEnd(log, m, size);
    assert Reached(log, m, k, Passes(None)) == k;
    NextIsPast(log, k);
    NoPrefsKeepAll(log[m..|log|]);
    NoPrefsKeepAll(log[k..Next(log, k)]);
  }

  lemma UntiedPage(log: seq<Event>, m: nat, size: nat)
    requires Ordered(log) && m < |log| && size >= 1
    ensures var k := PageEnd(log, m, size);
            k > m && (Untied(log, m, size) <==> Next(log, k) == k && Untied(log, k, size))
  {
    CutAfter(log, PageEnd(log, m, size));
  }

  lemma {:induction false} UntiedIsClear(log: seq<Event>, m: nat, size: nat)
    requires Ordered(log) && m <= |log| && size >= 1
    ensures Untied(log, m, size) <==> Clear(log, m, size, Passes(None))
    decreases |log| - m
  {
    if m == |log| {
      assert log[m..|log|] == [];
    } else {
      var k := PageEnd(log, m, size);
      UnfilteredPage(log, m, size);
      UntiedPage(log, m, size);
      UntiedIsClear(log, k, size);
    }
  }

  /** Without a filter that means: no page boundary falls between equal timestamps. */
  lemma UnfilteredDrainsIff(since: int, c: Call)
    requires c.prefs.None?
    ensures var log := Chronicle(c.tables);
            (exists n: nat :: Session(since, Repeat(c, n)).events == Filter(log, NewerThan(since))) <==>
            Untied(log, Cut(log, since), PageSize(c.limit))
  {
    var log := Chronicle(c.tables);
    FeedDrainsIff(since, c);
    UntiedIsClear(log, Cut(log, since), PageSize(c.limit));
    NoPrefsKeepAll(Filter(log, NewerThan(since)));
  }

  lemma {:induction false} LatestIsMax(evs: seq<Event>, b: int)
    requires evs != []
    ensures Latest(evs) <= b <==> forall e :: e in evs ==> e.ts <= b
  {
    var rest, last := evs[..|evs| - 1], evs[|evs| - 1];
    assert evs == rest + [last];
    if rest != [] {
      LatestIsMax(rest, b);
    }
  }

  lemma UnfilteredEmptyIff(t: Tables, b: int, limit: int)
    ensures Poll(t, Some(b), limit, None).events == [] <==> AllUpTo(Events(t), b)
  {
    var evs := Events(t);
    var newer := Filter(evs, NewerThan(b));
    var page := EventsSince(t, b, PageSize(limit));
    SortedOrders(newer);
    FilterMembers(evs, NewerThan(b));
    FilterMembers(page, Passes(None));
    if newer == [] {
      NoneNewer(evs, b);
    } else {
      assert newer[0] in newer && Sorted(newer) != [] && page != [];
      assert page[0] in page;
    }
  }

  lemma NoneNewer(evs: seq<Event>, b: int)
    requires Filter(evs, NewerThan(b)) == []
    ensures AllUpTo(evs, b)
  {
    FilterMembers(evs, NewerThan(b));
    forall e | e in evs ensures e.ts <= b {
      assert e in Filter(evs, NewerThan(b)) <==> Kept(NewerThan(b), e);
    }
  }

  lemma ColdCovers(t: Tables)
    ensures AllUpTo(Opens(t.trades) + Closes(t.trades), ColdBookmark(t))
  {
    if Opens(t.trades) + Closes(t.trades) != [] {
      LatestIsMax(Opens(t.trades) + Closes(t.trades), ColdBookmark(t));
    }
  }

  /** After a cold start nothing that already happened is replayed exactly when no
      modification is newer than the latest open or close. */
  lemma ColdStartIsQuietIff(t: Tables, limit: int)
    ensures var cold := Poll(t, None, limit, None);
            && cold.events == []
            && ((Poll(t, Some(cold.bookmark), limit, None).events == []) <==>
                AllUpTo(Changes(t.trades, t.changes), ColdBookmark(t)))
  {
    var b := ColdBookmark(t);
    ColdCovers(t);
    UnfilteredEmptyIff(t, b, limit);
    assert forall e :: e in Events(t) <==> e in Opens(t.trades) + Closes(t.trades) || e in Changes(t.trades, t.changes);
  }

  // ------------------------------------------------------ concrete inputs

  lemma {:induction false} StuckForever(b: int, c: Call, n: nat)
    requires Poll(c.tables, Some(b), c.limit, c.prefs) == Reply(b, [])
    ensures Session(b, Repeat(c, n)) == Reply(b, [])
  {
    if n > 0 {
      StuckForever(b, c, n - 1);
      assert Repeat(c, n)[..n - 1] == Repeat(c, n - 1);
    }
  }

  lemma OneRow(r: Row)
    requires r.closedAt.None?
    ensures Opens([r]) == [OpenOf(r)] && Closes([r]) == []
  {
    assert [r][..0] == [];
  }

  lemma TwoRows(r: Row, q: Row)
    requires r.closedAt.None? && q.closedAt.None?
    ensures Events(Tables([r, q], [])) == [OpenOf(r), OpenOf(q)]
  {
    OneRow(r);
    assert [r, q][..1] == [r];
    assert Opens([r, q]) == [OpenOf(r)] + [OpenOf(q)];
    assert Closes([r, q]) == [];
  }

  lemma PageOfTwo(e: Event, f: Event, since: int)
    requires since < e.ts <= f.ts
    ensures Sorted(Filter([e, f], NewerThan(since))) == [e, f]
  {
    assert [e, f][..1] == [e] && [e][..0] == [];
    assert Filter([e], NewerThan(since)) == [e] && Sorted([e]) == [e];
  }

  /** Two open trades, pages of one, an operator who picked only the second's strategy: the
      first fills every page and the second never arrives. */
  lemma BlockedExample(r: Row, q: Row, prefs: Prefs, n: nat)
    requires r.closedAt.None? && q.closedAt.None? && 0 < r.openedAt < q.openedAt
    requires r.strategy !in prefs.picks && q.strategy in prefs.picks && q.strategy in prefs.copyable
    ensures var c := Call(Tables([r, q], []), 1, Some(prefs));
            OpenOf(q) in Owed(c.tables, 0, c.prefs) && Session(0, Repeat(c, n)).events == []
  {
    var t, e, f := Tables([r, q], []), OpenOf(r), OpenOf(q);
    TwoRows(r, q);
    PageOfTwo(e, f, 0);
    assert EventsSince(t, 0, 1) == [e];
    assert [e][..0] == [] && Filter([e], Passes(Some(prefs))) == [];
    StuckForever(0, Call(t, 1, Some(prefs)), n);
    NewerOfSorted([e, f], 0);
    FilterMembers([e, f], Passes(Some(prefs)));
    assert f in [e, f];
  }

  /** A trade opened at 1 and modified at 2: the client that cold-starts now is sent that
      modification by its next poll. */
  lemma ColdReplayExample(r: Row, stop: Option<real>)
    requires r.closedAt.None? && r.openedAt == 1
    ensures var t := Tables([r], [ModRow(r.id, 2, stop, None)]);
            var cold := Poll(t, None, 100, None);
            cold == Reply(1, []) && Poll(t, Some(cold.bookmark), 100, None).events != []
  {
    var m := ModRow(r.id, 2, stop, None);
    var t := Tables([r], [m]);
    OneRow(r);
    assert [m][..0] == [] && Changes([r], [m]) == ChangeOf([r], m);
    assert Opens(t.trades) + Closes(t.trades) == [OpenOf(r)];
    assert [OpenOf(r)][..0] == [] && ColdBookmark(t) == 1;
    ColdStartIsQuietIff(t, 100);
    var e := Event(Modified, r.id, 2, r.strategy);
    assert e in Changes(t.trades, t.changes);
  }

  // ----------------------------------- journal operations grow the chronicle

  lemma InsertBeforeNewest(s: seq<Event>, newest: Event, e: Event)
    requires e.ts < newest.ts
    ensures Insert(s + [newest], e) == Insert(s, e) + [newest]
  {
    assert (s + [newest])[..|s|] == s;
  }

  lemma SortedStep(xs: seq<Event>, e: Event)
    ensures Sorted(xs + [e]) == Insert(Sorted(xs), e)
  {
    assert (xs + [e])[..|xs|] == xs;
  }

  lemma NewestAppended(xs: seq<Event>, newest: Event)
    requires AllBefore(xs, newest.ts)
    ensures Sorted(xs + [newest]) == Sorted(xs) + [newest]
  {
    SortedStep(xs, newest);
    SortedOrders(xs);
    if xs != [] {
      var s := Sorted(xs);
      assert s != [] by { assert xs[0] in s; }
      assert s[|s| - 1] in s;
    }
  }

  ghost predicate AllBefore(evs: seq<Event>, limit: int) {
    forall e :: e in evs ==> e.ts < limit
  }

  /** Wherever the query finds the newest event, the chronicle ends with it. */
  lemma {:induction false} NewestGoesLast(xs: seq<Event>, newest: Event, ys: seq<Event>)
    requires AllBefore(xs, newest.ts) && AllBefore(ys, newest.ts)
    ensures Sorted(xs + [newest] + ys) == Sorted(xs + ys) + [newest]
  {
    if ys == [] {
      assert xs + [newest] + ys == xs + [newest] && xs + ys == xs;
      NewestAppended(xs, newest);
    } else {
      var front, last := ys[..|ys| - 1], ys[|ys| - 1];
      assert ys == front + [last];
      assert last in ys;
      NewestGoesLast(xs, newest, front);
      assert xs + [newest] + ys == (xs + [newest] + front) + [last];
      assert xs + ys == (xs + front) + [last];
      SortedStep(xs + [newest] + front, last);
      SortedStep(xs + front, last);
      InsertBeforeNewest(Sorted(xs + front), newest, last);
    }
  }

  lemma {:induction false} NewRowKeepsChanges(rows: seq<Row>, r: Row, changes: seq<ModRow>)
    requires forall c :: c in changes ==> c.tradeId != r.id
    ensures Changes(rows + [r], changes) == Changes(rows, changes)
  {
    if changes != [] {
      var n := |changes| - 1;
      assert changes[n] in changes;
      assert (rows + [r])[..|rows|] == rows;
      NewRowKeepsChanges(rows, r, changes[..n]);
    }
  }

  /** Recording an open now appends exactly its event. */
  lemma OpenExtends(t: Tables, r: Row)
    requires r.closedAt.None? && forall c :: c in t.changes ==> c.tradeId != r.id
    requires AllBefore(Events(t), r.openedAt)
    ensures Chronicle(t.(trades := t.trades + [r])) == Chronicle(t) + [OpenOf(r)]
  {
    OpenAddsOne(t, r);
    NewestGoesLast(Opens(t.trades), OpenOf(r), Closes(t.trades) + Changes(t.trades, t.changes));
  }

  lemma OpenAddsOne(t: Tables, r: Row)
    requires r.closedAt.None? && forall c :: c in t.changes ==> c.tradeId != r.id
    ensures var rest := Closes(t.trades) + Changes(t.trades, t.changes);
            Events(t) == Opens(t.trades) + rest &&
            Events(t.(trades := t.trades + [r])) == Opens(t.trades) + [OpenOf(r)] + rest
  {
    assert (t.trades + [r])[..|t.trades|] == t.trades;
    assert Closes(t.trades + [r]) == Closes(t.trades) + [];
    NewRowKeepsChanges(t.trades, r, t.changes);
    Regrouped(Opens(t.trades), Closes(t.trades), Changes(t.trades, t.changes), [OpenOf(r)]);
  }

  lemma Regrouped(a: seq<Event>, b: seq<Event>, c: seq<Event>, e: seq<Event>)
    ensures a + b + c == a + (b + c) && (a + e) + (b + []) + c == a + e + (b + c)
  {
  }

  lemma ChangesStep(rows: seq<Row>, changes: seq<ModRow>, c: ModRow)
    ensures Changes(rows, changes + [c]) == Changes(rows, changes) + ChangeOf(rows, c)
  {
    assert (changes + [c])[..|changes|] == changes;
  }

  /** Logging a modification of a recorded trade appends exactly its event. */
  lemma ModifyExtends(rows: seq<Row>, changes: seq<ModRow>, c: ModRow)
    requires ChangeOf(rows, c) != []
    requires AllBefore(Events(Tables(rows, changes)), c.ts)
    ensures Chronicle(Tables(rows, changes + [c])) == Chronicle(Tables(rows, changes)) + ChangeOf(rows, c)
  {
    JoinIsOne(rows, c);
    var e, evs := ChangeOf(rows, c)[0], Events(Tables(rows, changes));
    assert ChangeOf(rows, c) == [e];
    ChangesStep(rows, changes, c);
    assert evs + [e] == Events(Tables(rows, changes + [c]));
    NewestAppended(evs, e);
  }

  lemma {:induction false} JoinIsOne(rows: seq<Row>, c: ModRow)
    requires ChangeOf(rows, c) != []
    ensures |ChangeOf(rows, c)| == 1 && ChangeOf(rows, c)[0].ts == c.ts
  {
    if rows[|rows| - 1].id != c.tradeId {
      JoinIsOne(rows[..|rows| - 1], c);
    }
  }

  function CloseRow(rows: seq<Row>, i: nat, now: int): seq<Row>
    requires i < |rows|
  {
    rows[i := rows[i].(closedAt := Some(now))]
  }

  lemma {:induction false} ClosingKeepsOthers(rows: seq<Row>, i: nat, now: int, changes: seq<ModRow>)
    requires i < |rows|
    ensures Opens(CloseRow(rows, i, now)) == Opens(rows)
    ensures Changes(CloseRow(rows, i, now), changes) == Changes(rows, changes)
    decreases |rows|, |changes|
  {
    var n := |rows| - 1;
    if i == n {
      assert CloseRow(rows, i, now)[..n] == rows[..n];
    } else {
      assert CloseRow(rows, i, now)[..n] == CloseRow(rows[..n], i, now);
      ClosingKeepsOthers(rows[..n], i, now, changes);
    }
    if changes != [] {
      ClosingKeepsOthers(rows, i, now, changes[..|changes| - 1]);
      ClosingKeepsJoin(rows, i, now, changes[|changes| - 1]);
    }
  }

  lemma {:induction false} ClosingKeepsJoin(rows: seq<Row>, i: nat, now: int, c: ModRow)
    requires i < |rows|
    ensures ChangeOf(CloseRow(rows, i, now), c) == ChangeOf(rows, c)
  {
    var n := |rows| - 1;
    if i == n {
      assert CloseRow(rows, i, now)[..n] == rows[..n];
    } else {
      assert CloseRow(rows, i, now)[..n] == CloseRow(rows[..n], i, now);
      ClosingKeepsJoin(rows[..n], i, now, c);
    }
  }

  lemma {:induction false} ClosingAddsOne(rows: seq<Row>, i: nat, now: int) returns (xs: seq<Event>, ys: seq<Event>)
    requires i < |rows| && rows[i].closedAt.None?
    ensures Closes(rows) == xs + ys
    ensures Closes(CloseRow(rows, i, now)) == xs + [Event(Closed, rows[i].id, now, rows[i].strategy)] + ys
  {
    var n := |rows| - 1;
    if i == n {
      assert CloseRow(rows, i, now)[..n] == rows[..n];
      xs, ys := Closes(rows[..n]), [];
    } else {
      assert CloseRow(rows, i, now)[..n] == CloseRow(rows[..n], i, now);
      xs, ys := ClosingAddsOne(rows[..n], i, now);
      ys := ys + CloseOf(rows[n]);
    }
  }

  /** Closing an open trade with the current time appends exactly its event, although
      the query finds it between older ones. */
  lemma CloseExtends(t: Tables, i: nat, now: int)
    requires i < |t.trades| && t.trades[i].closedAt.None?
    requires AllBefore(Events(t), now)
    ensures Chronicle(t.(trades := CloseRow(t.trades, i, now))) ==
            Chronicle(t) + [Event(Closed, t.trades[i].id, now, t.trades[i].strategy)]
  {
    var rows := t.trades;
    ClosingKeepsOthers(rows, i, now, t.changes);
    var xs, ys := ClosingAddsOne(rows, i, now);
    var e := Event(Closed, rows[i].id, now, rows[i].strategy);
    var before, after := Opens(rows) + xs, ys + Changes(rows, t.changes);
    assert Events(t) == before + after;
    assert Events(t.(trades := CloseRow(rows, i, now))) == before + [e] + after;
    NewestGoesLast(before, e, after);
  }

  // ------------------------------------------------- the journal's own writes

  /** All the feed reads of a row. */
  predicate SameStamps(a: Row, b: Row) {
    a.id == b.id && a.strategy == b.strategy && a.openedAt == b.openedAt && a.closedAt == b.closedAt
  }

  lemma {:induction false} SameJoin(rows: seq<Row>, after: seq<Row>, c: ModRow)
    requires |rows| == |after| && forall i :: 0 <= i < |rows| ==> SameStamps(rows[i], after[i])
    ensures ChangeOf(rows, c) == ChangeOf(after, c)
  {
    if rows != [] {
      SameJoin(rows[..|rows| - 1], after[..|rows| - 1], c);
    }
  }

  lemma {:induction false} SameChanges(rows: seq<Row>, after: seq<Row>, changes: seq<ModRow>)
    requires |rows| == |after| && forall i :: 0 <= i < |rows| ==> SameStamps(rows[i], after[i])
    ensures Changes(rows, changes) == Changes(after, changes)
  {
    if changes != [] {
      SameChanges(rows, after, changes[..|changes| - 1]);
      SameJoin(rows, after, changes[|changes| - 1]);
    }
  }

  lemma {:induction false} SameOpens(rows: seq<Row>, after: seq<Row>)
    requires |rows| == |after| && forall i :: 0 <= i < |rows| ==> SameStamps(rows[i], after[i])
    ensures Opens(rows) == Opens(after) && Closes(rows) == Closes(after)
  {
    if rows != [] {
      SameOpens(rows[..|rows| - 1], after[..|rows| - 1]);
    }
  }

  lemma SameEvents(rows: seq<Row>, after: seq<Row>, changes: seq<ModRow>)
    requires |rows| == |after| && forall i :: 0 <= i < |rows| ==> SameStamps(rows[i], after[i])
    ensures Events(Tables(rows, changes)) == Events(Tables(after, changes))
  {
    SameOpens(rows, after);
    SameChanges(rows, after, changes);
  }

  /** One write of the journal, stamped with the bot's clock: what `RecordOpen`,
      `RecordClose` and `RecordModify` do to the tables. */
  datatype Write =
    | OpenAt(order: OrderV)
    | CloseAt(order: OrderV, reason: string, now: int)
    | ModifyAt(id: int, stop: Option<real>, target: Option<real>, now: int)

  function Written(t: Tables, w: Write): Tables {
    match w
    case OpenAt(o) => t.(trades := t.trades + [OpenRow(o)])
    case CloseAt(o, reason, now) => t.(trades := ClosedById(t.trades, o, reason, now))
    case ModifyAt(id, stop, target, now) =>
      Tables(Journal.Modified(t.trades, id, stop, target), t.changes + [ModRow(id, now, stop, target)])
  }

  function StampOf(w: Write): int {
    match w case OpenAt(o) => o.openedAt case CloseAt(_, _, now) => now case ModifyAt(_, _, _, now) => now
  }

  predicate UniqueIds(rows: seq<Row>) {
    forall i, j :: 0 <= i < j < |rows| ==> rows[i].id != rows[j].id
  }

  /** Ids are not reused, only open trades are closed, only recorded trades are modified,
      and the stamp is later than everything written before. */
  ghost predicate InOrder(t: Tables, w: Write) {
    && UniqueIds(t.trades) && AllBefore(Events(t), StampOf(w))
    && match w
       case OpenAt(o) => !HasId(t.trades, o.id) && forall c :: c in t.changes ==> c.tradeId != o.id
       case CloseAt(o, _, _) => exists i :: 0 <= i < |t.trades| && t.trades[i].id == o.id && t.trades[i].closedAt.None?
       case ModifyAt(id, _, _, _) => HasId(t.trades, id)
  }

  function WrittenAll(t: Tables, ws: seq<Write>): Tables {
    if ws == [] then t else Written(WrittenAll(t, ws[..|ws| - 1]), ws[|ws| - 1])
  }

  ghost predicate AllInOrder(t: Tables, ws: seq<Write>) {
    ws == [] || (AllInOrder(t, ws[..|ws| - 1]) && InOrder(WrittenAll(t, ws[..|ws| - 1]), ws[|ws| - 1]))
  }

  lemma {:induction false} RecordedJoins(rows: seq<Row>, c: ModRow)
    requires HasId(rows, c.tradeId)
    ensures ChangeOf(rows, c) != []
  {
    var i :| 0 <= i < |rows| && rows[i].id == c.tradeId;
    if rows[|rows| - 1].id != c.tradeId {
      assert rows[..|rows| - 1][i].id == c.tradeId;
      RecordedJoins(rows[..|rows| - 1], c);
    }
  }

  lemma CloseWrites(t: Tables, o: OrderV, reason: string, now: int) returns (e: Event)
    requires InOrder(t, CloseAt(o, reason, now))
    ensures Chronicle(Written(t, CloseAt(o, reason, now))) == Chronicle(t) + [e] && e.ts == now
  {
    var rows := t.trades;
    var i :| 0 <= i < |rows| && rows[i].id == o.id && rows[i].closedAt.None?;
    CloseExtends(t, i, now);
    SameEvents(CloseRow(rows, i, now), ClosedById(rows, o, reason, now), t.changes);
    e := Event(Closed, rows[i].id, now, rows[i].strategy);
  }

  lemma ModifyWrites(t: Tables, c: ModRow) returns (e: Event)
    requires HasId(t.trades, c.tradeId) && AllBefore(Events(t), c.ts)
    ensures var after := Tables(Journal.Modified(t.trades, c.tradeId, c.stop, c.target), t.changes + [c]);
            Chronicle(after) == Chronicle(t) + [e] && e.ts == c.ts
  {
    RecordedJoins(t.trades, c);
    ModifyExtends(t.trades, t.changes, c);
    JoinIsOne(t.trades, c);
    e := ChangeOf(t.trades, c)[0];
    assert ChangeOf(t.trades, c) == [e];
    SameEvents(t.trades, Journal.Modified(t.trades, c.tradeId, c.stop, c.target), t.changes + [c]);
  }

  /** Each write of the journal appends exactly one event, stamped with its clock. */
  lemma WriteExtends(t: Tables, w: Write) returns (e: Event)
    requires InOrder(t, w)
    ensures Chronicle(Written(t, w)) == Chronicle(t) + [e] && e.ts == StampOf(w)
  {
    match w
    case OpenAt(o) =>
      OpenExtends(t, OpenRow(o));
      e := OpenOf(OpenRow(o));
    case CloseAt(o, reason, now) => e := CloseWrites(t, o, reason, now);
    case ModifyAt(id, stop, target, now) => e := ModifyWrites(t, ModRow(id, now, stop, target));
  }

  lemma IncreasingAppend(log: seq<Event>, e: Event)
    requires Increasing(log) && AllBefore(log, e.ts)
    ensures Increasing(log + [e])
  {
    assert forall i :: 0 <= i < |log| ==> log[i] in log;
  }

  /** Any writes stamped by a clock that moves on keep the chronicle strictly increasing and
      only extend it, which is what `DeliveredIsPrefix` asks of the journal between polls. */
  lemma {:induction false} WritesGrow(t: Tables, ws: seq<Write>)
    requires Increasing(Chronicle(t)) && AllInOrder(t, ws)
    ensures Increasing(Chronicle(WrittenAll(t, ws))) && Chronicle(t) <= Chronicle(WrittenAll(t, ws))
  {
    if ws != [] {
      var before, w := ws[..|ws| - 1], ws[|ws| - 1];
      WritesGrow(t, before);
      var t1 := WrittenAll(t, before);
      var e := WriteExtends(t1, w);
      SortedOrders(Events(t1));
      assert AllBefore(Chronicle(t1), e.ts);
      IncreasingAppend(Chronicle(t1), e);
    }
  }
}
