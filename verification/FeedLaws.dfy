/** What the copy-trade feed delivers, in terms of the journal's rows and the client's choices. */
module FeedLaws {
  import opened Common
  import opened Journal
  import opened Feed

  // ------------------------------------------------------------ the events

  /** The journal's events: one per open, one per close, one per modification of a recorded
      trade, each with the trade's id and strategy and the time it was written. */
  ghost predicate Happened(t: Tables, e: Event) {
    || (exists r :: r in t.trades && e == Event(Opened, r.id, r.openedAt, r.strategy))
    || (exists r :: r in t.trades && r.closedAt.Some? && e == Event(Closed, r.id, r.closedAt.value, r.strategy))
    || (exists c, r :: c in t.changes && r in t.trades && r.id == c.tradeId &&
                       e == Event(Modified, r.id, c.ts, r.strategy))
  }

  lemma {:induction false} OpensAre(rows: seq<Row>, e: Event)
    ensures e in Opens(rows) <==> exists r :: r in rows && e == Event(Opened, r.id, r.openedAt, r.strategy)
  {
    if rows != [] {
      var rest, last := rows[..|rows| - 1], rows[|rows| - 1];
      assert rows == rest + [last];
      OpensAre(rest, e);
    }
  }

  lemma {:induction false} ClosesAre(rows: seq<Row>, e: Event)
    ensures e in Closes(rows) <==>
            exists r :: r in rows && r.closedAt.Some? && e == Event(Closed, r.id, r.closedAt.value, r.strategy)
  {
    if rows != [] {
      var rest, last := rows[..|rows| - 1], rows[|rows| - 1];
      assert rows == rest + [last];
      ClosesAre(rest, e);
    }
  }

  lemma {:induction false} JoinIs(rows: seq<Row>, c: ModRow, e: Event)
    requires forall i, j :: 0 <= i < j < |rows| ==> rows[i].id != rows[j].id
    ensures e in ChangeOf(rows, c) <==>
            exists r :: r in rows && r.id == c.tradeId && e == Event(Modified, r.id, c.ts, r.strategy)
  {
    if rows != [] {
      var n := |rows| - 1;
      var rest, last := rows[..n], rows[n];
      assert rows == rest + [last];
      JoinIs(rest, c, e);
      if last.id == c.tradeId {
        forall r | r in rest ensures r.id != last.id {
          var i :| 0 <= i < n && rest[i] == r;
          assert rows[i] == r;
        }
      }
    }
  }

  lemma {:induction false} ChangesAre(rows: seq<Row>, changes: seq<ModRow>, e: Event)
    requires forall i, j :: 0 <= i < j < |rows| ==> rows[i].id != rows[j].id
    ensures e in Changes(rows, changes) <==>
            exists c, r :: c in changes && r in rows && r.id == c.tradeId &&
                           e == Event(Modified, r.id, c.ts, r.strategy)
    decreases |changes|
  {
    if changes != [] {
      var rest, last := changes[..|changes| - 1], changes[|changes| - 1];
      assert changes == rest + [last];
      ChangesAre(rows, rest, e);
      JoinIs(rows, last, e);
    }
  }

  lemma EventsAre(t: Tables, e: Event)
    requires forall i, j :: 0 <= i < j < |t.trades| ==> t.trades[i].id != t.trades[j].id
    ensures e in Events(t) <==> Happened(t, e)
  {
    OpensAre(t.trades, e);
    ClosesAre(t.trades, e);
    ChangesAre(t.trades, t.changes, e);
  }

  // -------------------------------------------------------------- one page

  lemma PageIs(t: Tables, since: int, limit: int)
    ensures Poll(t, Some(since), limit, None).events == EventsSince(t, since, PageSize(limit))
  {
    NoPrefsKeepAll(EventsSince(t, since, PageSize(limit)));
  }

  lemma NewerAre(t: Tables, since: int)
    ensures var sorted := Sorted(Filter(Events(t), NewerThan(since)));
            Ordered(sorted) && forall e :: e in sorted <==> e in Events(t) && e.ts > since
  {
    var newer := Filter(Events(t), NewerThan(since));
    SortedOrders(newer);
    FilterMembers(Events(t), NewerThan(since));
    assert forall e :: e in Sorted(newer) <==> e in multiset(newer);
  }

  lemma TakenAt(sorted: seq<Event>, n: nat)
    ensures |Take(sorted, n)| <= |sorted|
    ensures forall j :: 0 <= j < |Take(sorted, n)| ==> sorted[j] in Take(sorted, n)
  {
    forall j | 0 <= j < |Take(sorted, n)| ensures sorted[j] in Take(sorted, n) {
      assert Take(sorted, n)[j] == sorted[j];
    }
  }

  lemma TakenFirst(sorted: seq<Event>, n: nat)
    requires Ordered(sorted)
    ensures |Take(sorted, n)| <= n && forall e :: e in Take(sorted, n) ==> e in sorted
    ensures forall e :: e in sorted && e !in Take(sorted, n) ==>
                        |Take(sorted, n)| == n && forall x :: x in Take(sorted, n) ==> x.ts <= e.ts
  {
    TakeIsPart(sorted, n);
    TakenAt(sorted, n);
    forall e | e in sorted && e !in Take(sorted, n)
      ensures |Take(sorted, n)| == n && forall x :: x in Take(sorted, n) ==> x.ts <= e.ts
    {
      var j :| 0 <= j < |sorted| && sorted[j] == e;
      assert j >= |Take(sorted, n)|;
    }
  }

  /** An unfiltered page holds events newer than the bookmark, none of them later than one it
      leaves out, and leaves none out while it has room. */
  lemma PageIsOldest(t: Tables, since: int, limit: int)
    ensures var page := Poll(t, Some(since), limit, None).events;
            && |page| <= PageSize(limit)
            && (forall e :: e in page ==> e in Events(t) && e.ts > since)
            && (forall e :: e in Events(t) && e.ts > since && e !in page ==>
                  |page| == PageSize(limit) && forall x :: x in page ==> x.ts <= e.ts)
  {
    PageIs(t, since, limit);
    NewerAre(t, since);
    TakenFirst(Sorted(Filter(Events(t), NewerThan(since))), PageSize(limit));
  }

  /** What a client gets to see: what a shared strategy it picked does, and, whatever it picked,
      the closes and modifications of trades it still holds. */
  predicate Meant(p: Prefs, e: Event) {
    || (e.strategy in p.copyable && e.strategy in p.picks)
    || ((e.kind == Closed || e.kind == Modified) && e.tradeId in p.masters)
  }

  /** The filtered reply holds exactly those events of the page. */
  lemma ReplyIsMeant(t: Tables, since: int, limit: int, p: Prefs, e: Event)
    ensures e in Poll(t, Some(since), limit, Some(p)).events <==>
            e in Poll(t, Some(since), limit, None).events && Meant(p, e)
  {
    var page := EventsSince(t, since, PageSize(limit));
    NoPrefsKeepAll(page);
    FilterMembers(page, Passes(Some(p)));
  }

  /** A limit outside 1 to 500 is served like 100. */
  lemma OddLimitServesHundred(t: Tables, since: Option<int>, limit: int, prefs: Option<Prefs>)
    requires limit < 1 || limit > 500
    ensures Poll(t, since, limit, prefs) == Poll(t, since, 100, prefs)
  {
  }

  /** The cold bookmark is 0 on an empty journal and otherwise the latest time at which a trade
      was opened or closed. */
  lemma ColdBookmarkIs(t: Tables)
    ensures var b := Poll(t, None, 100, None).bookmark;
            if t.trades == [] then b == 0
            else
              && (forall r :: r in t.trades ==> r.openedAt <= b && (r.closedAt.Some? ==> r.closedAt.value <= b))
              && exists r :: r in t.trades && (r.openedAt == b || r.closedAt == Some(b))
  {
    var stamps := Opens(t.trades) + Closes(t.trades);
    if t.trades == [] {
      assert stamps == [];
    } else {
      var last := t.trades[|t.trades| - 1];
      assert OpenOf(last) == Event(Opened, last.id, last.openedAt, last.strategy);
      OpensAre(t.trades, OpenOf(last));
      assert OpenOf(last) in stamps;
      LatestIsMax(stamps, Latest(stamps));
      forall r | r in t.trades
        ensures r.openedAt <= Latest(stamps) && (r.closedAt.Some? ==> r.closedAt.value <= Latest(stamps))
      {
        OpensAre(t.trades, Event(Opened, r.id, r.openedAt, r.strategy));
        if r.closedAt.Some? {
          ClosesAre(t.trades, Event(Closed, r.id, r.closedAt.value, r.strategy));
        }
      }
      var e := LatestIsThere(stamps);
      OpensAre(t.trades, e);
      ClosesAre(t.trades, e);
    }
  }

  lemma {:induction false} LatestIsThere(evs: seq<Event>) returns (e: Event)
    requires evs != []
    ensures e in evs && e.ts == Latest(evs)
  {
    var rest, last := evs[..|evs| - 1], evs[|evs| - 1];
    if rest == [] || Latest(rest) < last.ts {
      e := last;
    } else {
      e := LatestIsThere(rest);
    }
  }

  // --------------------------------------------------------- repeated polls

  /** Whatever the journals of its polls, a client never receives what is not meant for it: no
      open of a strategy it did not pick or that is not shared, whatever trades it holds. */
  lemma {:induction false} NeverUnmeant(since: int, calls: seq<Call>, p: Prefs)
    requires forall k :: 0 <= k < |calls| ==> calls[k].prefs == Some(p)
    ensures forall e :: e in Session(since, calls).events ==> Meant(p, e)
    decreases |calls|
  {
    if calls != [] {
      var n := |calls| - 1;
      NeverUnmeant(since, calls[..n], p);
      var s, c := Session(since, calls[..n]), calls[n];
      forall e | e in Poll(c.tables, Some(s.bookmark), c.limit, c.prefs).events ensures Meant(p, e) {
        ReplyIsMeant(c.tables, s.bookmark, c.limit, p, e);
      }
    }
  }

  lemma NewerAndMeant(log: seq<Event>, since: int, p: Prefs, e: Event)
    ensures e in Filter(Filter(log, NewerThan(since)), Passes(Some(p))) <==> e in log && e.ts > since && Meant(p, e)
  {
    FilterMembers(log, NewerThan(since));
    FilterMembers(Filter(log, NewerThan(since)), Passes(Some(p)));
  }

  lemma ChronicleIs(t: Tables, e: Event)
    ensures e in Chronicle(t) <==> e in Events(t)
  {
    SortedOrders(Events(t));
    assert e in Chronicle(t) <==> e in multiset(Events(t));
  }

  lemma OwedAre(t: Tables, since: int, p: Prefs, e: Event)
    ensures e in Owed(t, since, Some(p)) <==> e in Events(t) && e.ts > since && Meant(p, e)
  {
    NewerAndMeant(Chronicle(t), since, p, e);
    ChronicleIs(t, e);
  }

  /** Under the draining condition everything meant for the client that is newer than its
      bookmark arrives: every close and modification of a trade it holds, whatever it picked. */
  lemma EverythingMeantArrives(since: int, c: Call, p: Prefs) returns (n: nat)
    requires c.prefs == Some(p) && Ordered(Chronicle(c.tables))
    requires Clear(Chronicle(c.tables), Cut(Chronicle(c.tables), since), PageSize(c.limit), Passes(c.prefs))
    ensures forall e :: e in Events(c.tables) && e.ts > since && Meant(p, e) ==>
                        e in Session(since, Repeat(c, n)).events
  {
    n := ClearDrains(since, c);
    OwedIsPart(c.tables, since, c.prefs);
    forall e | e in Events(c.tables) && e.ts > since && Meant(p, e)
      ensures e in Session(since, Repeat(c, n)).events
    {
      OwedAre(c.tables, since, p, e);
    }
  }

  /** A full page of events that are not meant for the client stands before the event at `j`. */
  ghost predicate WalledOff(log: seq<Event>, since: int, size: int, p: Prefs, j: int)
    requires 0 <= j < |log|
  {
    exists i :: 0 <= i <= i + size <= j && log[i].ts > since && NoneMeant(log, i, i + size, p)
  }

  ghost predicate NoneMeant(log: seq<Event>, lo: int, hi: int, p: Prefs)
    requires 0 <= lo <= hi <= |log|
  {
    forall k :: lo <= k < hi ==> !Meant(p, log[k])
  }

  lemma AfterCut(log: seq<Event>, since: int, i: int)
    requires Increasing(log) && 0 <= i < |log|
    ensures log[i].ts > since <==> i >= Cut(log, since)
  {
    CutSplits(log, since);
  }

  /** Every poll moves on until the bookmark has passed an event that is not walled off. */
  lemma {:induction false} Approaches(since: int, c: Call, p: Prefs, j: nat, n: nat)
    requires c.prefs == Some(p) && Increasing(Chronicle(c.tables)) && j < |Chronicle(c.tables)|
    requires Meant(p, Chronicle(c.tables)[j])
    requires !WalledOff(Chronicle(c.tables), since, PageSize(c.limit), p, j)
    ensures Position(since, c, n) > j || Position(since, c, n) >= n
    decreases n
  {
    if n > 0 {
      Approaches(since, c, p, j, n - 1);
      StandsAt(since, c, n - 1);
      assert Repeat(c, n)[..n - 1] == Repeat(c, n - 1);
      var log, m := Chronicle(c.tables), Position(since, c, n - 1);
      var to := PollAdvances(c.tables, Session(since, Repeat(c, n - 1)).bookmark, c.limit, c.prefs);
      if m <= j && to == m {
        StuckIsWalled(log, since, m, PageSize(c.limit), p, j);
      }
    }
  }

  lemma StuckIsWalled(log: seq<Event>, since: int, m: nat, size: nat, p: Prefs, j: nat)
    requires Increasing(log) && Cut(log, since) <= m <= j < |log| && Meant(p, log[j])
    requires forall i :: m <= i < PageEnd(log, m, size) ==> !Kept(Passes(Some(p)), log[i])
    ensures WalledOff(log, since, size, p, j)
  {
    AfterCut(log, since, m);
    assert m + size <= j;
    assert NoneMeant(log, m, m + size, p);
  }

  lemma NeverReached(since: int, c: Call, p: Prefs, j: nat, n: nat)
    requires c.prefs == Some(p) && Increasing(Chronicle(c.tables)) && j < |Chronicle(c.tables)|
    requires WalledOff(Chronicle(c.tables), since, PageSize(c.limit), p, j)
    ensures Position(since, c, n) <= j
  {
    var log, size := Chronicle(c.tables), PageSize(c.limit);
    var i :| 0 <= i <= i + size <= j && log[i].ts > since && NoneMeant(log, i, i + size, p);
    AfterCut(log, since, i);
    NeverPasses(since, c, n, i);
  }

  /** What `n` polls have delivered, of the events newer than the first bookmark. */
  lemma DeliveredIff(since: int, c: Call, p: Prefs, j: nat, n: nat)
    requires c.prefs == Some(p) && Increasing(Chronicle(c.tables)) && j < |Chronicle(c.tables)|
    requires Chronicle(c.tables)[j].ts > since && Meant(p, Chronicle(c.tables)[j])
    ensures Chronicle(c.tables)[j] in Session(since, Repeat(c, n)).events <==> Position(since, c, n) > j
  {
    var log := Chronicle(c.tables);
    StandsAt(since, c, n);
    AfterCut(log, since, j);
    InPart(log, Cut(log, since), Position(since, c, n), j, Passes(c.prefs));
  }

  lemma InPart(log: seq<Event>, a: nat, m: nat, j: nat, keep: Keep)
    requires Increasing(log) && a <= m <= |log| && a <= j < |log| && Kept(keep, log[j])
    ensures log[j] in Filter(log[a..m], keep) <==> j < m
  {
    var part := log[a..m];
    FilterMembers(part, keep);
    if j < m {
      assert part[j - a] == log[j];
    } else {
      forall k | 0 <= k < |part| ensures part[k] != log[j] {
        assert log[a + k].ts < log[j].ts;
      }
    }
  }

  /** On a journal of distinct times, polled again and again: an event meant for the client and
      newer than its bookmark, a close of a trade it holds for one, arrives if and only if no
      full page of newer events not meant for it stands before that event. */
  lemma ArrivesIff(since: int, c: Call, p: Prefs, j: nat)
    requires c.prefs == Some(p) && Increasing(Chronicle(c.tables)) && j < |Chronicle(c.tables)|
    requires Chronicle(c.tables)[j].ts > since && Meant(p, Chronicle(c.tables)[j])
    ensures (exists n: nat :: Chronicle(c.tables)[j] in Session(since, Repeat(c, n)).events) <==>
            !WalledOff(Chronicle(c.tables), since, PageSize(c.limit), p, j)
  {
    if WalledOff(Chronicle(c.tables), since, PageSize(c.limit), p, j) {
      forall n: nat ensures Chronicle(c.tables)[j] !in Session(since, Repeat(c, n)).events {
        NeverReached(since, c, p, j, n);
        DeliveredIff(since, c, p, j, n);
      }
    } else {
      Approaches(since, c, p, j, |Chronicle(c.tables)|);
      DeliveredIff(since, c, p, j, |Chronicle(c.tables)|);
    }
  }

  /** When a page has room for the whole journal, one poll delivers exactly that. */
  lemma OnePollDelivers(t: Tables, since: int, limit: int, p: Prefs, e: Event)
    requires |Events(t)| < PageSize(limit)
    ensures e in Poll(t, Some(since), limit, Some(p)).events <==> e in Events(t) && e.ts > since && Meant(p, e)
  {
    ReplyIsMeant(t, since, limit, p, e);
    PageIsOldest(t, since, limit);
    PageIsFresh(t, since, limit, None);
    PageIsSmall(t, since, limit);
  }

  lemma PageIsSmall(t: Tables, since: int, limit: int)
    ensures |Poll(t, Some(since), limit, None).events| <= |Events(t)|
  {
    PageIsFresh(t, since, limit, None);
    SubMultiset(Poll(t, Some(since), limit, None).events, Events(t));
  }

  lemma SubMultiset(a: seq<Event>, b: seq<Event>)
    requires multiset(a) <= multiset(b)
    ensures |a| <= |b|
  {
    assert multiset(b) == multiset(a) + (multiset(b) - multiset(a));
    assert |multiset(a)| == |a| && |multiset(b)| == |b|;
  }
}
