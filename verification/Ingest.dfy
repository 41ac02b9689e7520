/** Fetching a broker's bar history in chunks, and the per-symbol files it is merged into. */
module Ingest {
  import opened Common
  import opened Frames

  // ---------------------------------------------------------- the bar store

  function Known(file: Option<seq<Row>>): map<int, Row> {
    if file.Some? then LastWins(file.value) else map[]
  }

  /** The file after merging `bars`: what was read back, then the new rows. */
  function Merged(file: Option<seq<Row>>, bars: seq<Row>): seq<Row> {
    if file.None? then Normalize(bars) else Normalize(Normalize(file.value) + Normalize(bars))
  }

  function Added(file: Option<seq<Row>>, bars: seq<Row>): int {
    |Merged(file, bars)| - if file.None? then 0 else |Normalize(file.value)|
  }

  class BarStore {
    var files: map<string, seq<Row>>

    constructor ()
      ensures files == map[]
    {
      files := map[];
    }

    function File(symbol: string): Option<seq<Row>>
      reads this
    {
      if symbol in files then Some(files[symbol]) else None
    }

    method Write(symbol: string, bars: seq<Row>) returns (added: int)
      modifies this
      ensures symbol in files && files == old(files)[symbol := files[symbol]]
      ensures Ascending(files[symbol]) && LastWins(files[symbol]) == old(Known(File(symbol))) + LastWins(bars)
      ensures added == |LastWins(bars).Keys - old(Known(File(symbol))).Keys|
    {
      var fresh' := Normalize(bars);
      MergeIsUnion(File(symbol), bars);
      CountsNew(File(symbol), bars);
      if symbol !in files {
        files := files[symbol := fresh'];
        added := |fresh'|;
      } else {
        var existing := Normalize(files[symbol]);
        var merged := Normalize(existing + fresh');
        files := files[symbol := merged];
        added := |merged| - |existing|;
      }
    }
  }

  /** New rows win; the file is sorted with one row per timestamp. */
  lemma MergeIsUnion(file: Option<seq<Row>>, bars: seq<Row>)
    ensures Ascending(Merged(file, bars)) && LastWins(Merged(file, bars)) == Known(file) + LastWins(bars)
  {
    NormalizeSorts(bars);
    if file.None? {
      assert map[] + LastWins(bars) == LastWins(bars);
    } else {
      NormalizeSorts(file.value);
      NormalizeSorts(Normalize(file.value) + Normalize(bars));
      LastWinsConcat(Normalize(file.value), Normalize(bars));
    }
  }

  lemma DisjointSize(a: set<int>, b: set<int>)
    requires a !! b
    ensures |a + b| == |a| + |b|
  {
    assert a + b - a == b;
  }

  lemma KnownSize(file: Option<seq<Row>>)
    ensures |Known(file).Keys| == if file.None? then 0 else |Normalize(file.value)|
  {
    if file.Some? {
      NormalizeSorts(file.value);
      SizeOf(Normalize(file.value));
    }
  }

  /** The reported count is the number of timestamps not stored before. */
  lemma CountsNew(file: Option<seq<Row>>, bars: seq<Row>)
    ensures Added(file, bars) == |LastWins(bars).Keys - Known(file).Keys|
  {
    MergeIsUnion(file, bars);
    SizeOf(Merged(file, bars));
    KnownSize(file);
    UnionSize(LastWins(Merged(file, bars)).Keys, Known(file).Keys, LastWins(bars).Keys);
  }

  lemma UnionSize(all: set<int>, a: set<int>, b: set<int>)
    requires all == a + b
    ensures |all| == |a| + |b - a|
  {
    assert a + b == a + (b - a);
    DisjointSize(a, b - a);
  }

  /** Writing the same bars again adds nothing and leaves the file as it was. */
  lemma RewriteChangesNothing(file: Option<seq<Row>>, bars: seq<Row>)
    ensures var stored := Merged(file, bars);
            Merged(Some(stored), bars) == stored && Added(Some(stored), bars) == 0
  {
    var stored := Merged(file, bars);
    MergeIsUnion(file, bars);
    MergeIsUnion(Some(stored), bars);
    SameTable(Merged(Some(stored), bars), stored);
    CountsNew(Some(stored), bars);
    assert LastWins(bars).Keys - LastWins(stored).Keys == {};
  }

  // ------------------------------------------------------- chunked fetching

  /** A bar as the broker reports it, with its two volume columns. */
  datatype Raw = Raw(ts: int, ohlc: Ohlc, tick: real, exchange: real)

  /** `copy_rates_range`: both ends included. */
  function Range(h: seq<Raw>, lo: int, hi: int): seq<Raw> {
    if h == [] then []
    else
      var rest, last := Range(h[..|h| - 1], lo, hi), h[|h| - 1];
      if lo <= last.ts <= hi then rest + [last] else rest
  }

  predicate UsesExchange(raws: seq<Raw>) {
    exists i :: 0 <= i < |raws| && raws[i].exchange != 0.0
  }

  function RowOf(r: Raw, exchange: bool): Row {
    Row(r.ts, r.ohlc, if exchange then r.exchange else r.tick)
  }

  function Rows(raws: seq<Raw>, exchange: bool): seq<Row> {
    if raws == [] then [] else Rows(raws[..|raws| - 1], exchange) + [RowOf(raws[|raws| - 1], exchange)]
  }

  /** The volume column is chosen once per answer of the broker. */
  function ToFrame(raws: seq<Raw>): seq<Row> {
    Rows(raws, UsesExchange(raws))
  }

  function ChunkEnd(cursor: int, until: int, step: int): int {
    if cursor + step < until then cursor + step else until
  }

  function Chunks(h: seq<Raw>, cursor: int, until: int, step: int): seq<Row>
    requires step > 0
    decreases until - cursor
  {
    if cursor >= until then []
    else
      var end := ChunkEnd(cursor, until, step);
      ToFrame(Range(h, cursor, end)) + Chunks(h, end, until, step)
  }

  lemma NextChunk(h: seq<Raw>, all: seq<Row>, cursor: int, until: int, step: int)
    requires step > 0 && cursor < until
    ensures var end := ChunkEnd(cursor, until, step);
            all + Chunks(h, cursor, until, step) == all + ToFrame(Range(h, cursor, end)) + Chunks(h, end, until, step)
  {
  }

  /** One inclusive query over the whole range. */
  function SingleQuery(h: seq<Raw>, since: int, until: int): seq<Row> {
    Normalize(ToFrame(Range(h, since, until)))
  }

  function Fetched(h: seq<Raw>, since: int, until: int, step: int): seq<Row>
    requires step > 0
  {
    Normalize(Chunks(h, since, until, step))
  }

  class MT5Ingester {
    const chunk: int

    constructor (chunk: int)
      ensures this.chunk == chunk
    {
      this.chunk := chunk;
    }

    /** `h` is the broker's history during the call. A chunk length that is not positive
        would keep the cursor from ever reaching `until` (`CursorArrivesIff`). */
    method Fetch(h: seq<Raw>, since: int, until: int) returns (bars: seq<Row>)
      requires chunk > 0
      ensures bars == Fetched(h, since, until, chunk)
    {
      if since >= until {
        return [];
      }
      var all: seq<Row> := [];
      var cursor := since;
      while cursor < until
        invariant since <= cursor <= until
        invariant all + Chunks(h, cursor, until, chunk) == Chunks(h, since, until, chunk)
      {
        var end := ChunkEnd(cursor, until, chunk);
        var rates := Range(h, cursor, end);
        NextChunk(h, all, cursor, until, chunk);
        if rates == [] {
          assert ToFrame(rates) == [] && all + [] == all;
        } else {
          all := all + ToFrame(rates);
        }
        cursor := end;
      }
      assert all + [] == all;
      bars := Normalize(all);
    }

    /** With no `since`, resume one bar length after the newest stored bar, or 90 days
        before `now`. Nothing is written when nothing was fetched. */
    method Update(store: BarStore, symbol: string, h: seq<Raw>, since: Option<int>, bar: int, now: int)
      returns (added: int)
      requires chunk > 0
      modifies store
      ensures var file, from := old(store.File(symbol)), ResumeAt(old(store.File(symbol)), since, bar, now);
              && Known(store.File(symbol)) == Updated(file, h, from, now, chunk)
              && added == |LastWins(Fetched(h, from, now, chunk)).Keys - Known(file).Keys|
      ensures forall s :: s != symbol ==> store.File(s) == old(store.File(s))
    {
      var from := ResumeAt(store.File(symbol), since, bar, now);
      var bars := Fetch(h, from, now);
      if bars == [] {
        assert LastWins(bars).Keys - Known(store.File(symbol)).Keys == {};
        return 0;
      }
      added := store.Write(symbol, bars);
    }
  }

  const NINETY_DAYS := 90 * 86400

  function ResumeAt(file: Option<seq<Row>>, since: Option<int>, bar: int, now: int): int {
    if since.Some? then since.value
    else if file.None? || Normalize(file.value) == [] then now - NINETY_DAYS
    else Normalize(file.value)[|Normalize(file.value)| - 1].ts + bar
  }

  function Updated(file: Option<seq<Row>>, h: seq<Raw>, from: int, now: int, step: int): map<int, Row>
    requires step > 0
  {
    Known(file) + LastWins(Fetched(h, from, now, step))
  }

  // -------------------------------------------- chunking changes no bar

  /** Where the cursor stands after `n` chunks. */
  function Cursor(since: int, until: int, step: int, n: nat): int {
    if n == 0 then since else ChunkEnd(Cursor(since, until, step, n - 1), until, step)
  }

  lemma {:induction false} CursorStuck(since: int, until: int, step: int, n: nat)
    requires since < until && step <= 0
    ensures Cursor(since, until, step, n) <= since
  {
    if n > 0 {
      CursorStuck(since, until, step, n - 1);
    }
  }

  lemma {:induction false} CursorMoves(since: int, until: int, step: int, n: nat)
    requires since < until && step > 0
    ensures Cursor(since, until, step, n) >= until || Cursor(since, until, step, n) >= since + n
  {
    if n > 0 {
      CursorMoves(since, until, step, n - 1);
    }
  }

  /** The loop ends exactly when the chunk length is positive. */
  lemma CursorArrivesIff(since: int, until: int, step: int)
    requires since < until
    ensures (exists n: nat :: Cursor(since, until, step, n) >= until) <==> step > 0
  {
    if step > 0 {
      CursorMoves(since, until, step, until - since);
    } else {
      forall n: nat ensures Cursor(since, until, step, n) < until {
        CursorStuck(since, until, step, n);
      }
    }
  }

  function Look(h: seq<Raw>): map<int, Raw> {
    if h == [] then map[] else Look(h[..|h| - 1])[h[|h| - 1].ts := h[|h| - 1]]
  }

  function Window(h: seq<Raw>, lo: int, hi: int): map<int, Raw> {
    map t | t in Look(h) && lo <= t <= hi :: Look(h)[t]
  }

  lemma {:induction false} RangeIsWindow(h: seq<Raw>, lo: int, hi: int)
    ensures Look(Range(h, lo, hi)) == Window(h, lo, hi)
  {
    if h != [] {
      var front, last := h[..|h| - 1], h[|h| - 1];
      RangeIsWindow(front, lo, hi);
      var rest := Range(front, lo, hi);
      if lo <= last.ts <= hi {
        assert (rest + [last])[..|rest|] == rest;
      }
    }
  }

  function FrameMap(m: map<int, Raw>, exchange: bool): map<int, Row> {
    map t | t in m :: RowOf(m[t], exchange)
  }

  lemma {:induction false} LookKeys(h: seq<Raw>)
    ensures forall t :: t in Look(h) ==> Look(h)[t].ts == t && Look(h)[t] in h
  {
    if h != [] {
      assert h == h[..|h| - 1] + [h[|h| - 1]];
      LookKeys(h[..|h| - 1]);
    }
  }

  lemma {:induction false} RowsAre(raws: seq<Raw>, exchange: bool)
    ensures LastWins(Rows(raws, exchange)) == FrameMap(Look(raws), exchange)
  {
    if raws != [] {
      var front, last := raws[..|raws| - 1], raws[|raws| - 1];
      RowsAre(front, exchange);
      LastWinsStep(Rows(front, exchange), RowOf(last, exchange));
    }
  }

  /** Which volume column a bar at `t` is served with: that of the last chunk holding it. */
  function ServedFrom(h: seq<Raw>, cursor: int, until: int, step: int, t: int): bool
    requires step > 0
    decreases until - cursor
  {
    var end := ChunkEnd(cursor, until, step);
    if cursor >= until || t < end || end == until then UsesExchange(Range(h, cursor, end))
    else ServedFrom(h, end, until, step, t)
  }

  function ServedMap(h: seq<Raw>, cursor: int, until: int, step: int): map<int, Row>
    requires step > 0
  {
    map t | t in Window(h, cursor, until) :: RowOf(Window(h, cursor, until)[t], ServedFrom(h, cursor, until, step, t))
  }

  lemma ChunkMap(h: seq<Raw>, lo: int, hi: int)
    ensures LastWins(ToFrame(Range(h, lo, hi))) == FrameMap(Window(h, lo, hi), UsesExchange(Range(h, lo, hi)))
  {
    RangeIsWindow(h, lo, hi);
    RowsAre(Range(h, lo, hi), UsesExchange(Range(h, lo, hi)));
  }

  lemma {:induction false} ChunksServe(h: seq<Raw>, cursor: int, until: int, step: int)
    requires step > 0 && cursor < until
    ensures LastWins(Chunks(h, cursor, until, step)) == ServedMap(h, cursor, until, step)
    decreases until - cursor
  {
    var end := ChunkEnd(cursor, until, step);
    ChunkMap(h, cursor, end);
    LastWinsConcat(ToFrame(Range(h, cursor, end)), Chunks(h, end, until, step));
    if end < until {
      ChunksServe(h, end, until, step);
      JoinServed(h, cursor, until, step);
    } else {
      assert Chunks(h, end, until, step) == [];
    }
  }

  lemma JoinServed(h: seq<Raw>, cursor: int, until: int, step: int)
    requires step > 0 && cursor < until && ChunkEnd(cursor, until, step) < until
    ensures var end := ChunkEnd(cursor, until, step);
            FrameMap(Window(h, cursor, end), UsesExchange(Range(h, cursor, end))) + ServedMap(h, end, until, step)
            == ServedMap(h, cursor, until, step)
  {
  }

  function Bare(r: Row): Row {
    r.(volume := 0.0)
  }

  function Bares(rows: seq<Row>): seq<Row> {
    if rows == [] then [] else Bares(rows[..|rows| - 1]) + [Bare(rows[|rows| - 1])]
  }

  lemma {:induction false} BaresAre(rows: seq<Row>)
    ensures |Bares(rows)| == |rows| && forall i :: 0 <= i < |rows| ==> Bares(rows)[i] == Bare(rows[i])
    ensures LastWins(Bares(rows)) == map t | t in LastWins(rows) :: Bare(LastWins(rows)[t])
  {
    if rows != [] {
      var front, last := rows[..|rows| - 1], rows[|rows| - 1];
      BaresAre(front);
      LastWinsStep(Bares(front), Bare(last));
    }
  }

  /** For every positive chunk length the chunked fetch has the timestamps and prices of
      one inclusive query, each once and in order, although chunks share their ends. */
  lemma ChunkingKeepsBars(h: seq<Raw>, since: int, until: int, step: int)
    requires step > 0 && since < until
    ensures Ascending(Fetched(h, since, until, step))
    ensures Bares(Fetched(h, since, until, step)) == Bares(SingleQuery(h, since, until))
  {
    var got, single := Fetched(h, since, until, step), SingleQuery(h, since, until);
    NormalizeSorts(Chunks(h, since, until, step));
    NormalizeSorts(ToFrame(Range(h, since, until)));
    ChunksServe(h, since, until, step);
    ChunkMap(h, since, until);
    BaresAre(got);
    BaresAre(single);
    SameTable(Bares(got), Bares(single));
  }

  /** Some chunk has no exchange volume at all, yet serves a bar with tick volume. */
  ghost predicate Mixed(h: seq<Raw>, cursor: int, until: int, step: int)
    requires step > 0
    decreases until - cursor
  {
    cursor < until &&
    var end := ChunkEnd(cursor, until, step);
    || (!UsesExchange(Range(h, cursor, end)) && TickTraded(h, cursor, if end == until then end else end - 1))
    || Mixed(h, end, until, step)
  }

  ghost predicate TickTraded(h: seq<Raw>, lo: int, hi: int) {
    exists t :: t in Window(h, lo, hi) && Window(h, lo, hi)[t].tick != 0.0
  }

  lemma QuietExchange(raws: seq<Raw>, t: int)
    requires t in Look(raws) && !UsesExchange(raws)
    ensures Look(raws)[t].exchange == 0.0
  {
    LookKeys(raws);
    var i :| 0 <= i < |raws| && raws[i] == Look(raws)[t];
  }

  /** Every bar of the window is served with the volume the exchange column would give. */
  ghost predicate ServesExchange(h: seq<Raw>, cursor: int, until: int, step: int)
    requires step > 0
  {
    forall t :: t in Window(h, cursor, until) && !ServedFrom(h, cursor, until, step, t) ==>
                  Window(h, cursor, until)[t].tick == Window(h, cursor, until)[t].exchange
  }

  lemma LastChunk(h: seq<Raw>, cursor: int, until: int, step: int)
    requires step > 0 && cursor < until && ChunkEnd(cursor, until, step) == until
    ensures ServesExchange(h, cursor, until, step) <==> !Mixed(h, cursor, until, step)
  {
    RangeIsWindow(h, cursor, until);
    var raws := Range(h, cursor, until);
    if !UsesExchange(raws) {
      forall t | t in Window(h, cursor, until) ensures Window(h, cursor, until)[t].exchange == 0.0 {
        QuietExchange(raws, t);
      }
    }
  }

  lemma FirstChunk(h: seq<Raw>, cursor: int, until: int, step: int)
    requires step > 0 && cursor < until && ChunkEnd(cursor, until, step) < until
    ensures var end := ChunkEnd(cursor, until, step);
            ServesExchange(h, cursor, until, step) <==>
            && ServesExchange(h, end, until, step)
            && (UsesExchange(Range(h, cursor, end)) || !TickTraded(h, cursor, end - 1))
  {
    var end := ChunkEnd(cursor, until, step);
    if !UsesExchange(Range(h, cursor, end)) {
      QuietTicks(h, cursor, end, end - 1);
    }
    SplitServes(h, cursor, until, step);
  }

  lemma QuietTicks(h: seq<Raw>, lo: int, hi: int, last: int)
    requires last <= hi && !UsesExchange(Range(h, lo, hi))
    ensures TickIsExchange(h, lo, last) <==> !TickTraded(h, lo, last)
  {
    RangeIsWindow(h, lo, hi);
    forall t | t in Window(h, lo, last) ensures Window(h, lo, last)[t].exchange == 0.0 {
      QuietExchange(Range(h, lo, hi), t);
    }
  }

  ghost predicate TickIsExchange(h: seq<Raw>, lo: int, hi: int) {
    forall t :: t in Window(h, lo, hi) ==> Window(h, lo, hi)[t].tick == Window(h, lo, hi)[t].exchange
  }

  lemma SplitServes(h: seq<Raw>, cursor: int, until: int, step: int)
    requires step > 0 && cursor < until && ChunkEnd(cursor, until, step) < until
    ensures var end := ChunkEnd(cursor, until, step);
            ServesExchange(h, cursor, until, step) <==>
            && ServesExchange(h, end, until, step)
            && (UsesExchange(Range(h, cursor, end)) || TickIsExchange(h, cursor, end - 1))
  {
    var end := ChunkEnd(cursor, until, step);
    var last := end - 1;
    var whole, first, rest := Window(h, cursor, until), Window(h, cursor, last), Window(h, end, until);
    assert forall t :: t in whole <==> t in first || t in rest;
    assert forall t :: t in first ==>
        whole[t] == first[t] && ServedFrom(h, cursor, until, step, t) == UsesExchange(Range(h, cursor, end));
    assert forall t :: t in rest ==>
        whole[t] == rest[t] && ServedFrom(h, cursor, until, step, t) == ServedFrom(h, end, until, step, t);
    if ServesExchange(h, cursor, until, step) {
      assert ServesExchange(h, end, until, step);
      if !UsesExchange(Range(h, cursor, end)) {
        forall t | t in Window(h, cursor, last)
            ensures Window(h, cursor, last)[t].tick == Window(h, cursor, last)[t].exchange {
          assert t in first && t in whole;
        }
      }
    }
  }

  lemma {:induction false} ServesIff(h: seq<Raw>, cursor: int, until: int, step: int)
    requires step > 0 && cursor < until
    ensures ServesExchange(h, cursor, until, step) <==> !Mixed(h, cursor, until, step)
    decreases until - cursor
  {
    var end := ChunkEnd(cursor, until, step);
    if end < until {
      ServesIff(h, end, until, step);
      FirstChunk(h, cursor, until, step);
    } else {
      LastChunk(h, cursor, until, step);
    }
  }

  lemma {:induction false} RangeMember(h: seq<Raw>, lo: int, hi: int)
    ensures forall r :: r in Range(h, lo, hi) <==> r in h && lo <= r.ts <= hi
  {
    if h != [] {
      assert h == h[..|h| - 1] + [h[|h| - 1]];
      RangeMember(h[..|h| - 1], lo, hi);
    }
  }

  lemma UsesExchangeMember(raws: seq<Raw>)
    ensures UsesExchange(raws) <==> exists r :: r in raws && r.exchange != 0.0
  {
  }

  lemma WiderUses(h: seq<Raw>, lo: int, hi: int, since: int, until: int)
    requires since <= lo && hi <= until && UsesExchange(Range(h, lo, hi))
    ensures UsesExchange(Range(h, since, until))
  {
    RangeMember(h, lo, hi);
    RangeMember(h, since, until);
    UsesExchangeMember(Range(h, lo, hi));
    UsesExchangeMember(Range(h, since, until));
  }

  lemma {:induction false} ServedIsUsed(h: seq<Raw>, cursor: int, until: int, step: int, t: int, since: int)
    requires step > 0 && since <= cursor < until && ServedFrom(h, cursor, until, step, t)
    ensures UsesExchange(Range(h, since, until))
    decreases until - cursor
  {
    var end := ChunkEnd(cursor, until, step);
    if t < end || end == until {
      WiderUses(h, cursor, end, since, until);
    } else {
      ServedIsUsed(h, end, until, step, t, since);
    }
  }

  lemma TablesEqualIff(a: seq<Row>, b: seq<Row>)
    requires Ascending(a) && Ascending(b)
    ensures a == b <==> LastWins(a) == LastWins(b)
  {
    if LastWins(a) == LastWins(b) {
      SameTable(a, b);
    }
  }

  lemma ServedAgreesIff(h: seq<Raw>, since: int, until: int, step: int)
    requires step > 0 && since < until && UsesExchange(Range(h, since, until))
    ensures ServedMap(h, since, until, step) == FrameMap(Window(h, since, until), true) <==>
            ServesExchange(h, since, until, step)
  {
    var w, served, exact := Window(h, since, until), ServedMap(h, since, until, step),
        FrameMap(Window(h, since, until), true);
    assert served.Keys == exact.Keys == w.Keys;
    if served == exact {
      forall t | t in w && !ServedFrom(h, since, until, step, t) ensures w[t].tick == w[t].exchange {
        assert served[t] == exact[t];
      }
    }
  }

  /** The whole table, volumes included, equals that of one query exactly when the range
      has no exchange volume, or no chunk without any serves a bar with tick volume. */
  lemma ChunkingKeepsVolumeIff(h: seq<Raw>, since: int, until: int, step: int)
    requires step > 0 && since < until
    ensures Fetched(h, since, until, step) == SingleQuery(h, since, until) <==>
            !UsesExchange(Range(h, since, until)) || !Mixed(h, since, until, step)
  {
    NormalizeSorts(Chunks(h, since, until, step));
    NormalizeSorts(ToFrame(Range(h, since, until)));
    ChunksServe(h, since, until, step);
    ChunkMap(h, since, until);
    TablesEqualIff(Fetched(h, since, until, step), SingleQuery(h, since, until));
    if UsesExchange(Range(h, since, until)) {
      ServedAgreesIff(h, since, until, step);
      ServesIff(h, since, until, step);
    } else {
      forall t | t in Window(h, since, until) ensures !ServedFrom(h, since, until, step, t) {
        if ServedFrom(h, since, until, step, t) {
          ServedIsUsed(h, since, until, step, t, since);
        }
      }
      assert ServedMap(h, since, until, step) == FrameMap(Window(h, since, until), false);
    }
  }

  /** An empty or inverted range is answered with no bars, where the broker would still
      have answered with a bar standing exactly at both ends. */
  lemma EmptyRangeIff(h: seq<Raw>, since: int, until: int, step: int)
    requires step > 0 && since >= until
    ensures Fetched(h, since, until, step) == []
    ensures SingleQuery(h, since, until) == [] <==> since > until || since !in Look(h)
  {
    assert Chunks(h, since, until, step) == [];
    NormalizeSorts(ToFrame(Range(h, since, until)));
    ChunkMap(h, since, until);
    TablesEqualIff(SingleQuery(h, since, until), []);
    var exchange := UsesExchange(Range(h, since, until));
    assert FrameMap(Window(h, since, until), exchange).Keys == Window(h, since, until).Keys;
    if since == until && since in Look(h) {
      assert since in Window(h, since, until);
    }
  }

  /** The broker reported an exchange volume for some bar of the range. */
  ghost predicate HasExchange(h: seq<Raw>, lo: int, hi: int) {
    exists b :: b in h && lo <= b.ts <= hi && b.exchange != 0.0
  }

  ghost predicate ServesBar(r: Row, b: Raw, exchange: bool) {
    r.ts == b.ts && r.ohlc == b.ohlc && r.volume == if exchange then b.exchange else b.tick
  }

  /** The row one query serves at `t`. */
  lemma QueryAt(h: seq<Raw>, lo: int, hi: int, t: int)
    ensures t in LastWins(SingleQuery(h, lo, hi)) <==> t in Look(h) && lo <= t <= hi
    ensures t in LastWins(SingleQuery(h, lo, hi)) ==>
              Look(h)[t] in h && Look(h)[t].ts == t &&
              ServesBar(LastWins(SingleQuery(h, lo, hi))[t], Look(h)[t], UsesExchange(Range(h, lo, hi)))
  {
    NormalizeSorts(ToFrame(Range(h, lo, hi)));
    ChunkMap(h, lo, hi);
    LookKeys(h);
  }

  lemma ExchangeIff(h: seq<Raw>, lo: int, hi: int)
    ensures UsesExchange(Range(h, lo, hi)) <==> HasExchange(h, lo, hi)
  {
    RangeMember(h, lo, hi);
    UsesExchangeMember(Range(h, lo, hi));
  }

  /** What a row of one query is: a bar of the range with its own prices, and its exchange volume
      when any bar of the range has one, else its tick volume. */
  lemma QueryServes(h: seq<Raw>, lo: int, hi: int, r: Row)
    requires r in SingleQuery(h, lo, hi)
    ensures exists b :: b in h && lo <= b.ts <= hi && r.ts == b.ts && r.ohlc == b.ohlc &&
                        r.volume == if HasExchange(h, lo, hi) then b.exchange else b.tick
  {
    NormalizeSorts(ToFrame(Range(h, lo, hi)));
    OneRowPerTime(SingleQuery(h, lo, hi), r);
    QueryAt(h, lo, hi, r.ts);
    ExchangeIff(h, lo, hi);
    var b := Look(h)[r.ts];
    assert b in h && ServesBar(r, b, HasExchange(h, lo, hi));
  }

  /** Every time of the range's bars is served. */
  lemma QueryMissesNothing(h: seq<Raw>, lo: int, hi: int, b: Raw)
    requires b in h && lo <= b.ts <= hi
    ensures exists r :: r in SingleQuery(h, lo, hi) && r.ts == b.ts
  {
    InLook(h, b);
    QueryAt(h, lo, hi, b.ts);
    LastWinsKeys(SingleQuery(h, lo, hi));
  }

  lemma OneRowPerTime(rows: seq<Row>, r: Row)
    requires Ascending(rows) && r in rows
    ensures r.ts in LastWins(rows) && LastWins(rows)[r.ts] == r
  {
    LastWinsKeys(rows);
    var i :| 0 <= i < |rows| && rows[i] == r;
    var j :| 0 <= j < |rows| && rows[j] == LastWins(rows)[r.ts];
  }

  lemma {:induction false} InLook(h: seq<Raw>, b: Raw)
    requires b in h
    ensures b.ts in Look(h)
  {
    var front, last := h[..|h| - 1], h[|h| - 1];
    assert h == front + [last];
    if b != last {
      InLook(front, b);
    }
  }

  lemma NewestRow(rows: seq<Row>)
    requires Ascending(rows)
    ensures rows == [] ==> LastWins(rows) == map[]
    ensures rows != [] ==> rows[|rows| - 1].ts in LastWins(rows) &&
                           forall t :: t in LastWins(rows) ==> t <= rows[|rows| - 1].ts
  {
    LastWinsKeys(rows);
    if rows != [] {
      assert rows[|rows| - 1] in rows;
    }
  }

  /** An update starts where it is told to, else one bar length after the newest stored bar, else
      ninety days back. */
  lemma ResumesAfterNewest(file: Option<seq<Row>>, since: Option<int>, bar: int, now: int)
    ensures var from := ResumeAt(file, since, bar, now);
            if since.Some? then from == since.value
            else if Known(file) == map[] then from == now - 7776000
            else from - bar in Known(file) && forall t :: t in Known(file) ==> t <= from - bar
  {
    if file.Some? {
      NormalizeSorts(file.value);
      NewestRow(Normalize(file.value));
    }
  }

  /** Two bars, the second with exchange volume: fetched in two chunks, the first keeps its
      tick count where one query would report no volume. */
  lemma MixedVolumeExample(o: Ohlc)
    ensures var h := [Raw(0, o, 5.0, 0.0), Raw(10, o, 5.0, 7.0)];
            Fetched(h, 0, 10, 5) != SingleQuery(h, 0, 10)
  {
    var a, b := Raw(0, o, 5.0, 0.0), Raw(10, o, 5.0, 7.0);
    var h := [a, b];
    RangeMember(h, 0, 10);
    assert b in h && b in Range(h, 0, 10);
    UsesExchangeMember(Range(h, 0, 10));
    RangeMember(h, 0, 5);
    UsesExchangeMember(Range(h, 0, 5));
    assert h[..1] == [a];
    assert Look([a]) == map[0 := a];
    assert Look(h) == map[0 := a, 10 := b];
    assert 0 in Window(h, 0, 4) && Window(h, 0, 4)[0].tick != 0.0;
    ChunkingKeepsVolumeIff(h, 0, 10, 5);
  }

  // ------------------------------------------------------ resuming a file

  lemma FetchedKeys(h: seq<Raw>, from: int, now: int, step: int)
    requires step > 0
    ensures LastWins(Fetched(h, from, now, step)).Keys == if from < now then Window(h, from, now).Keys else {}
  {
    NormalizeSorts(Chunks(h, from, now, step));
    if from < now {
      ChunksServe(h, from, now, step);
      assert ServedMap(h, from, now, step).Keys == Window(h, from, now).Keys;
    } else {
      assert Chunks(h, from, now, step) == [];
    }
  }

  ghost predicate CompleteUpTo(stored: map<int, Row>, h: seq<Raw>, hi: int) {
    forall t :: t in Look(h) && t <= hi ==> t in stored
  }

  ghost predicate NoBarWithin(h: seq<Raw>, lo: int, hi: int) {
    forall t :: t in Look(h) ==> !(lo < t < hi)
  }

  /** The first timestamp an update covers, or one past `now` when it has nothing to fetch. */
  function FirstCovered(from: int, now: int): int {
    if from < now then from else now + 1
  }

  /** The bars stored after an update: those stored before and those of the covered range. */
  lemma UpdatedKeys(file: Option<seq<Row>>, h: seq<Raw>, from: int, now: int, step: int, t: int)
    requires step > 0
    ensures t in Updated(file, h, from, now, step) <==>
            t in Known(file) || (t in Look(h) && from < now && from <= t <= now)
  {
    FetchedKeys(h, from, now, step);
    assert t in LastWins(Fetched(h, from, now, step)).Keys <==> t in Look(h) && from < now && from <= t <= now;
  }

  /** A file complete up to its newest bar is complete up to `now` after an update exactly
      when no bar lies between the newest stored one and the first timestamp covered. */
  lemma UpdateCompleteIff(file: Option<seq<Row>>, h: seq<Raw>, last: int, bar: int, now: int, step: int)
    requires step > 0
    requires CompleteUpTo(Known(file), h, last) && forall t :: t in Known(file) ==> t <= last
    ensures CompleteUpTo(Updated(file, h, last + bar, now, step), h, now) <==>
            NoBarWithin(h, last, FirstCovered(last + bar, now))
  {
    forall t ensures t in Updated(file, h, last + bar, now, step) <==>
                     t in Known(file) || (t in Look(h) && last + bar < now && last + bar <= t <= now) {
      UpdatedKeys(file, h, last + bar, now, step, t);
    }
  }

  /** A stored bar is never refreshed by a later update, even one stored while it was
      still forming and whatever the broker reports for it now. */
  lemma StoredBarsStay(file: Option<seq<Row>>, h: seq<Raw>, last: int, bar: int, now: int, step: int, t: int)
    requires step > 0 && bar > 0 && t in Known(file) && t <= last
    ensures t in Updated(file, h, last + bar, now, step)
    ensures Updated(file, h, last + bar, now, step)[t] == Known(file)[t]
  {
    var from := last + bar;
    FetchedKeys(h, from, now, step);
    assert t < from;
    assert t !in LastWins(Fetched(h, from, now, step)).Keys;
  }
}
