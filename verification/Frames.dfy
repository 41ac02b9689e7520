/** Bar tables: rows indexed by timestamp, as the bar store and the ingester hold them. */
module Frames {

  datatype Ohlc = Ohlc(open: real, high: real, low: real, close: real)
  datatype Row = Row(ts: int, ohlc: Ohlc, volume: real)

  function Drop(rows: seq<Row>, ts: int): seq<Row> {
    if rows == [] then []
    else
      var rest, last := Drop(rows[..|rows| - 1], ts), rows[|rows| - 1];
      if last.ts == ts then rest else rest + [last]
  }

  /** `~index.duplicated(keep="last")`. */
  function KeepLast(rows: seq<Row>): seq<Row> {
    if rows == [] then []
    else
      var last := rows[|rows| - 1];
      Drop(KeepLast(rows[..|rows| - 1]), last.ts) + [last]
  }

  function Insert(rows: seq<Row>, r: Row): seq<Row> {
    if rows == [] || rows[|rows| - 1].ts <= r.ts then rows + [r]
    else Insert(rows[..|rows| - 1], r) + [rows[|rows| - 1]]
  }

  /** `sort_index()`. */
  function SortIndex(rows: seq<Row>): seq<Row> {
    if rows == [] then [] else Insert(SortIndex(rows[..|rows| - 1]), rows[|rows| - 1])
  }

  function Normalize(rows: seq<Row>): seq<Row> {
    SortIndex(KeepLast(rows))
  }

  /** What the rows say about each timestamp, later rows winning. */
  function LastWins(rows: seq<Row>): map<int, Row> {
    if rows == [] then map[] else LastWins(rows[..|rows| - 1])[rows[|rows| - 1].ts := rows[|rows| - 1]]
  }

  ghost predicate Ascending(rows: seq<Row>) {
    forall i, j :: 0 <= i < j < |rows| ==> rows[i].ts < rows[j].ts
  }

  lemma {:induction false} LastWinsKeys(rows: seq<Row>)
    ensures forall t :: t in LastWins(rows) ==> LastWins(rows)[t].ts == t && LastWins(rows)[t] in rows
    ensures forall r :: r in rows ==> r.ts in LastWins(rows)
  {
    if rows != [] {
      var front, last := rows[..|rows| - 1], rows[|rows| - 1];
      assert rows == front + [last];
      LastWinsKeys(front);
    }
  }

  lemma {:induction false} LastWinsConcat(a: seq<Row>, b: seq<Row>)
    ensures LastWins(a + b) == LastWins(a) + LastWins(b)
  {
    if b == [] {
      assert a + b == a;
    } else {
      assert (a + b)[..|a + b| - 1] == a + b[..|b| - 1];
      LastWinsConcat(a, b[..|b| - 1]);
    }
  }

  lemma LastWinsStep(rows: seq<Row>, r: Row)
    ensures LastWins(rows + [r]) == LastWins(rows)[r.ts := r]
  {
    assert (rows + [r])[..|rows|] == rows;
  }

  lemma {:induction false} DropRemoves(rows: seq<Row>, ts: int)
    ensures LastWins(Drop(rows, ts)) == LastWins(rows) - {ts}
    ensures |Drop(rows, ts)| <= |rows|
  {
    if rows != [] {
      var front, last := rows[..|rows| - 1], rows[|rows| - 1];
      DropRemoves(front, ts);
      if last.ts != ts {
        LastWinsStep(Drop(front, ts), last);
      }
    }
  }

  /** No two rows share a timestamp. */
  predicate Unique(rows: seq<Row>) {
    rows == [] || (rows[|rows| - 1].ts !in LastWins(rows[..|rows| - 1]) && Unique(rows[..|rows| - 1]))
  }

  lemma {:induction false} DropUnique(rows: seq<Row>, ts: int)
    requires Unique(rows)
    ensures Unique(Drop(rows, ts))
  {
    if rows != [] {
      var front, last := rows[..|rows| - 1], rows[|rows| - 1];
      DropUnique(front, ts);
      DropRemoves(front, ts);
      assert (Drop(front, ts) + [last])[..|Drop(front, ts)|] == Drop(front, ts);
    }
  }

  lemma {:induction false} KeepLastWins(rows: seq<Row>)
    ensures LastWins(KeepLast(rows)) == LastWins(rows) && Unique(KeepLast(rows))
  {
    if rows != [] {
      var front, last := rows[..|rows| - 1], rows[|rows| - 1];
      KeepLastWins(front);
      var kept := Drop(KeepLast(front), last.ts);
      DropRemoves(KeepLast(front), last.ts);
      DropUnique(KeepLast(front), last.ts);
      LastWinsStep(kept, last);
      assert (kept + [last])[..|kept|] == kept;
    }
  }

  ghost predicate AllBelow(rows: seq<Row>, bound: int) {
    forall i :: 0 <= i < |rows| ==> rows[i].ts < bound
  }

  ghost predicate KeysBelow(m: map<int, Row>, bound: int) {
    forall t :: t in m ==> t < bound
  }

  lemma {:induction false} BelowIff(rows: seq<Row>, bound: int)
    ensures AllBelow(rows, bound) <==> KeysBelow(LastWins(rows), bound)
  {
    if rows != [] {
      var front, last := rows[..|rows| - 1], rows[|rows| - 1];
      BelowIff(front, bound);
      assert AllBelow(rows, bound) <==> AllBelow(front, bound) && last.ts < bound;
      KeysBelowStep(LastWins(front), last, bound);
    }
  }

  lemma KeysBelowStep(m: map<int, Row>, r: Row, bound: int)
    ensures KeysBelow(m[r.ts := r], bound) ==> r.ts < bound
    ensures KeysBelow(m, bound) && r.ts < bound ==> KeysBelow(m[r.ts := r], bound)
    ensures KeysBelow(m[r.ts := r], bound) ==> KeysBelow(m, bound)
  {
    assert r.ts in m[r.ts := r];
    assert forall t :: t in m ==> t in m[r.ts := r];
  }

  lemma AppendAscending(rows: seq<Row>, r: Row)
    requires Ascending(rows) && AllBelow(rows, r.ts)
    ensures Ascending(rows + [r])
  {
  }

  lemma FrontBelowLast(rows: seq<Row>, r: Row)
    requires Ascending(rows) && r.ts !in LastWins(rows)
    ensures rows != [] ==> AllBelow(rows[..|rows| - 1], rows[|rows| - 1].ts) && rows[|rows| - 1].ts != r.ts
    ensures (rows == [] || rows[|rows| - 1].ts <= r.ts) ==> AllBelow(rows, r.ts)
  {
    if rows != [] {
      assert rows[|rows| - 1].ts in LastWins(rows);
    }
  }

  lemma UpdatesCommute(m: map<int, Row>, a: Row, b: Row)
    requires a.ts != b.ts
    ensures m[a.ts := a][b.ts := b] == m[b.ts := b][a.ts := a]
  {
  }

  lemma {:induction false} InsertSorts(rows: seq<Row>, r: Row)
    requires Ascending(rows) && r.ts !in LastWins(rows)
    ensures Ascending(Insert(rows, r)) && LastWins(Insert(rows, r)) == LastWins(rows)[r.ts := r]
  {
    FrontBelowLast(rows, r);
    if rows == [] || rows[|rows| - 1].ts <= r.ts {
      LastWinsStep(rows, r);
      AppendAscending(rows, r);
    } else {
      var front, last := rows[..|rows| - 1], rows[|rows| - 1];
      InsertSorts(front, r);
      LastWinsStep(Insert(front, r), last);
      BelowIff(front, last.ts);
      KeysBelowStep(LastWins(front), r, last.ts);
      BelowIff(Insert(front, r), last.ts);
      AppendAscending(Insert(front, r), last);
      UpdatesCommute(LastWins(front), r, last);
    }
  }

  lemma {:induction false} SortIndexSorts(rows: seq<Row>)
    requires Unique(rows)
    ensures Ascending(SortIndex(rows)) && LastWins(SortIndex(rows)) == LastWins(rows)
  {
    if rows != [] {
      SortIndexSorts(rows[..|rows| - 1]);
      InsertSorts(SortIndex(rows[..|rows| - 1]), rows[|rows| - 1]);
    }
  }

  /** Normalising sorts strictly and keeps, for each timestamp, the last row given. */
  lemma NormalizeSorts(rows: seq<Row>)
    ensures Ascending(Normalize(rows)) && LastWins(Normalize(rows)) == LastWins(rows)
  {
    KeepLastWins(rows);
    SortIndexSorts(KeepLast(rows));
  }

  /** The last row of a sorted table is what the table says about its greatest timestamp. */
  lemma TopRow(a: seq<Row>)
    requires Ascending(a) && a != []
    ensures var front, last := a[..|a| - 1], a[|a| - 1];
            && last.ts in LastWins(a) && LastWins(a)[last.ts] == last
            && (forall t :: t in LastWins(a) ==> t <= last.ts)
            && LastWins(front) == LastWins(a) - {last.ts}
  {
    var front, last := a[..|a| - 1], a[|a| - 1];
    BelowIff(front, last.ts);
    assert forall t :: t in LastWins(a) ==> t in LastWins(front) || t == last.ts;
  }

  /** A sorted table is determined by what it says about each timestamp. */
  lemma {:induction false} SameTable(a: seq<Row>, b: seq<Row>)
    requires Ascending(a) && Ascending(b) && LastWins(a) == LastWins(b)
    ensures a == b
  {
    if a != [] {
      TopRow(a);
    }
    if b != [] {
      TopRow(b);
    }
    if a != [] {
      SameTable(a[..|a| - 1], b[..|b| - 1]);
      assert a == a[..|a| - 1] + [a[|a| - 1]] && b == b[..|b| - 1] + [b[|b| - 1]];
    }
  }

  lemma {:induction false} SizeOf(a: seq<Row>)
    requires Ascending(a)
    ensures |a| == |LastWins(a).Keys|
  {
    if a != [] {
      var front := a[..|a| - 1];
      SizeOf(front);
      TopRow(a);
      assert LastWins(a).Keys == LastWins(front).Keys + {a[|a| - 1].ts};
    }
  }
}
