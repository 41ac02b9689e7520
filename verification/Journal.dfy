/** The SQLite trade journal: two tables, one statement per operation. */
module Journal {
  import opened Common
  import opened Orders

  datatype Row = Row(id: int, symbol: string, side: Side, lot: real, entry: real, stop: real, target: real,
                     strategy: string, status: Status, openedAt: int, exit: Option<real>, closedAt: Option<int>,
                     pnl: real, reason: Option<string>, ticket: Option<int>)

  datatype ModRow = ModRow(tradeId: int, ts: int, stop: Option<real>, target: Option<real>)

  /** What the broker's history says about a finished position. */
  datatype CloseInfo = CloseInfo(exit: real, at: int, pnl: real)

  function HasId(rows: seq<Row>, id: int): bool {
    exists i :: 0 <= i < |rows| && rows[i].id == id
  }

  predicate IsOpen(r: Row) {
    r.status == OPEN && r.closedAt.None? && r.ticket.Some?
  }

  function OpenRow(o: OrderV): Row {
    Row(o.id, o.symbol, o.side, o.lot, o.entry, o.stop, o.target, o.strategy, o.status, o.openedAt,
        None, None, 0.0, None, o.ticket)
  }

  /** `UPDATE trades SET ... WHERE ...`, as one pass over the table. */
  function Updated(rows: seq<Row>, f: Row -> Row): (r: seq<Row>)
    ensures |r| == |rows| && forall i :: 0 <= i < |rows| ==> r[i] == f(rows[i])
  {
    seq(|rows|, i requires 0 <= i < |rows| => f(rows[i]))
  }

  /** A level that was not given leaves its column alone. */
  function Adjusted(r: Row, stop: Option<real>, target: Option<real>): Row {
    r.(stop := stop.GetOr(r.stop), target := target.GetOr(r.target))
  }

  function Modified(rows: seq<Row>, id: int, stop: Option<real>, target: Option<real>): seq<Row> {
    Updated(rows, (r: Row) => if r.id == id then Adjusted(r, stop, target) else r)
  }

  function Finished(r: Row, o: OrderV, reason: string, now: int): Row {
    r.(status := o.status, exit := o.exit, closedAt := Some(now), pnl := o.pnl, reason := Some(reason))
  }

  function ClosedById(rows: seq<Row>, o: OrderV, reason: string, now: int): seq<Row> {
    Updated(rows, (r: Row) => if r.id == o.id then Finished(r, o, reason, now) else r)
  }

  function MarkedClosed(r: Row, info: CloseInfo): Row {
    r.(status := CLOSED, exit := Some(info.exit), closedAt := Some(info.at), pnl := info.pnl,
       reason := if r.reason.Some? then r.reason else Some("reconciled_from_mt5"))
  }

  function ClosedByTicket(rows: seq<Row>, ticket: int, info: CloseInfo): seq<Row> {
    Updated(rows, (r: Row) => if r.ticket == Some(ticket) && r.status == OPEN then MarkedClosed(r, info) else r)
  }

  function ListOpen(rows: seq<Row>): (r: seq<Row>)
    ensures forall x :: x in r <==> x in rows && x.status == OPEN && x.closedAt == None && x.ticket != None
  {
    if rows == [] then []
    else
      var rest := ListOpen(rows[..|rows| - 1]);
      var last := rows[|rows| - 1];
      assert rows == rows[..|rows| - 1] + [last];
      if IsOpen(last) then rest + [last] else rest
  }

  /** What a row says about how the trade was opened. */
  predicate SameEntry(a: Row, b: Row) {
    && a.id == b.id && a.symbol == b.symbol && a.side == b.side && a.lot == b.lot && a.entry == b.entry
    && a.stop == b.stop && a.target == b.target && a.strategy == b.strategy
    && a.openedAt == b.openedAt && a.ticket == b.ticket
  }

  class TradeJournal {
    var rows: seq<Row>
    var mods: seq<ModRow>

    constructor ()
      ensures rows == [] && mods == []
    {
      rows, mods := [], [];
    }

    /** `id` is the primary key: inserting a taken id raises. */
    method RecordOpen(o: OrderV) returns (raised: bool)
      modifies this`rows
      ensures raised <==> HasId(old(rows), o.id)
      ensures rows == if raised then old(rows) else old(rows) + [OpenRow(o)]
    {
      if HasId(rows, o.id) {
        return true;
      }
      rows := rows + [OpenRow(o)];
      return false;
    }

    /** Rows of other trades, and every column but the given levels, stay. */
    method RecordModify(id: int, stop: Option<real>, target: Option<real>, now: int)
      modifies this
      ensures |rows| == |old(rows)| && forall i :: 0 <= i < |rows| ==>
                if old(rows)[i].id != id then rows[i] == old(rows)[i]
                else
                  && rows[i] == old(rows)[i].(stop := rows[i].stop, target := rows[i].target)
                  && rows[i].stop == (if stop.Some? then stop.value else old(rows)[i].stop)
                  && rows[i].target == if target.Some? then target.value else old(rows)[i].target
      ensures rows == Modified(old(rows), id, stop, target)
      ensures mods == old(mods) + [ModRow(id, now, stop, target)]
    {
      mods := mods + [ModRow(id, now, stop, target)];
      rows := Modified(rows, id, stop, target);
    }

    /** Overwrites the outcome columns of the trade, whatever they held, and no others. */
    method RecordClose(o: OrderV, reason: string, now: int)
      modifies this`rows
      ensures |rows| == |old(rows)| && forall i :: 0 <= i < |rows| ==>
                if old(rows)[i].id != o.id then rows[i] == old(rows)[i]
                else
                  && rows[i].status == o.status && rows[i].exit == o.exit && rows[i].closedAt == Some(now)
                  && rows[i].pnl == o.pnl && rows[i].reason == Some(reason)
                  && SameEntry(rows[i], old(rows)[i])
      ensures rows == ClosedById(old(rows), o, reason, now)
    {
      rows := ClosedById(rows, o, reason, now);
    }

    /** Only rows still marked open are settled; a recorded reason survives. */
    method MarkClosedByTicket(ticket: int, info: CloseInfo)
      modifies this`rows
      ensures |rows| == |old(rows)| && forall i :: 0 <= i < |rows| ==>
                if old(rows)[i].ticket != Some(ticket) || old(rows)[i].status != OPEN then rows[i] == old(rows)[i]
                else
                  && rows[i].status == CLOSED && rows[i].exit == Some(info.exit) && rows[i].closedAt == Some(info.at)
                  && rows[i].pnl == info.pnl && SameEntry(rows[i], old(rows)[i])
                  && (old(rows)[i].reason.Some? ==> rows[i].reason == old(rows)[i].reason)
      ensures rows == ClosedByTicket(old(rows), ticket, info)
    {
      rows := ClosedByTicket(rows, ticket, info);
    }
  }

  /** Settling a ticket twice changes nothing the second time. */
  lemma MarkIsIdempotent(rows: seq<Row>, ticket: int, a: CloseInfo, b: CloseInfo)
    ensures ClosedByTicket(ClosedByTicket(rows, ticket, a), ticket, b) == ClosedByTicket(rows, ticket, a)
  {
    var once := ClosedByTicket(rows, ticket, a);
    var twice := ClosedByTicket(once, ticket, b);
    forall i | 0 <= i < |rows| ensures twice[i] == once[i] {
    }
  }
}
