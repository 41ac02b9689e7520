/** The bot against a live broker: positions, journal rows and the ledger under any
    interleaving of bot closes, refusals, broker-side closes, failed position queries,
    reconciliation rounds and restarts. */
module Live {
  import opened Common
  import opened Orders
  import opened PositionSizing
  import opened Journal
  import opened Risk
  import opened Mt5
  import opened BotModel

  /** What the bot keeps: journal, ledger, and the log of tickets it refunded. */
  datatype Books = Books(rows: seq<Row>, risk: RiskState, refunded: seq<int>)

  datatype Position = Position(symbol: string, side: Side)

  /** The bot's books beside the broker's truth: live positions by ticket, and deal history. */
  datatype World = World(books: Books, live: map<int, Position>, history: map<int, seq<Deal>>)

  datatype CloseOutcome = Done(pnl: real) | RefusedStillOpen | RefusedButGone

  /** `queryOk`: whether the position query behind the opposite-side guard was answered. */
  datatype Event =
    | Opens(order: OrderV, booked: real, deal: Deal, queryOk: bool)
    | BotCloses(order: OrderV, reason: CloseReason, outcome: CloseOutcome, deal: Deal, now: int)
    | BrokerCloses(ticket: int, deal: Deal)
    | PartlyCloses(ticket: int, deal: Deal)
    | Reconciles(queryOk: bool, foreign: set<int>, landed: set<int>, balance: real)
    | Restarts(listOk: bool, balance: real)

  // ------------------------------------------------------ the bot's side

  /** Journal and book a filled order. */
  function BookOpen(k: Books, o: OrderV, booked: real): Books {
    k.(rows := k.rows + [OpenRow(o)], risk := Opened(k.risk, booked))
  }

  /** `_close_order` once the broker confirmed. */
  function BookClose(lim: RiskLimits, k: Books, o: OrderV, reason: CloseReason, now: int): Books {
    k.(rows := ClosedById(k.rows, o, ReasonText(reason), now),
       risk := Closed(k.risk, Refund(lim, o.extra), o.pnl),
       refunded := k.refunded + [o.id])
  }

  /** What a confirmed close leaves in the books: the rows of its id tell outcome, time and level,
      the day takes the profit, one trade is counted out, and the heat gets its risk back. */
  lemma CloseBooks(lim: RiskLimits, k: Books, o: OrderV, reason: CloseReason, now: int)
    ensures var k' := BookClose(lim, k, o, reason, now);
            && |k'.rows| == |k.rows|
            && (forall i :: 0 <= i < |k.rows| ==>
                  if k.rows[i].id != o.id then k'.rows[i] == k.rows[i]
                  else
                    && k'.rows[i].status == o.status && k'.rows[i].exit == o.exit && k'.rows[i].pnl == o.pnl
                    && k'.rows[i].closedAt == Some(now) && SameEntry(k.rows[i], k'.rows[i])
                    && k'.rows[i].reason == Some(if reason == Stop then "stop" else "target"))
            && k'.risk.dailyPnl == k.risk.dailyPnl + o.pnl
            && k'.risk.count == (if k.risk.count > 0 then k.risk.count - 1 else 0)
            && GivesBack(lim, o.extra, k.risk.heat, k'.risk.heat) && k'.refunded == k.refunded + [o.id]
  {
  }

  /** One open row against the tickets the position query returned. */
  function ReconcileRow(pips: string -> Instrument, k: Books, r: Row, seen: set<int>,
                        view: int -> Option<CloseInfo>, balance: real): Books
  {
    if r.ticket.None? || r.ticket.value == 0 || r.ticket.value in seen then k
    else
      match view(r.ticket.value)
      case None => k
      case Some(info) =>
        k.(rows := ClosedByTicket(k.rows, r.ticket.value, info),
           risk := Closed(k.risk, RiskEstimate(r.entry, r.stop, r.lot, pips(r.symbol), balance), info.pnl),
           refunded := k.refunded + [r.ticket.value])
  }

  /** What one round does for one listed row. Nothing unless its ticket is set, absent from the
      query and closed in the broker's history. Then the ticket's open rows take price, time and
      profit from the history, the ledger takes the profit and counts one trade out, and the heat
      drops by the share of the balance between the row's entry and its stop. */
  lemma ReconcilesAs(pips: string -> Instrument, k: Books, r: Row, seen: set<int>,
                     view: int -> Option<CloseInfo>, balance: real)
    ensures var k' := ReconcileRow(pips, k, r, seen, view, balance);
            if r.ticket == None || r.ticket == Some(0) || r.ticket.value in seen || view(r.ticket.value) == None then
              k' == k
            else
              var info := view(r.ticket.value).value;
              && |k'.rows| == |k.rows|
              && (forall i :: 0 <= i < |k.rows| ==> SettledAs(k.rows[i], k'.rows[i], r.ticket, info))
              && k'.risk.dailyPnl == k.risk.dailyPnl + info.pnl
              && k'.risk.count == (if k.risk.count > 0 then k.risk.count - 1 else 0)
              && HeatDrops(k.risk.heat, k'.risk.heat, r, pips(r.symbol), balance)
              && k'.refunded == k.refunded + [r.ticket.value]
  {
  }

  predicate SettledAs(r: Row, r': Row, ticket: Option<int>, info: CloseInfo) {
    if r.ticket != ticket || r.status != OPEN then r' == r
    else
      && r'.status == CLOSED && r'.exit == Some(info.exit) && r'.closedAt == Some(info.at) && r'.pnl == info.pnl
      && SameEntry(r, r')
  }

  predicate HeatDrops(heat: real, heat': real, r: Row, ins: Instrument, balance: real) {
    var part := StopShare(r, ins, balance);
    heat' == if heat > part then heat - part else 0.0
  }

  function ReconcileRows(pips: string -> Instrument, k: Books, open: seq<Row>, seen: set<int>,
                         view: int -> Option<CloseInfo>, balance: real): Books
  {
    if open == [] then k
    else ReconcileRow(pips, ReconcileRows(pips, k, open[..|open| - 1], seen, view, balance),
                      open[|open| - 1], seen, view, balance)
  }

  /** The rows are listed once, before any is settled. */
  function Reconcile(pips: string -> Instrument, k: Books, seen: set<int>,
                     view: int -> Option<CloseInfo>, balance: real): Books
  {
    ReconcileRows(pips, k, ListOpen(k.rows), seen, view, balance)
  }

  class LiveBot {
    const limits: RiskLimits
    const executor: MT5Executor
    const risk: RiskManager
    const journal: TradeJournal
    var retryAfter: map<int, real>
    ghost var refunded: seq<int>

    ghost predicate Valid() {
      risk.limits == limits
    }

    ghost function Abs(): Books
      reads this, risk, journal
    {
      Books(journal.rows, risk.state, refunded)
    }

    constructor (limits: RiskLimits, pips: string -> Instrument)
      ensures Valid() && Abs() == Books([], NEW_STATE, [])
      ensures fresh(executor) && fresh(risk) && fresh(journal)
    {
      this.limits := limits;
      executor := new MT5Executor(pips);
      risk := new RiskManager(limits, None);
      journal := new TradeJournal();
      retryAfter, refunded := map[], [];
    }

    /** A refused close touches neither journal nor ledger; it only starts the
        cooldown of that ticket. */
    method CloseOrder(order: Order, reason: CloseReason, a: CloseAnswers, now: int, monotonic: real)
      requires Valid()
      modifies order, this`retryAfter, this`refunded, risk, journal`rows
      ensures Valid()
      ensures CloseSucceeds(old(order.ticket), a) ==> Abs() == BookClose(limits, old(Abs()), order.Val(), reason, now)
      ensures !CloseSucceeds(old(order.ticket), a) ==> Abs() == old(Abs())
      ensures order.Val() == LiveClosed(old(order.Val()), a, executor.pips(order.symbol))
      ensures var key := if order.ticket.Some? && order.ticket.value != 0 then order.ticket.value else order.id;
              retryAfter == if CloseSucceeds(old(order.ticket), a) then old(retryAfter) - {key}
                            else old(retryAfter)[key := monotonic + 30.0]
    {
      executor.Close(order, a);
      var key := if order.ticket.Some? && order.ticket.value != 0 then order.ticket.value else order.id;
      if order.status != CLOSED {
        retryAfter := retryAfter[key := monotonic + 30.0];
        return;
      }
      retryAfter := retryAfter - {key};
      journal.RecordClose(order.Val(), ReasonText(reason), now);
      var refund := if order.extra.booked.Some? then order.extra.booked.value
                    else limits.riskPerTrade * if order.extra.weight.Some? then order.extra.weight.value else 1.0;
      risk.RegisterClosed(refund, order.pnl);
      refunded := refunded + [order.id];
    }

    method ReconcileJournal(pips: string -> Instrument, seen: set<int>, view: int -> Option<CloseInfo>, balance: real)
      modifies this`refunded, risk, journal`rows
      ensures Abs() == Reconcile(pips, old(Abs()), seen, view, balance)
    {
      var open := ListOpen(journal.rows);
      ghost var k := Abs();
      for i := 0 to |open|
        invariant Abs() == ReconcileRows(pips, k, open[..i], seen, view, balance)
      {
        assert open[..i + 1][..i] == open[..i];
        var row := open[i];
        if row.ticket.None? || row.ticket.value == 0 {
          continue;
        }
        if row.ticket.value in seen {
          continue;
        }
        var info := view(row.ticket.value);
        if info.None? {
          continue;
        }
        journal.MarkClosedByTicket(row.ticket.value, info.value);
        risk.RegisterClosed(RiskEstimate(row.entry, row.stop, row.lot, pips(row.symbol), balance), info.value.pnl);
        refunded := refunded + [row.ticket.value];
      }
      assert open[..|open|] == open;
    }

    /** Rebuilding a new process's ledger; `listOk` is whether the journal answered. */
    method SeedRiskState(pips: string -> Instrument, listOk: bool, balance: real)
      requires risk.state == NEW_STATE
      modifies risk
      ensures risk.state == if listOk then Seeded(journal.rows, pips, balance) else NEW_STATE
    {
      if !listOk {
        return;
      }
      var open := ListOpen(journal.rows);
      for i := 0 to |open|
        invariant risk.state == SeededFrom(open[..i], pips, balance)
      {
        assert open[..i + 1][..i] == open[..i];
        var r := open[i];
        risk.RegisterOpened(RiskEstimate(r.entry, r.stop, r.lot, pips(r.symbol), balance));
      }
      assert open[..|open|] == open;
    }
  }

  // ------------------------------------------------------------ the world

  /** Close information as the terminal's history shows it right now. */
  function View(w: World, landed: set<int>): int -> Option<CloseInfo> {
    t => if t in landed && t in w.history then FetchCloseInfo(w.history[t]) else None
  }

  function AddDeal(w: World, t: int, d: Deal): map<int, seq<Deal>> {
    w.history[t := (if t in w.history then w.history[t] else []) + [d]]
  }

  /** `open_orders`: the bot's positions, or none when the query failed. */
  function OpenOrders(w: World, queryOk: bool): map<int, Position> {
    if queryOk then w.live else map[]
  }

  /** Some position stands against an order on this symbol and side. */
  predicate Against(open: map<int, Position>, symbol: string, side: Side) {
    exists t :: t in open && open[t].symbol == symbol && open[t].side != side
  }

  /** A fill the broker can report: a ticket never used before and an opening deal. */
  predicate Fresh(w: World, o: OrderV, d: Deal) {
    && o.ticket == Some(o.id) && o.id > 0 && o.status == OPEN
    && !HasId(w.books.rows, o.id) && o.id !in w.history && d.entry == In
  }

  function WithPosition(w: World, o: OrderV, booked: real, d: Deal): World {
    w.(books := BookOpen(w.books, o, booked),
       live := w.live[o.id := Position(o.symbol, o.side)],
       history := w.history[o.id := [d]])
  }

  /** The guard asks `open_orders` before anything is sent. A close is of a live position and
      adds a closing deal. Events that do not fit the broker's state do nothing. */
  function Apply(lim: RiskLimits, pips: string -> Instrument, w: World, e: Event): World {
    match e
    case Opens(o, booked, d, queryOk) =>
      if !Fresh(w, o, d) || Against(OpenOrders(w, queryOk), o.symbol, o.side) then w
      else WithPosition(w, o, booked, d)
    case BotCloses(o, reason, outcome, d, now) =>
      if o.id !in w.live || !Closes(d) || o.status != OPEN then w
      else (
        match outcome
        case RefusedStillOpen => w
        case RefusedButGone => w.(live := w.live - {o.id}, history := AddDeal(w, o.id, d))
        case Done(pnl) =>
          w.(books := BookClose(lim, w.books, o.(status := CLOSED, exit := Some(d.price), pnl := pnl), reason, now),
             live := w.live - {o.id}, history := AddDeal(w, o.id, d)))
    case BrokerCloses(t, d) =>
      if t in w.live && Closes(d) then w.(live := w.live - {t}, history := AddDeal(w, t, d)) else w
    case PartlyCloses(t, d) =>
      if t in w.live && Closes(d) then w.(history := AddDeal(w, t, d)) else w
    case Reconciles(queryOk, foreign, landed, balance) =>
      w.(books := Reconcile(pips, w.books, Seen(w, queryOk, foreign), View(w, landed), balance))
    case Restarts(listOk, balance) =>
      w.(books := w.books.(risk := if listOk then Seeded(w.books.rows, pips, balance) else NEW_STATE))
  }

  /** `list_open_position_tickets`: every ticket on the account, the bot's or not; a
      failed query is indistinguishable from an empty account. */
  function Seen(w: World, queryOk: bool, foreign: set<int>): set<int> {
    if queryOk then w.live.Keys + (foreign - w.history.Keys) else {}
  }

  function Run(lim: RiskLimits, pips: string -> Instrument, w: World, es: seq<Event>): World {
    if es == [] then w else Apply(lim, pips, Run(lim, pips, w, es[..|es| - 1]), es[|es| - 1])
  }

  const START := World(Books([], NEW_STATE, []), map[], map[])

  // -------------------------------------------------------- the invariant

  ghost predicate RowOk(r: Row) {
    r.ticket == Some(r.id) && r.id > 0 && r.status in {OPEN, CLOSED} && (r.status == OPEN <==> r.closedAt.None?)
  }

  ghost predicate RowsOk(rows: seq<Row>) {
    && (forall i :: 0 <= i < |rows| ==> RowOk(rows[i]))
    && (forall i, j :: 0 <= i < j < |rows| ==> rows[i].id != rows[j].id)
  }

  predicate OpenIn(rows: seq<Row>, t: int) {
    exists i :: 0 <= i < |rows| && rows[i].id == t && rows[i].status == OPEN
  }

  predicate ClosedIn(rows: seq<Row>, t: int) {
    exists i :: 0 <= i < |rows| && rows[i].id == t && rows[i].status == CLOSED
  }

  /** The count is the number of open rows, and a trade has been refunded once if its
      row is closed and never otherwise. */
  ghost predicate BooksOk(k: Books) {
    && RowsOk(k.rows)
    && k.risk.count == |ListOpen(k.rows)|
    && (forall t :: multiset(k.refunded)[t] == if ClosedIn(k.rows, t) then 1 else 0)
  }

  /** The books are in order and no live position's row is closed. */
  ghost predicate Sound(w: World) {
    BooksOk(w.books) && forall t :: t in w.live ==> OpenIn(w.books.rows, t)
  }

  /** No live position has a closing deal. */
  ghost predicate Uncut(w: World) {
    forall t :: t in w.live && t in w.history ==> FetchCloseInfo(w.history[t]) == None
  }

  // ------------------------------------------------------- closing one row

  lemma {:induction false} ListOpenUpdate(rows: seq<Row>, i: nat, r: Row)
    requires i < |rows| && IsOpen(rows[i]) && !IsOpen(r)
    ensures |ListOpen(rows[i := r])| == |ListOpen(rows)| - 1
  {
    var n := |rows| - 1;
    assert rows == rows[..n] + [rows[n]];
    ListOpenSize(rows[..n], rows[n]);
    if i == n {
      assert rows[i := r] == rows[..n] + [r];
      ListOpenSize(rows[..n], r);
    } else {
      assert rows[i := r] == rows[..n][i := r] + [rows[n]];
      ListOpenSize(rows[..n][i := r], rows[n]);
      ListOpenUpdate(rows[..n], i, r);
    }
  }

  lemma ListOpenSize(rows: seq<Row>, r: Row)
    ensures |ListOpen(rows + [r])| == |ListOpen(rows)| + if IsOpen(r) then 1 else 0
  {
    assert (rows + [r])[..|rows|] == rows;
  }

  /** Effect of closing the row with a given id, whoever does it. */
  ghost predicate RowClosed(rows: seq<Row>, rows': seq<Row>, t: int) {
    && RowsOk(rows')
    && |ListOpen(rows')| == |ListOpen(rows)| - 1
    && (forall x :: ClosedIn(rows', x) <==> ClosedIn(rows, x) || x == t)
    && (forall x :: OpenIn(rows', x) <==> OpenIn(rows, x) && x != t)
  }

  lemma ClosedAfter(rows: seq<Row>, i: nat, r: Row, x: int)
    requires i < |rows| && rows[i].status == OPEN && r.status == CLOSED
    ensures ClosedIn(rows[i := r], x) <==> ClosedIn(rows, x) || x == r.id
  {
    var rows' := rows[i := r];
    assert forall k :: 0 <= k < |rows| && k != i ==> rows'[k] == rows[k];
    assert rows'[i] == r;
    if ClosedIn(rows, x) {
      var k :| 0 <= k < |rows| && rows[k].id == x && rows[k].status == CLOSED;
      assert rows'[k].id == x && rows'[k].status == CLOSED;
    }
  }

  lemma OpenAfter(rows: seq<Row>, i: nat, r: Row, x: int)
    requires RowsOk(rows) && i < |rows| && rows[i].status == OPEN && r.id == rows[i].id && r.status == CLOSED
    ensures OpenIn(rows[i := r], x) <==> OpenIn(rows, x) && x != r.id
  {
    var rows' := rows[i := r];
    assert forall k :: 0 <= k < |rows| && k != i ==> rows'[k] == rows[k];
    if OpenIn(rows, x) && x != r.id {
      var k :| 0 <= k < |rows| && rows[k].id == x && rows[k].status == OPEN;
      assert rows'[k].id == x && rows'[k].status == OPEN;
    }
  }

  lemma ClosingOneRow(rows: seq<Row>, i: nat, r: Row)
    requires RowsOk(rows) && i < |rows| && rows[i].status == OPEN
    requires RowOk(r) && r.id == rows[i].id && r.status == CLOSED
    ensures RowClosed(rows, rows[i := r], r.id)
  {
    ListOpenUpdate(rows, i, r);
    forall x ensures ClosedIn(rows[i := r], x) <==> ClosedIn(rows, x) || x == r.id {
      ClosedAfter(rows, i, r, x);
    }
    forall x ensures OpenIn(rows[i := r], x) <==> OpenIn(rows, x) && x != r.id {
      OpenAfter(rows, i, r, x);
    }
  }

  lemma CloseById(rows: seq<Row>, o: OrderV, reason: string, now: int)
    requires RowsOk(rows) && OpenIn(rows, o.id) && o.status == CLOSED
    ensures RowClosed(rows, ClosedById(rows, o, reason, now), o.id)
  {
    var i :| 0 <= i < |rows| && rows[i].id == o.id && rows[i].status == OPEN;
    var rows' := ClosedById(rows, o, reason, now);
    assert rows' == rows[i := rows'[i]];
    ClosingOneRow(rows, i, rows'[i]);
  }

  lemma CloseByTicket(rows: seq<Row>, t: int, info: CloseInfo)
    requires RowsOk(rows) && OpenIn(rows, t)
    ensures RowClosed(rows, ClosedByTicket(rows, t, info), t)
  {
    var i :| 0 <= i < |rows| && rows[i].id == t && rows[i].status == OPEN;
    var rows' := ClosedByTicket(rows, t, info);
    forall k | 0 <= k < |rows| ensures rows'[k] == rows[i := rows'[i]][k] {
      assert RowOk(rows[k]);
    }
    assert rows' == rows[i := rows'[i]];
    ClosingOneRow(rows, i, rows'[i]);
  }

  lemma OpenNotClosed(rows: seq<Row>, t: int)
    requires RowsOk(rows) && OpenIn(rows, t)
    ensures !ClosedIn(rows, t)
  {
  }

  /** Closing a row and refunding its ticket once keeps the books in order. */
  lemma CloseKeepsBooks(k: Books, k': Books, t: int)
    requires BooksOk(k) && OpenIn(k.rows, t) && RowClosed(k.rows, k'.rows, t)
    requires k'.refunded == k.refunded + [t]
    requires k'.risk.count == if k.risk.count - 1 > 0 then k.risk.count - 1 else 0
    ensures BooksOk(k')
  {
    OpenNotClosed(k.rows, t);
    assert multiset(k'.refunded) == multiset(k.refunded) + multiset{t};
  }

  // -------------------------------------------------------- reconciliation

  /** What a round is supposed to do to the row of `t`. */
  predicate Settles(t: int, seen: set<int>, view: int -> Option<CloseInfo>) {
    t !in seen && view(t).Some?
  }

  lemma ReconcileOne(pips: string -> Instrument, k: Books, r: Row, seen: set<int>,
                     view: int -> Option<CloseInfo>, balance: real)
    requires BooksOk(k) && RowOk(r) && OpenIn(k.rows, r.id)
    ensures var k' := ReconcileRow(pips, k, r, seen, view, balance);
            BooksOk(k') && if Settles(r.id, seen, view) then RowClosed(k.rows, k'.rows, r.id) else k' == k
  {
    if Settles(r.id, seen, view) {
      CloseByTicket(k.rows, r.id, view(r.id).value);
      CloseKeepsBooks(k, ReconcileRow(pips, k, r, seen, view, balance), r.id);
    }
  }

  ghost predicate IsListed(open: seq<Row>, t: int) {
    exists j :: 0 <= j < |open| && open[j].id == t
  }

  /** `rows'` is `rows` with exactly the listed rows that settle closed. */
  ghost predicate Settled(rows: seq<Row>, rows': seq<Row>, open: seq<Row>, seen: set<int>,
                          view: int -> Option<CloseInfo>) {
    && (forall t :: OpenIn(rows', t) <==> OpenIn(rows, t) && !(IsListed(open, t) && Settles(t, seen, view)))
    && (forall t :: ClosedIn(rows', t) <==> ClosedIn(rows, t) || (IsListed(open, t) && Settles(t, seen, view)))
  }

  lemma SettleOneMore(rows: seq<Row>, rows1: seq<Row>, rows': seq<Row>, rest: seq<Row>, r: Row,
                      seen: set<int>, view: int -> Option<CloseInfo>)
    requires Settled(rows, rows1, rest, seen, view)
    requires if Settles(r.id, seen, view) then RowClosed(rows1, rows', r.id) else rows' == rows1
    ensures Settled(rows, rows', rest + [r], seen, view)
  {
    var open := rest + [r];
    assert open[|rest|] == r;
    forall t ensures IsListed(open, t) <==> IsListed(rest, t) || t == r.id {
      if IsListed(rest, t) {
        var j :| 0 <= j < |rest| && rest[j].id == t;
        assert open[j].id == t;
      }
    }
  }

  lemma {:induction false} ReconcileAll(pips: string -> Instrument, k: Books, open: seq<Row>, seen: set<int>,
                                        view: int -> Option<CloseInfo>, balance: real)
    requires BooksOk(k) && RowsOk(open) && AllOpen(k.rows, open)
    ensures BooksOk(ReconcileRows(pips, k, open, seen, view, balance))
    ensures Settled(k.rows, ReconcileRows(pips, k, open, seen, view, balance).rows, open, seen, view)
  {
    if open != [] {
      var n := |open| - 1;
      var rest, r := open[..n], open[n];
      LastListed(k.rows, rest, r, open);
      ReconcileAll(pips, k, rest, seen, view, balance);
      ReconcileOneMore(pips, k.rows, ReconcileRows(pips, k, rest, seen, view, balance), rest, r, seen, view, balance);
    }
  }

  ghost predicate AllOpen(rows: seq<Row>, open: seq<Row>) {
    forall j :: 0 <= j < |open| ==> OpenIn(rows, open[j].id)
  }

  lemma LastListed(rows: seq<Row>, rest: seq<Row>, r: Row, open: seq<Row>)
    requires open == rest + [r] && RowsOk(open) && AllOpen(rows, open)
    ensures RowsOk(rest) && AllOpen(rows, rest) && RowOk(r) && OpenIn(rows, r.id) && !IsListed(rest, r.id)
  {
    var n := |rest|;
    assert open[n] == r;
    assert forall j :: 0 <= j < n ==> rest[j] == open[j];
  }

  /** One more row handled after those of `rest`. */
  lemma ReconcileOneMore(pips: string -> Instrument, rows: seq<Row>, k: Books, rest: seq<Row>, r: Row,
                         seen: set<int>, view: int -> Option<CloseInfo>, balance: real)
    requires BooksOk(k) && Settled(rows, k.rows, rest, seen, view)
    requires RowOk(r) && OpenIn(rows, r.id) && !IsListed(rest, r.id)
    ensures BooksOk(ReconcileRow(pips, k, r, seen, view, balance))
    ensures Settled(rows, ReconcileRow(pips, k, r, seen, view, balance).rows, rest + [r], seen, view)
  {
    ReconcileOne(pips, k, r, seen, view, balance);
    SettleOneMore(rows, k.rows, ReconcileRow(pips, k, r, seen, view, balance).rows, rest, r, seen, view);
  }

  lemma ListOpenOk(rows: seq<Row>)
    requires RowsOk(rows)
    ensures RowsOk(ListOpen(rows))
    ensures forall t :: IsListed(ListOpen(rows), t) <==> OpenIn(rows, t)
  {
    var open := ListOpen(rows);
    ListOpenDistinct(rows);
    forall t ensures IsListed(open, t) <==> OpenIn(rows, t) {
      if IsListed(open, t) {
        var j :| 0 <= j < |open| && open[j].id == t;
        assert open[j] in rows;
      }
      if OpenIn(rows, t) {
        var i :| 0 <= i < |rows| && rows[i].id == t && rows[i].status == OPEN;
        assert RowOk(rows[i]) && rows[i] in open;
      }
    }
  }

  ghost predicate NoneHas(rows: seq<Row>, id: int) {
    forall r :: r in rows ==> r.id != id
  }

  lemma AppendOk(rows: seq<Row>, r: Row)
    requires RowsOk(rows) && RowOk(r) && NoneHas(rows, r.id)
    ensures RowsOk(rows + [r])
  {
    forall j | 0 <= j < |rows| ensures rows[j].id != r.id {
      assert rows[j] in rows;
    }
  }

  lemma FrontOk(rows: seq<Row>)
    requires RowsOk(rows) && rows != []
    ensures RowsOk(rows[..|rows| - 1]) && NoneHas(rows[..|rows| - 1], rows[|rows| - 1].id) && RowOk(rows[|rows| - 1])
  {
  }

  lemma {:induction false} ListOpenDistinct(rows: seq<Row>)
    requires RowsOk(rows)
    ensures RowsOk(ListOpen(rows))
  {
    if rows != [] {
      FrontOk(rows);
      var rest := ListOpen(rows[..|rows| - 1]);
      ListOpenDistinct(rows[..|rows| - 1]);
      assert NoneHas(rest, rows[|rows| - 1].id);
      AppendOk(rest, rows[|rows| - 1]);
    }
  }

  /** A round settles exactly the open rows whose ticket the query did not return and
      whose closing deal is visible; all other rows keep their status. */
  lemma ReconcileExact(pips: string -> Instrument, k: Books, seen: set<int>, view: int -> Option<CloseInfo>,
                       balance: real)
    requires BooksOk(k)
    ensures BooksOk(Reconcile(pips, k, seen, view, balance))
    ensures forall t :: OpenIn(Reconcile(pips, k, seen, view, balance).rows, t) <==>
            OpenIn(k.rows, t) && !Settles(t, seen, view)
    ensures forall t :: ClosedIn(Reconcile(pips, k, seen, view, balance).rows, t) <==>
                        ClosedIn(k.rows, t) || (OpenIn(k.rows, t) && Settles(t, seen, view))
  {
    ListOpenOk(k.rows);
    ReconcileAll(pips, k, ListOpen(k.rows), seen, view, balance);
  }

  // ------------------------------------------------------------- every run

  lemma OpenKeeps(w: World, o: OrderV, booked: real, d: Deal)
    requires Sound(w) && Fresh(w, o, d)
    ensures Sound(WithPosition(w, o, booked, d))
  {
    var rows, rows' := w.books.rows, w.books.rows + [OpenRow(o)];
    assert rows'[..|rows|] == rows && rows'[|rows|] == OpenRow(o);
    assert forall i :: 0 <= i < |rows| ==> rows'[i] == rows[i];
    forall t ensures ClosedIn(rows', t) <==> ClosedIn(rows, t) {
    }
    forall t ensures OpenIn(rows', t) <==> OpenIn(rows, t) || t == o.id {
      assert rows'[|rows|].id == o.id && rows'[|rows|].status == OPEN;
    }
  }

  lemma CloseKeeps(lim: RiskLimits, w: World, o: OrderV, reason: CloseReason, d: Deal, now: int)
    requires Sound(w) && o.id in w.live && o.status == CLOSED
    ensures Sound(w.(books := BookClose(lim, w.books, o, reason, now),
                     live := w.live - {o.id}, history := AddDeal(w, o.id, d)))
  {
    CloseById(w.books.rows, o, ReasonText(reason), now);
    CloseKeepsBooks(w.books, BookClose(lim, w.books, o, reason, now), o.id);
  }

  /** A closing deal of a live position is visible to the round. */
  ghost predicate CutInView(w: World, landed: set<int>) {
    exists t :: t in w.live && t in landed && t in w.history && FetchCloseInfo(w.history[t]).Some?
  }

  /** The two steps that break the books: a round that meets the closing deal of a live
      position behind a failed query, and a restart that finds open rows in a journal that
      does not answer. */
  ghost predicate Breaks(w: World, e: Event) {
    match e
    case Reconciles(queryOk, _, landed, _) => !queryOk && CutInView(w, landed)
    case Restarts(listOk, _) => !listOk && ListOpen(w.books.rows) != []
    case _ => false
  }

  lemma RoundKeepsIff(pips: string -> Instrument, w: World, queryOk: bool, foreign: set<int>, landed: set<int>,
                      balance: real)
    requires Sound(w)
    ensures var books := Reconcile(pips, w.books, Seen(w, queryOk, foreign), View(w, landed), balance);
            Sound(w.(books := books)) <==> queryOk || !CutInView(w, landed)
  {
    ReconcileExact(pips, w.books, Seen(w, queryOk, foreign), View(w, landed), balance);
  }

  lemma RestartKeepsIff(lim: RiskLimits, pips: string -> Instrument, w: World, listOk: bool, balance: real)
    requires Sound(w)
    ensures Sound(Apply(lim, pips, w, Restarts(listOk, balance))) <==> listOk || ListOpen(w.books.rows) == []
  {
  }

  /** One event keeps the books sound exactly when it is not one of the two. */
  lemma StepSoundIff(lim: RiskLimits, pips: string -> Instrument, w: World, e: Event)
    requires Sound(w)
    ensures Sound(Apply(lim, pips, w, e)) <==> !Breaks(w, e)
  {
    match e {
      case Opens(o, booked, d, _) => if Fresh(w, o, d) { OpenKeeps(w, o, booked, d); }
      case BotCloses(o, reason, outcome, d, now) =>
        if o.id in w.live && Closes(d) && o.status == OPEN && outcome.Done? {
          CloseKeeps(lim, w, o.(status := CLOSED, exit := Some(d.price), pnl := outcome.pnl), reason, d, now);
        }
      case BrokerCloses(_, _) =>
      case PartlyCloses(_, _) =>
      case Reconciles(queryOk, foreign, landed, balance) => RoundKeepsIff(pips, w, queryOk, foreign, landed, balance);
      case Restarts(listOk, balance) => RestartKeepsIff(lim, pips, w, listOk, balance);
    }
  }

  ghost predicate AlwaysSound(lim: RiskLimits, pips: string -> Instrument, es: seq<Event>) {
    Sound(Run(lim, pips, START, es)) && (es == [] || AlwaysSound(lim, pips, es[..|es| - 1]))
  }

  ghost predicate NothingBreaks(lim: RiskLimits, pips: string -> Instrument, es: seq<Event>) {
    es == [] ||
    (NothingBreaks(lim, pips, es[..|es| - 1]) && !Breaks(Run(lim, pips, START, es[..|es| - 1]), es[|es| - 1]))
  }

  /** Under any events whatever, partial closes and unanswered restarts included: the count
      equals the open journal rows, every trade is refunded exactly once, when its row closes,
      and the row of a live position is never closed, at every moment of the run, exactly when
      neither of the two breaking steps occurs in it. */
  lemma {:induction false} EveryRunKeepsTheBooksIff(lim: RiskLimits, pips: string -> Instrument, es: seq<Event>)
    ensures AlwaysSound(lim, pips, es) <==> NothingBreaks(lim, pips, es)
  {
    if es != [] {
      var before := es[..|es| - 1];
      EveryRunKeepsTheBooksIff(lim, pips, before);
      if AlwaysSound(lim, pips, before) {
        SoundNow(lim, pips, before);
        StepSoundIff(lim, pips, Run(lim, pips, START, before), es[|es| - 1]);
      }
    }
  }

  lemma SoundNow(lim: RiskLimits, pips: string -> Instrument, es: seq<Event>)
    requires AlwaysSound(lim, pips, es)
    ensures Sound(Run(lim, pips, START, es))
  {
  }

  /** Events that cannot bring a breaking step about: no partial closes, and a journal that
      answers when the process restarts. */
  predicate Plain(e: Event) {
    !e.PartlyCloses? && (e.Restarts? ==> e.listOk)
  }

  lemma PlainStaysUncut(lim: RiskLimits, pips: string -> Instrument, w: World, e: Event)
    requires Uncut(w) && Plain(e)
    ensures Uncut(Apply(lim, pips, w, e)) && !Breaks(w, e)
  {
    if e.Opens? {
      var d := e.deal;
      assert [d][..|[d]| - 1] == [];
      assert d.entry == In ==> LastClose([d]) == None;
    }
  }

  /** A run of plain events never breaks, whatever else fails in it. */
  lemma {:induction false} PlainRunsKeepTheBooks(lim: RiskLimits, pips: string -> Instrument, es: seq<Event>)
    requires forall k :: 0 <= k < |es| ==> Plain(es[k])
    ensures AlwaysSound(lim, pips, es) && Uncut(Run(lim, pips, START, es))
  {
    if es != [] {
      var before := es[..|es| - 1];
      PlainRunsKeepTheBooks(lim, pips, before);
      PlainStaysUncut(lim, pips, Run(lim, pips, START, before), es[|es| - 1]);
      EveryRunKeepsTheBooksIff(lim, pips, before);
      EveryRunKeepsTheBooksIff(lim, pips, es);
    }
  }

  // ------------------------------------------------------ where it stops

  /** A round closes the row of a live position exactly when the position query failed
      and a closing deal of it is visible: the trace of a partial close. */
  lemma LiveRowClosedIff(pips: string -> Instrument, w: World, t: int, queryOk: bool, foreign: set<int>,
                         landed: set<int>, balance: real)
    requires BooksOk(w.books) && t in w.live && OpenIn(w.books.rows, t)
    ensures ClosedIn(Reconcile(pips, w.books, Seen(w, queryOk, foreign), View(w, landed), balance).rows, t) <==>
            !queryOk && t in landed && t in w.history && FetchCloseInfo(w.history[t]).Some?
  {
    ReconcileExact(pips, w.books, Seen(w, queryOk, foreign), View(w, landed), balance);
    OpenNotClosed(w.books.rows, t);
  }

  /** Orders rebuilt from broker positions carry no booking, so a live close refunds
      the full per-trade budget: the heat returns to where it was exactly when that is
      what was booked (or the clamp hides the difference). */
  lemma OpenThenCloseRestoresHeatIff(lim: RiskLimits, s: RiskState, booked: real, pnl: real)
    requires s.heat >= 0.0 && booked >= 0.0
    ensures Closed(Opened(s, booked), Refund(lim, NO_EXTRA), pnl).heat == s.heat <==>
            booked == lim.riskPerTrade || (s.heat == 0.0 && booked <= lim.riskPerTrade)
  {
  }

  /** The other breaking step: an opening, and a restart that finds its row in a journal that
      does not answer. The position is live, its row open, and the ledger counts nothing. */
  lemma SilentRestartExample(lim: RiskLimits, pips: string -> Instrument, o: OrderV, d: Deal, balance: real)
    requires o.ticket == Some(1) && o.id == 1 && o.status == OPEN && d.entry == In
    ensures var es := [Opens(o, 0.0, d, true), Restarts(false, balance)];
            var w := Run(lim, pips, START, es);
            && Breaks(Run(lim, pips, START, es[..1]), es[1])
            && 1 in w.live && OpenIn(w.books.rows, 1) && w.books.risk.count == 0
  {
    var e1, e2 := Opens(o, 0.0, d, true), Restarts(false, balance);
    RunStep(lim, pips, [], e1);
    RunTwo(lim, pips, e1, e2);
    assert [] + [e1] == [e1] && [e1, e2][..1] == [e1];
    var w1 := WithPosition(START, o, 0.0, d);
    assert Apply(lim, pips, START, e1) == w1 && w1.books.rows == [OpenRow(o)];
    assert w1.books.rows[0].id == 1 && w1.books.rows[0].status == OPEN;
    assert ListOpen(w1.books.rows) == [OpenRow(o)];
  }

  // --------------------------------------------------- one side per symbol

  ghost predicate OneSided(live: map<int, Position>) {
    forall t, u :: t in live && u in live && live[t].symbol == live[u].symbol ==> live[t].side == live[u].side
  }

  /** An opening that finds an opposite position although the guard saw none: the query
      behind it failed. */
  predicate BlindOpening(w: World, e: Event) {
    e.Opens? && Fresh(w, e.order, e.deal) && !e.queryOk && Against(w.live, e.order.symbol, e.order.side)
  }

  lemma AddingKeepsIff(live: map<int, Position>, t: int, p: Position)
    requires OneSided(live) && t !in live
    ensures OneSided(live[t := p]) <==> !Against(live, p.symbol, p.side)
  {
    var more := live[t := p];
    if OneSided(more) {
      forall u | u in live && live[u].symbol == p.symbol ensures live[u].side == p.side {
        assert more[u] == live[u] && more[t] == p;
      }
    }
  }

  lemma RemovingKeeps(live: map<int, Position>, t: int)
    requires OneSided(live)
    ensures OneSided(live - {t})
  {
  }

  /** Every live position has a deal history, so a fresh ticket is never a live one. */
  ghost predicate Recorded(w: World) {
    forall t :: t in w.live ==> t in w.history
  }

  /** A step keeps one side per symbol exactly when it is not a blind opening: the query was
      answered, or no opposite position is open. */
  lemma StepOneSidedIff(lim: RiskLimits, pips: string -> Instrument, w: World, e: Event)
    requires Recorded(w) && OneSided(w.live)
    ensures OneSided(Apply(lim, pips, w, e).live) <==> !BlindOpening(w, e)
  {
    match e
    case Opens(o, booked, d, queryOk) =>
      if Fresh(w, o, d) {
        AddingKeepsIff(w.live, o.id, Position(o.symbol, o.side));
      }
    case BotCloses(o, _, _, _, _) => RemovingKeeps(w.live, o.id);
    case BrokerCloses(t, _) => RemovingKeeps(w.live, t);
    case PartlyCloses(_, _) =>
    case Reconciles(_, _, _, _) =>
    case Restarts(_, _) =>
  }

  ghost predicate AlwaysOneSided(lim: RiskLimits, pips: string -> Instrument, es: seq<Event>) {
    OneSided(Run(lim, pips, START, es).live) && (es == [] || AlwaysOneSided(lim, pips, es[..|es| - 1]))
  }

  ghost predicate NoBlindOpening(lim: RiskLimits, pips: string -> Instrument, es: seq<Event>) {
    es == [] ||
    (NoBlindOpening(lim, pips, es[..|es| - 1]) &&
     !BlindOpening(Run(lim, pips, START, es[..|es| - 1]), es[|es| - 1]))
  }

  /** Along any run, partial closes and restarts included, the live positions of every symbol
      stay on one side exactly when no opening was blind. */
  lemma {:induction false} EveryRunOneSidedIff(lim: RiskLimits, pips: string -> Instrument, es: seq<Event>)
    ensures AlwaysOneSided(lim, pips, es) <==> NoBlindOpening(lim, pips, es)
    ensures Recorded(Run(lim, pips, START, es))
  {
    if es != [] {
      var before, e := es[..|es| - 1], es[|es| - 1];
      EveryRunOneSidedIff(lim, pips, before);
      var w := Run(lim, pips, START, before);
      StepRecords(lim, pips, w, e);
      if AlwaysOneSided(lim, pips, before) {
        OneSidedNow(lim, pips, before);
        StepOneSidedIff(lim, pips, w, e);
      }
    }
  }

  lemma StepRecords(lim: RiskLimits, pips: string -> Instrument, w: World, e: Event)
    requires Recorded(w)
    ensures Recorded(Apply(lim, pips, w, e))
  {
  }

  lemma OneSidedNow(lim: RiskLimits, pips: string -> Instrument, es: seq<Event>)
    requires AlwaysOneSided(lim, pips, es)
    ensures OneSided(Run(lim, pips, START, es).live)
  {
  }

  /** Two fills on opposite sides, the second behind a failed query: both are live. */
  lemma BlindOpeningExample(lim: RiskLimits, pips: string -> Instrument, a: OrderV, b: OrderV, d: Deal)
    requires a.ticket == Some(1) && a.id == 1 && b.ticket == Some(2) && b.id == 2 && a.status == b.status == OPEN
    requires a.symbol == b.symbol && a.side != b.side && d.entry == In
    ensures var es := [Opens(a, 0.0, d, true), Opens(b, 0.0, d, false)];
            Run(lim, pips, START, es).live == map[1 := Position(a.symbol, a.side), 2 := Position(b.symbol, b.side)]
  {
    var e1, e2 := Opens(a, 0.0, d, true), Opens(b, 0.0, d, false);
    RunTwo(lim, pips, e1, e2);
    var w1 := Apply(lim, pips, START, e1);
    assert w1 == WithPosition(START, a, 0.0, d);
    assert w1.books.rows == [OpenRow(a)];
    assert Apply(lim, pips, w1, e2) == WithPosition(w1, b, 0.0, d);
  }

  lemma RunStep(lim: RiskLimits, pips: string -> Instrument, es: seq<Event>, e: Event)
    ensures Run(lim, pips, START, es + [e]) == Apply(lim, pips, Run(lim, pips, START, es), e)
  {
    assert (es + [e])[..|es|] == es;
  }

  lemma RunTwo(lim: RiskLimits, pips: string -> Instrument, e1: Event, e2: Event)
    ensures Run(lim, pips, START, [e1, e2]) == Apply(lim, pips, Apply(lim, pips, START, e1), e2)
  {
    RunStep(lim, pips, [], e1);
    RunStep(lim, pips, [e1], e2);
    assert [] + [e1] == [e1] && [e1] + [e2] == [e1, e2];
  }

  lemma RunThree(lim: RiskLimits, pips: string -> Instrument, e1: Event, e2: Event, e3: Event)
    ensures Run(lim, pips, START, [e1, e2, e3]) ==
            Apply(lim, pips, Apply(lim, pips, Apply(lim, pips, START, e1), e2), e3)
  {
    RunTwo(lim, pips, e1, e2);
    RunStep(lim, pips, [e1, e2], e3);
    assert [e1, e2] + [e3] == [e1, e2, e3];
  }

  /** Opened, then partly closed at the broker: live, its row open, a closing deal visible. */
  lemma PartlyClosed(lim: RiskLimits, pips: string -> Instrument, o: OrderV, opening: Deal, part: Deal)
    requires o.ticket == Some(1) && o.id == 1 && o.status == OPEN && opening.entry == In && Closes(part)
    ensures var w1 := Apply(lim, pips, START, Opens(o, 0.0, opening, true));
            var w2 := Apply(lim, pips, w1, PartlyCloses(1, part));
            && 1 in w2.live && BooksOk(w2.books) && OpenIn(w2.books.rows, 1)
            && 1 in w2.history && FetchCloseInfo(w2.history[1]).Some?
  {
    var w1 := WithPosition(START, o, 0.0, opening);
    assert Apply(lim, pips, START, Opens(o, 0.0, opening, true)) == w1;
    assert Sound(START);
    OpenKeeps(START, o, 0.0, opening);
    var deals := [opening] + [part];
    CloseInfoIff(deals);
    assert part in deals;
    assert w1.history[1] == [opening];
  }

  /** The trace `LiveRowClosedIff` speaks of: open, partly close, reconcile on a failed query.
      The position is live and its row is closed. */
  lemma PartialCloseExample(lim: RiskLimits, pips: string -> Instrument, o: OrderV, opening: Deal, part: Deal,
                            balance: real)
    requires o.ticket == Some(1) && o.id == 1 && o.status == OPEN && opening.entry == In && Closes(part)
    ensures var es := [Opens(o, 0.0, opening, true), PartlyCloses(1, part), Reconciles(false, {}, {1}, balance)];
            var w := Run(lim, pips, START, es);
            1 in w.live && ClosedIn(w.books.rows, 1)
  {
    var e1, e2, e3 := Opens(o, 0.0, opening, true), PartlyCloses(1, part), Reconciles(false, {}, {1}, balance);
    RunThree(lim, pips, e1, e2, e3);
    PartlyClosed(lim, pips, o, opening, part);
    FailedRoundCloses(lim, pips, Apply(lim, pips, Apply(lim, pips, START, e1), e2), balance);
  }

  lemma FailedRoundCloses(lim: RiskLimits, pips: string -> Instrument, w: World, balance: real)
    requires 1 in w.live && BooksOk(w.books) && OpenIn(w.books.rows, 1)
    requires 1 in w.history && FetchCloseInfo(w.history[1]).Some?
    ensures var w' := Apply(lim, pips, w, Reconciles(false, {}, {1}, balance));
            1 in w'.live && ClosedIn(w'.books.rows, 1)
  {
    LiveRowClosedIff(pips, w, 1, false, {}, {1}, balance);
  }
}
