/** The Telegram sign-up conversation as a transition system over the two stored tables. */
module SignupModel {
  import opened Common
  import opened Csv

  const VALID_DURATIONS := {"5h", "1w", "2w", "1m", "2m", "3m"}

  datatype State = Idle | AwaitingEmail | AwaitingPhone | PickingSignals | PickingExecute
  datatype Kind = Signals | Execute
  datatype Status = Pending | Approved | Rejected

  /** One row of the chat-state table; picks are comma-separated columns. */
  datatype ChatRow = ChatRow(state: State, duration: Option<string>, signals: string, execute: string)

  datatype Request = Request(chat: int, duration: string, email: string, phone: Option<string>, status: Status,
                             signals: string, execute: string)

  /** The two tables and the bot's in-memory phone cache. A request's id is its position plus one. */
  datatype World = World(chats: map<int, ChatRow>, requests: seq<Request>, phones: map<int, string>)

  function Required(kind: Kind): nat {
    match kind case Signals => 3 case Execute => 2
  }

  // --------------------------------------------------------- the tables

  function StateOf(w: World, chat: int): State {
    if chat in w.chats then w.chats[chat].state else Idle
  }

  function DurationOf(w: World, chat: int): Option<string> {
    if chat in w.chats then w.chats[chat].duration else None
  }

  function Picks(row: ChatRow, kind: Kind): seq<string> {
    SplitCsv(match kind case Signals => row.signals case Execute => row.execute)
  }

  /** `INSERT ... ON CONFLICT DO UPDATE`: the pick columns of an existing row stay. */
  function Upserted(chats: map<int, ChatRow>, chat: int, state: State, duration: Option<string>): map<int, ChatRow> {
    chats[chat := if chat in chats then chats[chat].(state := state, duration := duration)
                  else ChatRow(state, duration, "", "")]
  }

  /** A missing row is left missing; `None` leaves a column alone. */
  function WithPicks(chats: map<int, ChatRow>, chat: int, signals: Option<seq<string>>,
                     execute: Option<seq<string>>): map<int, ChatRow> {
    if chat !in chats then chats
    else
      var row := chats[chat];
      chats[chat := row.(signals := if signals.Some? then JoinCsv(signals.value) else row.signals,
                         execute := if execute.Some? then JoinCsv(execute.value) else row.execute)]
  }

  function NewRequest(chat: int, duration: string, email: string, phone: Option<string>,
                      signals: seq<string>, execute: seq<string>): Request {
    Request(chat, duration, email, phone, Pending, JoinCsv(signals), JoinCsv(execute))
  }

  /** Deciding a request touches it only while it is pending. */
  function Decided(requests: seq<Request>, id: int, status: Status): seq<Request> {
    if 1 <= id <= |requests| && requests[id - 1].status == Pending
    then requests[id - 1 := requests[id - 1].(status := status)]
    else requests
  }

  // ----------------------------------------------------- the conversation

  function Moved(w: World, chat: int, state: State, duration: Option<string>): World {
    w.(chats := Upserted(w.chats, chat, state, duration))
  }

  function Welcomed(w: World, chat: int): World {
    Moved(w, chat, Idle, None)
  }

  function LStripZeros(s: string): string {
    if s != "" && s[0] == '0' then LStripZeros(s[1..]) else s
  }

  function CleanPhone(phone: string): string {
    if phone != "" && phone[0] != '+' then "+" + LStripZeros(phone) else phone
  }

  function PhoneShared(w: World, chat: int, phone: string): World {
    var duration := DurationOf(w, chat);
    if duration.None? then Welcomed(w, chat)
    else
      var w1 := Moved(w.(phones := w.phones[chat := CleanPhone(phone)]), chat, PickingSignals, duration);
      w1.(chats := WithPicks(w1.chats, chat, Some([]), Some([])))
  }

  function Without(xs: seq<string>, x: string): seq<string> {
    if xs == [] then [] else if xs[0] == x then xs[1..] else [xs[0]] + Without(xs[1..], x)
  }

  /** `None`: the list is full and the tap is ignored. */
  function Toggled(current: seq<string>, name: string, required: nat): Option<seq<string>> {
    if name in current then Some(Without(current, name))
    else if |current| < required then Some(current + [name])
    else None
  }

  function PickingState(kind: Kind): State {
    match kind case Signals => PickingSignals case Execute => PickingExecute
  }

  function PickTapped(w: World, chat: int, kind: Kind, name: string): World {
    if chat !in w.chats then w
    else
      var row := w.chats[chat];
      if row.state != PickingState(kind) then w
      else
        match Toggled(Picks(row, kind), name, Required(kind))
        case None => w
        case Some(picks) =>
          w.(chats := if kind == Signals then WithPicks(w.chats, chat, Some(picks), None)
                      else WithPicks(w.chats, chat, None, Some(picks)))
  }

  /** The phone leaves the cache before the duration is looked at. */
  function Finalized(w: World, chat: int): World
    requires chat in w.chats
  {
    var row := w.chats[chat];
    var phone := if chat in w.phones then Some(w.phones[chat]) else None;
    var w1 := w.(phones := w.phones - {chat});
    if row.duration.None? then Welcomed(w1, chat)
    else if row.duration.value !in VALID_DURATIONS then w1
    else
      var request := NewRequest(chat, row.duration.value, "", phone, Picks(row, Signals), Picks(row, Execute));
      var w2 := Moved(w1.(requests := w1.requests + [request]), chat, Idle, None);
      w2.(chats := WithPicks(w2.chats, chat, Some([]), Some([])))
  }

  /** Neither button looks at the conversation's state. */
  function DoneTapped(w: World, chat: int, kind: Kind): World {
    if chat !in w.chats then w
    else
      var row := w.chats[chat];
      if |Picks(row, kind)| != Required(kind) then w
      else if kind == Signals then Moved(w, chat, PickingExecute, row.duration)
      else Finalized(w, chat)
  }

  function DurationTapped(w: World, chat: int, code: string): World {
    if code !in VALID_DURATIONS then w else Moved(w, chat, AwaitingPhone, Some(code))
  }

  function EmailSent(w: World, chat: int, text: string, wellFormed: bool): World {
    if !wellFormed then w
    else
      match DurationOf(w, chat)
      case None => Welcomed(w, chat)
      case Some(duration) =>
        if duration !in VALID_DURATIONS then w
        else
          var request := NewRequest(chat, duration, text, None, [], []);
          Moved(w.(requests := w.requests + [request]), chat, Idle, None)
  }

  /** `contact` is the stripped number of a shared contact, `wellFormed` whether `text`
      matches the e-mail pattern. */
  function MessageSent(w: World, chat: int, text: string, contact: Option<string>, wellFormed: bool): World {
    if chat == 0 then w
    else
      Routed(Moved(w, chat, StateOf(w, chat), DurationOf(w, chat)), chat, text, contact, wellFormed)
  }

  function Routed(w: World, chat: int, text: string, contact: Option<string>, wellFormed: bool): World {
    var state := StateOf(w, chat);
    if text == "/start" then Welcomed(w, chat)
    else if contact.Some? && state == AwaitingPhone && contact.value != "" then PhoneShared(w, chat, contact.value)
    else if state == AwaitingPhone then w
    else if state == AwaitingEmail then EmailSent(w, chat, text, wellFormed)
    else w
  }

  // ---------------------------------------------------------------- runs

  datatype Update =
    | Message(chat: int, text: string, contact: Option<string>, wellFormed: bool)
    | DurationTap(chat: int, code: string)
    | PickTap(chat: int, kind: Kind, name: string)
    | DoneTap(chat: int, kind: Kind)
    | Decide(id: int, approve: bool)
    | Restart

  function Apply(w: World, u: Update): World {
    match u
    case Message(chat, text, contact, wellFormed) => MessageSent(w, chat, text, contact, wellFormed)
    case DurationTap(chat, code) => if chat == 0 then w else DurationTapped(w, chat, code)
    case PickTap(chat, kind, name) => if chat == 0 then w else PickTapped(w, chat, kind, name)
    case DoneTap(chat, kind) => if chat == 0 then w else DoneTapped(w, chat, kind)
    case Decide(id, approve) => w.(requests := Decided(w.requests, id, if approve then Approved else Rejected))
    case Restart => w.(phones := map[])
  }

  function Run(w: World, us: seq<Update>): World {
    if us == [] then w else Apply(Run(w, us[..|us| - 1]), us[|us| - 1])
  }

  const EMPTY := World(map[], [], map[])

  // ----------------------------------------------- what every run maintains

  ghost predicate Distinct(xs: seq<string>) {
    forall i, j :: 0 <= i < j < |xs| ==> xs[i] != xs[j]
  }

  ghost predicate Complete(r: Request) {
    && Distinct(SplitCsv(r.signals)) && |SplitCsv(r.signals)| == 3
    && Distinct(SplitCsv(r.execute)) && |SplitCsv(r.execute)| == 2
    && r.duration in VALID_DURATIONS && r.email == ""
  }

  /** Whatever was tapped: execute picks exist only on top of three signal picks, and no chat
      is asked for an e-mail. */
  ghost predicate RowShape(row: ChatRow) {
    var signals, execute := Picks(row, Signals), Picks(row, Execute);
    && (row.state == PickingSignals ==> execute == [])
    && (execute != [] || row.state == PickingExecute ==> |signals| == 3)
    && row.state != AwaitingEmail
    && (row.duration.Some? ==> row.duration.value in VALID_DURATIONS)
  }

  ghost predicate ChatsShaped(chats: map<int, ChatRow>) {
    forall chat :: chat in chats ==> chat != 0 && RowShape(chats[chat])
  }

  /** Both lists are without repetition and within their limits. */
  ghost predicate ListsOk(row: ChatRow) {
    var signals, execute := Picks(row, Signals), Picks(row, Execute);
    Distinct(signals) && |signals| <= 3 && Distinct(execute) && |execute| <= 2
  }

  ghost predicate RequestsOk(requests: seq<Request>) {
    forall i :: 0 <= i < |requests| ==> Complete(requests[i])
  }

  ghost predicate WorldOk(w: World) {
    && ChatsShaped(w.chats) && RequestsOk(w.requests)
    && forall chat :: chat in w.chats ==> ListsOk(w.chats[chat])
  }

  /** What adding `name` to the column really adds fits: its fields are distinct, new, and
      within the limit. */
  ghost predicate FreshPicks(current: seq<string>, name: string, required: nat) {
    var added := SplitCsv(name);
    Distinct(added) && (forall x :: x in added ==> x !in current) && |current| + |added| <= required
  }

  /** The tap is not taken, removes a pick, or adds fresh ones. */
  ghost predicate TapFits(w: World, u: Update) {
    match u
    case PickTap(chat, kind, name) =>
      chat != 0 && chat in w.chats && w.chats[chat].state == PickingState(kind) ==>
        var current := Picks(w.chats[chat], kind);
        name in current || |current| >= Required(kind) || FreshPicks(current, name, Required(kind))
    case _ => true
  }

  /** The picker's own buttons carry names that survive the pick columns. */
  predicate CleanTap(u: Update) {
    u.PickTap? ==> Clean(u.name)
  }

  lemma {:induction false} WithoutKeeps(xs: seq<string>, x: string)
    requires x in xs
    ensures |Without(xs, x)| == |xs| - 1 && (forall y :: y in Without(xs, x) ==> y in xs)
    ensures Distinct(xs) ==> Distinct(Without(xs, x))
    ensures AllClean(xs) ==> AllClean(Without(xs, x))
  {
    if xs[0] != x {
      var rest := xs[1..];
      assert xs == [xs[0]] + rest;
      WithoutKeeps(rest, x);
      if Distinct(xs) {
        assert forall i :: 0 <= i < |rest| ==> rest[i] == xs[i + 1];
        assert xs[0] !in rest;
      }
      assert AllClean(xs) ==> AllClean(rest) by {
        assert forall i :: 0 <= i < |rest| ==> rest[i] == xs[i + 1];
      }
    }
  }

  /** A tap keeps the list distinct and within its limit, and the column gives back
      exactly the new list unless a name the column cannot hold was added. */
  lemma ToggleStoresIff(current: seq<string>, name: string, required: nat)
    requires AllClean(current) && Distinct(current) && |current| <= required
    ensures var t := Toggled(current, name, required);
            t.Some? ==>
              && Distinct(t.value) && |t.value| <= required
              && (SplitCsv(JoinCsv(t.value)) == t.value <==> name in current || Clean(name))
  {
    if name in current {
      WithoutKeeps(current, name);
      RoundTripIff(Without(current, name));
    } else {
      RoundTripIff(current + [name]);
      assert (current + [name])[|current|] == name;
    }
  }

  lemma DistinctConcat(a: seq<string>, b: seq<string>)
    requires Distinct(a)
    ensures Distinct(a + b) <==> Distinct(b) && forall x :: x in b ==> x !in a
  {
    var all := a + b;
    assert forall i :: 0 <= i < |a| ==> all[i] == a[i];
    assert forall i :: 0 <= i < |b| ==> all[|a| + i] == b[i];
    if Distinct(b) && (forall x :: x in b ==> x !in a) {
      forall i, j | 0 <= i < j < |all| ensures all[i] != all[j] {
        if i < |a| <= j {
          assert all[i] == a[i] && b[j - |a|] in b;
        }
      }
    }
    if Distinct(all) {
      forall x | x in b ensures x !in a {
        var j :| 0 <= j < |b| && b[j] == x;
        assert all[|a| + j] == x;
      }
      forall i, j | 0 <= i < j < |b| ensures b[i] != b[j] {
        assert all[|a| + i] != all[|a| + j];
      }
    }
  }

  /** What is read back after a tap is distinct and within its limit exactly when the tap
      removed a pick or added fresh ones. */
  lemma ToggleFitsIff(current: seq<string>, name: string, required: nat)
    requires AllClean(current) && Distinct(current) && |current| <= required
    ensures var t := Toggled(current, name, required);
            t.Some? ==>
              var stored := SplitCsv(JoinCsv(t.value));
              Distinct(stored) && |stored| <= required <==> name in current || FreshPicks(current, name, required)
  {
    if name in current {
      WithoutKeeps(current, name);
      CleanRoundTrip(Without(current, name));
    } else {
      SplitAppended(current, name);
      DistinctConcat(current, SplitCsv(name));
    }
  }

  lemma CleanTapFits(w: World, u: Update)
    requires CleanTap(u)
    ensures TapFits(w, u)
  {
    if u.PickTap? {
      SplitOne(u.name);
    }
  }

  lemma EmptyColumns()
    ensures SplitCsv("") == [] && JoinCsv([]) == ""
  {
    assert Strip("") == "";
  }

  // ------------------------------------------------ the shape of a chat

  lemma UpsertKeeps(chats: map<int, ChatRow>, chat: int, state: State, duration: Option<string>)
    requires ChatsShaped(chats) && chat != 0
    requires duration.Some? ==> duration.value in VALID_DURATIONS
    requires state == Idle || state == AwaitingPhone || (chat in chats && state == chats[chat].state) ||
             (state == PickingExecute && chat in chats && |Picks(chats[chat], Signals)| == 3)
    ensures ChatsShaped(Upserted(chats, chat, state, duration))
  {
    EmptyColumns();
  }

  /** Starting the picker clears both lists. */
  lemma PickerStarts(chats: map<int, ChatRow>, chat: int, duration: Option<string>)
    ensures WithPicks(Upserted(chats, chat, PickingSignals, duration), chat, Some([]), Some([])) ==
            chats[chat := ChatRow(PickingSignals, duration, "", "")]
  {
  }

  lemma PhoneKeeps(w: World, chat: int, phone: string)
    requires ChatsShaped(w.chats) && chat != 0
    ensures ChatsShaped(PhoneShared(w, chat, phone).chats)
  {
    var duration := DurationOf(w, chat);
    if duration.None? {
      UpsertKeeps(w.chats, chat, Idle, None);
    } else {
      EmptyColumns();
      PickerStarts(w.chats, chat, duration);
    }
  }

  lemma MessageKeeps(w: World, chat: int, text: string, contact: Option<string>, wellFormed: bool)
    requires ChatsShaped(w.chats) && chat != 0
    ensures ChatsShaped(MessageSent(w, chat, text, contact, wellFormed).chats)
    ensures MessageSent(w, chat, text, contact, wellFormed).requests == w.requests
  {
    UpsertKeeps(w.chats, chat, StateOf(w, chat), DurationOf(w, chat));
    var w1 := Moved(w, chat, StateOf(w, chat), DurationOf(w, chat));
    if text == "/start" {
      UpsertKeeps(w1.chats, chat, Idle, None);
    } else if contact.Some? {
      PhoneKeeps(w1, chat, contact.value);
    }
  }

  lemma ClearKeeps(chats: map<int, ChatRow>, chat: int)
    requires ChatsShaped(chats) && chat in chats && chats[chat].state == Idle
    ensures ChatsShaped(WithPicks(chats, chat, Some([]), Some([])))
  {
    EmptyColumns();
  }

  lemma DoneKeeps(w: World, chat: int, kind: Kind)
    requires ChatsShaped(w.chats)
    ensures ChatsShaped(DoneTapped(w, chat, kind).chats)
  {
    if chat in w.chats && |Picks(w.chats[chat], kind)| == Required(kind) {
      if kind == Signals {
        UpsertKeeps(w.chats, chat, PickingExecute, w.chats[chat].duration);
      } else {
        UpsertKeeps(w.chats, chat, Idle, None);
        ClearKeeps(Upserted(w.chats, chat, Idle, None), chat);
      }
    }
  }

  function WithColumn(row: ChatRow, kind: Kind, column: string): ChatRow {
    match kind case Signals => row.(signals := column) case Execute => row.(execute := column)
  }

  lemma TapWrites(w: World, chat: int, kind: Kind, name: string)
    requires chat in w.chats && w.chats[chat].state == PickingState(kind)
    ensures var row := w.chats[chat];
            PickTapped(w, chat, kind, name).chats ==
            match Toggled(Picks(row, kind), name, Required(kind))
            case None => w.chats
            case Some(picks) => w.chats[chat := WithColumn(row, kind, JoinCsv(picks))]
  {
  }

  lemma ColumnKeeps(row: ChatRow, kind: Kind, column: string)
    requires RowShape(row) && row.state == PickingState(kind)
    ensures RowShape(WithColumn(row, kind, column))
  {
  }

  lemma TapKeeps(w: World, chat: int, kind: Kind, name: string)
    requires ChatsShaped(w.chats)
    ensures ChatsShaped(PickTapped(w, chat, kind, name).chats)
  {
    if chat in w.chats && w.chats[chat].state == PickingState(kind) {
      TapWrites(w, chat, kind, name);
      var t := Toggled(Picks(w.chats[chat], kind), name, Required(kind));
      if t.Some? {
        ColumnKeeps(w.chats[chat], kind, JoinCsv(t.value));
      }
    }
  }

  lemma StepKeepsShape(w: World, u: Update)
    requires ChatsShaped(w.chats)
    ensures ChatsShaped(Apply(w, u).chats)
  {
    match u
    case Message(chat, text, contact, wellFormed) =>
      if chat != 0 { MessageKeeps(w, chat, text, contact, wellFormed); }
    case DurationTap(chat, code) =>
      if chat != 0 && code in VALID_DURATIONS { UpsertKeeps(w.chats, chat, AwaitingPhone, Some(code)); }
    case PickTap(chat, kind, name) => TapKeeps(w, chat, kind, name);
    case DoneTap(chat, kind) => DoneKeeps(w, chat, kind);
    case Decide(_, _) =>
    case Restart =>
  }

  /** The shape survives every run, whatever is tapped. */
  lemma {:induction false} EveryRunShaped(us: seq<Update>)
    ensures ChatsShaped(Run(EMPTY, us).chats)
  {
    if us != [] {
      EveryRunShaped(us[..|us| - 1]);
      StepKeepsShape(Run(EMPTY, us[..|us| - 1]), us[|us| - 1]);
    }
  }

  // ------------------------------------------------- what becomes of the lists

  predicate Blank(row: ChatRow) {
    row.signals == row.execute == ""
  }

  /** The lists are as before, and the signal round was not entered anew. */
  predicate SameLists(row: ChatRow, row': ChatRow) {
    row'.signals == row.signals && row'.execute == row.execute &&
    (row'.state == PickingSignals ==> row.state == PickingSignals)
  }

  ghost predicate KeptOrBlank(chats: map<int, ChatRow>, chats': map<int, ChatRow>) {
    forall chat :: chat in chats' ==>
      Blank(chats'[chat]) || (chat in chats && SameLists(chats[chat], chats'[chat]))
  }

  lemma KeptTwice(a: map<int, ChatRow>, b: map<int, ChatRow>, c: map<int, ChatRow>)
    requires KeptOrBlank(a, b) && KeptOrBlank(b, c)
    ensures KeptOrBlank(a, c)
  {
    forall chat | chat in c ensures Blank(c[chat]) || (chat in a && SameLists(a[chat], c[chat])) {
      assert Blank(c[chat]) || SameLists(b[chat], c[chat]);
    }
  }

  lemma UpsertLists(chats: map<int, ChatRow>, chat: int, state: State, duration: Option<string>)
    requires state == PickingSignals ==> chat in chats && chats[chat].state == PickingSignals
    ensures KeptOrBlank(chats, Upserted(chats, chat, state, duration))
  {
  }

  lemma PhoneLists(w: World, chat: int, phone: string)
    ensures KeptOrBlank(w.chats, PhoneShared(w, chat, phone).chats)
  {
    var duration := DurationOf(w, chat);
    if duration.None? {
      UpsertLists(w.chats, chat, Idle, None);
    } else {
      PickerStarts(w.chats, chat, duration);
    }
  }

  lemma RoutedLists(w: World, chat: int, text: string, contact: Option<string>, wellFormed: bool)
    requires StateOf(w, chat) != AwaitingEmail
    ensures KeptOrBlank(w.chats, Routed(w, chat, text, contact, wellFormed).chats)
  {
    UpsertLists(w.chats, chat, Idle, None);
    if contact.Some? {
      PhoneLists(w, chat, contact.value);
    }
  }

  lemma MessageLists(w: World, chat: int, text: string, contact: Option<string>, wellFormed: bool)
    requires ChatsShaped(w.chats)
    ensures KeptOrBlank(w.chats, MessageSent(w, chat, text, contact, wellFormed).chats)
  {
    var w1 := Moved(w, chat, StateOf(w, chat), DurationOf(w, chat));
    UpsertLists(w.chats, chat, StateOf(w, chat), DurationOf(w, chat));
    if chat != 0 {
      RoutedLists(w1, chat, text, contact, wellFormed);
      KeptTwice(w.chats, w1.chats, MessageSent(w, chat, text, contact, wellFormed).chats);
    }
  }

  lemma FinalizedLists(w: World, chat: int)
    requires chat in w.chats
    ensures KeptOrBlank(w.chats, Finalized(w, chat).chats)
  {
    assert JoinCsv([]) == "";
  }

  lemma DoneLists(w: World, chat: int, kind: Kind)
    ensures KeptOrBlank(w.chats, DoneTapped(w, chat, kind).chats)
  {
    if chat in w.chats {
      UpsertLists(w.chats, chat, PickingExecute, w.chats[chat].duration);
      FinalizedLists(w, chat);
    }
  }

  /** Only taps on names write a list; all other updates keep or clear it. */
  lemma OnlyTapsWrite(w: World, u: Update)
    requires ChatsShaped(w.chats) && !u.PickTap?
    ensures KeptOrBlank(w.chats, Apply(w, u).chats)
  {
    match u
    case Message(chat, text, contact, wellFormed) => MessageLists(w, chat, text, contact, wellFormed);
    case DurationTap(chat, code) => UpsertLists(w.chats, chat, AwaitingPhone, Some(code));
    case DoneTap(chat, kind) => DoneLists(w, chat, kind);
    case Decide(_, _) =>
    case Restart =>
  }

  lemma NewRequestComplete(row: ChatRow, chat: int, phone: Option<string>)
    requires RowShape(row) && Distinct(Picks(row, Signals)) && Distinct(Picks(row, Execute))
    requires |Picks(row, Execute)| == 2 && row.duration.Some?
    ensures Complete(NewRequest(chat, row.duration.value, "", phone, Picks(row, Signals), Picks(row, Execute)))
  {
    ReadBack(row.signals);
    ReadBack(row.execute);
  }

  /** The lists a final button would store are without repetition. */
  ghost predicate ReadyDistinct(w: World) {
    forall chat :: chat in w.chats && |Picks(w.chats[chat], Execute)| == 2 ==>
      Distinct(Picks(w.chats[chat], Signals)) && Distinct(Picks(w.chats[chat], Execute))
  }

  /** As long as that holds, what is stored is complete. */
  lemma StepStoresComplete(w: World, u: Update)
    requires ChatsShaped(w.chats) && RequestsOk(w.requests) && ReadyDistinct(w)
    ensures RequestsOk(Apply(w, u).requests)
  {
    match u
    case Message(chat, text, contact, wellFormed) =>
      if chat != 0 { MessageKeeps(w, chat, text, contact, wellFormed); }
    case DoneTap(chat, kind) => DoneStoresComplete(w, chat, kind);
    case _ =>
  }

  lemma DoneStoresComplete(w: World, chat: int, kind: Kind)
    requires ChatsShaped(w.chats) && RequestsOk(w.requests) && ReadyDistinct(w)
    ensures RequestsOk(DoneTapped(w, chat, kind).requests)
  {
    if chat in w.chats && kind == Execute && |Picks(w.chats[chat], Execute)| == 2 {
      var row := w.chats[chat];
      if row.duration.Some? {
        NewRequestComplete(row, chat, CachedPhone(w, chat));
        FinalizedStores(w, chat);
      }
    }
  }

  /** The request that the final button appends. */
  lemma FinalizedStores(w: World, chat: int)
    requires chat in w.chats && w.chats[chat].duration.Some? && w.chats[chat].duration.value in VALID_DURATIONS
    ensures var row := w.chats[chat];
            Finalized(w, chat).requests
            == w.requests + [NewRequest(chat, row.duration.value, "", CachedPhone(w, chat),
                                        Picks(row, Signals), Picks(row, Execute))]
  {
  }

  lemma ColumnFitsIff(row: ChatRow, kind: Kind, name: string)
    requires ListsOk(row)
    ensures var current := Picks(row, kind);
            var t := Toggled(current, name, Required(kind));
            t.Some? ==> (ListsOk(WithColumn(row, kind, JoinCsv(t.value))) <==>
                         name in current || FreshPicks(current, name, Required(kind)))
  {
    var current := Picks(row, kind);
    SplitIsClean(if kind == Signals then row.signals else row.execute);
    var t := Toggled(current, name, Required(kind));
    if t.Some? {
      ToggleFitsIff(current, name, Required(kind));
    }
  }

  lemma TapKeepsListsIff(w: World, chat: int, kind: Kind, name: string)
    requires WorldOk(w)
    ensures WorldOk(Apply(w, PickTap(chat, kind, name))) <==> TapFits(w, PickTap(chat, kind, name))
  {
    StepKeepsShape(w, PickTap(chat, kind, name));
    if chat in w.chats && w.chats[chat].state == PickingState(kind) {
      var row := w.chats[chat];
      TapWrites(w, chat, kind, name);
      ColumnFitsIff(row, kind, name);
      var t := Toggled(Picks(row, kind), name, Required(kind));
      if t.Some? {
        OneRowDecides(w.chats, PickTapped(w, chat, kind, name).chats, chat);
      }
    }
  }

  lemma OneRowDecides(chats: map<int, ChatRow>, after: map<int, ChatRow>, chat: int)
    requires forall c :: c in chats ==> ListsOk(chats[c])
    requires chat in chats && chat in after && after == chats[chat := after[chat]]
    ensures (forall c :: c in after ==> ListsOk(after[c])) <==> ListsOk(after[chat])
  {
  }

  /** The lists stay in order under an update exactly when it is not a misfit tap. */
  lemma StepKeepsIff(w: World, u: Update)
    requires WorldOk(w)
    ensures WorldOk(Apply(w, u)) <==> TapFits(w, u)
  {
    if u.PickTap? {
      TapKeepsListsIff(w, u.chat, u.kind, u.name);
    } else {
      StepKeepsShape(w, u);
      OnlyTapsWrite(w, u);
      EmptyColumns();
      StepStoresComplete(w, u);
    }
  }

  /** At every moment of the run all lists are in order and all requests complete. */
  ghost predicate AlwaysOk(us: seq<Update>) {
    if us == [] then WorldOk(EMPTY) else AlwaysOk(us[..|us| - 1]) && WorldOk(Run(EMPTY, us))
  }

  ghost predicate AllTapsFit(us: seq<Update>) {
    us == [] || (AllTapsFit(us[..|us| - 1]) && TapFits(Run(EMPTY, us[..|us| - 1]), us[|us| - 1]))
  }

  lemma AlwaysThenNow(us: seq<Update>)
    requires AlwaysOk(us)
    ensures WorldOk(Run(EMPTY, us))
  {
  }

  /** With stale buttons, restarts and `/start` at any point: every list stays without
      repetition and within its limit, exactly when no tap is a misfit. */
  lemma {:induction false} EveryListFitsIff(us: seq<Update>)
    ensures AlwaysOk(us) <==> AllTapsFit(us)
  {
    if us != [] {
      EveryListFitsIff(us[..|us| - 1]);
      if AlwaysOk(us[..|us| - 1]) {
        AlwaysThenNow(us[..|us| - 1]);
        StepKeepsIff(Run(EMPTY, us[..|us| - 1]), us[|us| - 1]);
      }
    }
  }

  /** The buttons of the bot's own pickers never misfit. */
  lemma {:induction false} CleanTapsComplete(us: seq<Update>)
    requires forall i :: 0 <= i < |us| ==> CleanTap(us[i])
    ensures AlwaysOk(us)
  {
    if us != [] {
      CleanTapsComplete(us[..|us| - 1]);
      AlwaysThenNow(us[..|us| - 1]);
      CleanTapFits(Run(EMPTY, us[..|us| - 1]), us[|us| - 1]);
      StepKeepsIff(Run(EMPTY, us[..|us| - 1]), us[|us| - 1]);
    }
  }

  // ------------------------------------------------ what a request copies

  /** The cached phone of a chat. */
  function CachedPhone(w: World, chat: int): Option<string> {
    if chat in w.phones then Some(w.phones[chat]) else None
  }

  /** The final button copies whatever the columns, the row and the cache hold. */
  lemma FinalizeCopies(w: World, chat: int)
    requires chat in w.chats && w.chats[chat].duration.Some? && w.chats[chat].duration.value in VALID_DURATIONS
    ensures var w1, row := Finalized(w, chat), w.chats[chat];
            && |w1.requests| == |w.requests| + 1 && w1.requests[..|w.requests|] == w.requests
            && var r := w1.requests[|w.requests|];
            && r.chat == chat && Some(r.duration) == row.duration && r.phone == CachedPhone(w, chat)
            && r.email == "" && r.status == Pending
            && SplitCsv(r.signals) == Picks(row, Signals) && SplitCsv(r.execute) == Picks(row, Execute)
  {
    ReadBack(w.chats[chat].signals);
    ReadBack(w.chats[chat].execute);
  }

  /** Reading a column and writing it back loses nothing more. */
  lemma ReadBack(column: string)
    ensures SplitCsv(JoinCsv(SplitCsv(column))) == SplitCsv(column)
  {
    SplitIsClean(column);
    CleanRoundTrip(SplitCsv(column));
  }

  lemma RunStep(w: World, us: seq<Update>, u: Update)
    ensures Run(w, us + [u]) == Apply(Run(w, us), u)
  {
    assert (us + [u])[..|us|] == us;
  }

  /** `/start` after the last pick, the old button, a duration and the old button again:
      a complete request is created whose phone number was thrown away. */
  lemma StaleButtonDropsPhone(w: World, chat: int, code: string)
    requires WorldOk(w) && chat != 0 && chat in w.chats && |Picks(w.chats[chat], Execute)| == 2
    requires code in VALID_DURATIONS
    ensures var w1 := Apply(Apply(w, Message(chat, "/start", None, false)), DoneTap(chat, Execute));
            var w2 := Apply(Apply(w1, DurationTap(chat, code)), DoneTap(chat, Execute));
            && |w2.requests| == |w.requests| + 1
            && w2.requests[|w.requests|].phone == None && Complete(w2.requests[|w.requests|])
  {
    var w0 := Apply(w, Message(chat, "/start", None, false));
    var w1 := Apply(w0, DoneTap(chat, Execute));
    var w1' := Apply(w1, DurationTap(chat, code));
    StartForgets(w, chat);
    DoneWithoutDuration(w0, chat);
    TapSetsDuration(w1, chat, code);
    NewRequestComplete(w1'.chats[chat], chat, None);
    FinalizedStores(w1', chat);
  }

  lemma StartForgets(w: World, chat: int)
    requires chat != 0 && chat in w.chats
    ensures var w' := Apply(w, Message(chat, "/start", None, false));
            && chat in w'.chats && w'.chats[chat] == w.chats[chat].(state := Idle, duration := None)
            && w'.requests == w.requests && w'.phones == w.phones
  {
  }

  lemma DoneWithoutDuration(w: World, chat: int)
    requires chat != 0 && chat in w.chats && w.chats[chat].duration.None? && |Picks(w.chats[chat], Execute)| == 2
    ensures var w' := Apply(w, DoneTap(chat, Execute));
            && chat in w'.chats && w'.chats[chat] == w.chats[chat].(state := Idle)
            && w'.requests == w.requests && chat !in w'.phones
  {
  }

  lemma TapSetsDuration(w: World, chat: int, code: string)
    requires chat != 0 && chat in w.chats && code in VALID_DURATIONS
    ensures var w' := Apply(w, DurationTap(chat, code));
            && chat in w'.chats && w'.chats[chat] == w.chats[chat].(state := AwaitingPhone, duration := Some(code))
            && w'.requests == w.requests && w'.phones == w.phones
  {
  }

  // ------------------------------------------- which requests carry a phone

  /** The shared contact that this update puts into the cache. */
  function AcceptedContact(w: World, u: Update, chat: int): Option<string> {
    if && u.Message? && u.chat == chat != 0 && u.text != "/start"
       && u.contact.Some? && u.contact.value != ""
       && StateOf(w, chat) == AwaitingPhone && DurationOf(w, chat).Some?
    then Some(CleanPhone(u.contact.value)) else None
  }

  /** A restart, or the final button with both execute picks made. */
  predicate DropsPhone(w: World, u: Update, chat: int) {
    || u.Restart?
    || (u == DoneTap(chat, Execute) && chat != 0 && chat in w.chats && |Picks(w.chats[chat], Execute)| == 2)
  }

  lemma PhoneStep(w: World, u: Update, chat: int)
    ensures CachedPhone(Apply(w, u), chat) ==
            if AcceptedContact(w, u, chat).Some? then AcceptedContact(w, u, chat)
            else if DropsPhone(w, u, chat) then None
            else CachedPhone(w, chat)
  {
    match u
    case Message(c, text, contact, wellFormed) =>
    case DurationTap(_, _) =>
    case PickTap(_, _, _) =>
    case DoneTap(_, _) =>
    case Decide(_, _) =>
    case Restart =>
  }

  function AcceptedAt(us: seq<Update>, k: nat, chat: int): Option<string>
    requires k < |us|
  {
    AcceptedContact(Run(EMPTY, us[..k]), us[k], chat)
  }

  predicate DropsAt(us: seq<Update>, k: nat, chat: int)
    requires k < |us|
  {
    DropsPhone(Run(EMPTY, us[..k]), us[k], chat)
  }

  /** Neither a contact of the chat is accepted nor its phone dropped at `k`. */
  predicate QuietAt(us: seq<Update>, k: nat, chat: int)
    requires k < |us|
  {
    AcceptedAt(us, k, chat).None? && !DropsAt(us, k, chat)
  }

  ghost predicate LastPhoneAt(us: seq<Update>, k: int, chat: int, phone: string) {
    && 0 <= k < |us| && AcceptedAt(us, k, chat) == Some(phone)
    && forall j :: k < j < |us| ==> QuietAt(us, j, chat)
  }

  /** Among the chat's accepted contacts, its counted final buttons and the restarts, the
      last one is the contact with this number. */
  ghost predicate LastPhone(us: seq<Update>, chat: int, phone: string) {
    exists k :: LastPhoneAt(us, k, chat, phone)
  }

  lemma LastPhoneStep(before: seq<Update>, u: Update, chat: int, phone: string)
    ensures var w := Run(EMPTY, before);
            LastPhone(before + [u], chat, phone) <==>
            if AcceptedContact(w, u, chat).Some? then AcceptedContact(w, u, chat) == Some(phone)
            else !DropsPhone(w, u, chat) && LastPhone(before, chat, phone)
  {
    var all, n := before + [u], |before|;
    assert all[..n] == before && all[n] == u;
    forall k | 0 <= k < n ensures AcceptedAt(all, k, chat) == AcceptedAt(before, k, chat)
      ensures QuietAt(all, k, chat) <==> QuietAt(before, k, chat)
    {
      assert all[..k] == before[..k];
    }
    if LastPhone(all, chat, phone) {
      var k :| LastPhoneAt(all, k, chat, phone);
      if k < n {
        assert QuietAt(all, n, chat);
        assert LastPhoneAt(before, k, chat, phone);
      }
    }
    if AcceptedContact(Run(EMPTY, before), u, chat) == Some(phone) {
      assert LastPhoneAt(all, n, chat, phone);
    }
    if QuietAt(all, n, chat) && LastPhone(before, chat, phone) {
      var k :| LastPhoneAt(before, k, chat, phone);
      assert LastPhoneAt(all, k, chat, phone);
    }
  }

  lemma {:induction false} CacheIsLastContact(us: seq<Update>, chat: int, phone: string)
    ensures CachedPhone(Run(EMPTY, us), chat) == Some(phone) <==> LastPhone(us, chat, phone)
  {
    if us != [] {
      var before, u := us[..|us| - 1], us[|us| - 1];
      assert us == before + [u];
      CacheIsLastContact(before, chat, phone);
      PhoneStep(Run(EMPTY, before), u, chat);
      LastPhoneStep(before, u, chat, phone);
    }
  }

  /** Whatever the taps, no chat is ever asked for an e-mail. */
  lemma {:induction false} NeverAwaitsEmail(us: seq<Update>, chat: int)
    ensures StateOf(Run(EMPTY, us), chat) != AwaitingEmail
  {
    if us != [] {
      NeverAwaitsEmail(us[..|us| - 1], chat);
      StaysOffEmail(Run(EMPTY, us[..|us| - 1]), us[|us| - 1], chat);
    }
  }

  lemma StaysOffEmail(w: World, u: Update, chat: int)
    requires StateOf(w, chat) != AwaitingEmail
    ensures StateOf(Apply(w, u), chat) != AwaitingEmail
  {
    if Touches(u, chat) {
      match u
      case Message(c, text, contact, wellFormed) =>
      case DurationTap(_, _) =>
      case PickTap(_, _, _) =>
      case DoneTap(_, _) =>
      case Restart =>
    } else {
      StepKeepsOthers(w, u, chat);
      assert StateOf(Apply(w, u), chat) == StateOf(w, chat);
    }
  }

  /** Only the final button of a chat with both execute picks creates a request. */
  lemma OnlyFinalCreates(w: World, u: Update)
    requires u.Message? ==> StateOf(w, u.chat) != AwaitingEmail
    requires |Apply(w, u).requests| > |w.requests|
    ensures u.DoneTap? && u.kind == Execute && u.chat != 0 && u.chat in w.chats
    ensures Apply(w, u) == Finalized(w, u.chat)
    ensures w.chats[u.chat].duration.Some? && w.chats[u.chat].duration.value in VALID_DURATIONS
  {
  }

  /** A created request carries a phone number exactly when that number's contact is the
      last of the chat's accepted contacts, counted final buttons and restarts before it. */
  lemma RequestPhoneIff(us: seq<Update>, u: Update, phone: string)
    requires var w := Run(EMPTY, us); |Apply(w, u).requests| > |w.requests|
    ensures u.DoneTap? && u.kind == Execute
    ensures var w := Run(EMPTY, us);
            && |Apply(w, u).requests| == |w.requests| + 1
            && (Apply(w, u).requests[|w.requests|].phone == Some(phone) <==> LastPhone(us, u.chat, phone))
  {
    var w := Run(EMPTY, us);
    if u.Message? {
      NeverAwaitsEmail(us, u.chat);
    }
    OnlyFinalCreates(w, u);
    FinalizeCopies(w, u.chat);
    CacheIsLastContact(us, u.chat, phone);
  }

  // ------------------------------------------------------------- isolation

  predicate Touches(u: Update, chat: int) {
    match u
    case Message(c, _, _, _) => c == chat
    case DurationTap(c, _) => c == chat
    case PickTap(c, _, _) => c == chat
    case DoneTap(c, _) => c == chat
    case Decide(_, _) => false
    case Restart => true
  }

  /** What a chat sees: its row and its cached phone. */
  function ViewOf(w: World, chat: int): (Option<ChatRow>, Option<string>) {
    (if chat in w.chats then Some(w.chats[chat]) else None, if chat in w.phones then Some(w.phones[chat]) else None)
  }

  lemma MessageKeepsOthers(w: World, chat: int, text: string, contact: Option<string>, wellFormed: bool, other: int)
    requires chat != other
    ensures ViewOf(MessageSent(w, chat, text, contact, wellFormed), other) == ViewOf(w, other)
  {
  }

  lemma DoneKeepsOthers(w: World, chat: int, kind: Kind, other: int)
    requires chat != other
    ensures ViewOf(DoneTapped(w, chat, kind), other) == ViewOf(w, other)
  {
  }

  lemma StepKeepsOthers(w: World, u: Update, other: int)
    requires !Touches(u, other)
    ensures ViewOf(Apply(w, u), other) == ViewOf(w, other)
  {
    match u
    case Message(chat, text, contact, wellFormed) => MessageKeepsOthers(w, chat, text, contact, wellFormed, other);
    case DurationTap(_, _) =>
    case PickTap(_, _, _) =>
    case DoneTap(chat, kind) => DoneKeepsOthers(w, chat, kind, other);
    case Decide(_, _) =>
  }

  /** Projection: a chat's conversation depends only on its own updates and on restarts. */
  function Own(us: seq<Update>, chat: int): seq<Update> {
    if us == [] then []
    else
      var rest := Own(us[..|us| - 1], chat);
      if Touches(us[|us| - 1], chat) then rest + [us[|us| - 1]] else rest
  }

  lemma MessageOwn(w1: World, w2: World, chat: int, text: string, contact: Option<string>, wellFormed: bool)
    requires ViewOf(w1, chat) == ViewOf(w2, chat)
    ensures ViewOf(MessageSent(w1, chat, text, contact, wellFormed), chat)
         == ViewOf(MessageSent(w2, chat, text, contact, wellFormed), chat)
  {
    assert StateOf(w1, chat) == StateOf(w2, chat) && DurationOf(w1, chat) == DurationOf(w2, chat);
    var v1 := Moved(w1, chat, StateOf(w1, chat), DurationOf(w1, chat));
    var v2 := Moved(w2, chat, StateOf(w2, chat), DurationOf(w2, chat));
    assert ViewOf(v1, chat) == ViewOf(v2, chat);
    if contact.Some? {
      PhoneOwn(v1, v2, chat, contact.value);
    }
  }

  lemma PhoneOwn(w1: World, w2: World, chat: int, phone: string)
    requires ViewOf(w1, chat) == ViewOf(w2, chat)
    ensures ViewOf(PhoneShared(w1, chat, phone), chat) == ViewOf(PhoneShared(w2, chat, phone), chat)
  {
  }

  lemma DoneOwn(w1: World, w2: World, chat: int, kind: Kind)
    requires ViewOf(w1, chat) == ViewOf(w2, chat)
    ensures ViewOf(DoneTapped(w1, chat, kind), chat) == ViewOf(DoneTapped(w2, chat, kind), chat)
  {
    assert chat in w1.chats <==> chat in w2.chats;
    if chat in w1.chats && kind == Execute {
      FinalizeOwn(w1, w2, chat);
    }
  }

  lemma FinalizeOwn(w1: World, w2: World, chat: int)
    requires ViewOf(w1, chat) == ViewOf(w2, chat) && chat in w1.chats && chat in w2.chats
    ensures ViewOf(Finalized(w1, chat), chat) == ViewOf(Finalized(w2, chat), chat)
  {
  }

  lemma PickOwn(w1: World, w2: World, chat: int, kind: Kind, name: string)
    requires ViewOf(w1, chat) == ViewOf(w2, chat)
    ensures ViewOf(PickTapped(w1, chat, kind, name), chat) == ViewOf(PickTapped(w2, chat, kind, name), chat)
  {
    assert chat in w1.chats <==> chat in w2.chats;
  }

  lemma OwnStep(w1: World, w2: World, u: Update, chat: int)
    requires ViewOf(w1, chat) == ViewOf(w2, chat) && Touches(u, chat)
    ensures ViewOf(Apply(w1, u), chat) == ViewOf(Apply(w2, u), chat)
  {
    match u
    case Message(_, text, contact, wellFormed) => MessageOwn(w1, w2, chat, text, contact, wellFormed);
    case DurationTap(_, code) =>
    case PickTap(_, kind, name) => PickOwn(w1, w2, chat, kind, name);
    case DoneTap(_, kind) => DoneOwn(w1, w2, chat, kind);
    case Restart =>
  }

  lemma {:induction false} ChatsAreIndependent(w: World, us: seq<Update>, chat: int)
    ensures ViewOf(Run(w, us), chat) == ViewOf(Run(w, Own(us, chat)), chat)
  {
    if us != [] {
      var before, u := us[..|us| - 1], us[|us| - 1];
      ChatsAreIndependent(w, before, chat);
      if Touches(u, chat) {
        RunStep(w, Own(before, chat), u);
        OwnStep(Run(w, before), Run(w, Own(before, chat)), u, chat);
      } else {
        StepKeepsOthers(Run(w, before), u, chat);
      }
    }
  }

  // ------------------------------------------------------------- decisions

  /** Requests are never removed or edited; only a pending one can be decided, once. */
  ghost predicate Settles(earlier: seq<Request>, later: seq<Request>) {
    && |earlier| <= |later|
    && (forall i :: 0 <= i < |earlier| ==>
          && later[i] == earlier[i].(status := later[i].status)
          && (earlier[i].status != Pending ==> later[i] == earlier[i]))
  }

  lemma StepSettles(w: World, u: Update)
    ensures Settles(w.requests, Apply(w, u).requests)
  {
  }

  lemma {:induction false} DecisionsStick(w: World, us: seq<Update>)
    ensures Settles(w.requests, Run(w, us).requests)
  {
    if us != [] {
      DecisionsStick(w, us[..|us| - 1]);
      StepSettles(Run(w, us[..|us| - 1]), us[|us| - 1]);
    }
  }
}
