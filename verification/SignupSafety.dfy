/** When the stored requests are safe: exactly which taps can lead to an incomplete one. */
module SignupSafety {
  import opened Common
  import opened Csv
  import opened SignupModel

  /** A repetition that can still reach a request: in the execute list, or in a signal list
      that is being picked or is already complete. */
  ghost predicate Spoiled(row: ChatRow) {
    || !Distinct(Picks(row, Execute))
    || (!Distinct(Picks(row, Signals)) && (row.state == PickingSignals || |Picks(row, Signals)| == 3))
  }

  ghost predicate Unspoiled(chats: map<int, ChatRow>) {
    forall chat :: chat in chats ==> !Spoiled(chats[chat])
  }

  /** What the column makes of `name` is new and without repetition; how many names it makes
      does not matter. */
  ghost predicate FreshNames(current: seq<string>, name: string) {
    Distinct(SplitCsv(name)) && forall x :: x in SplitCsv(name) ==> x !in current
  }

  /** The tap is not taken, removes a pick, or reads back as distinct, new names. */
  ghost predicate TapDistinct(w: World, u: Update) {
    match u
    case PickTap(chat, kind, name) =>
      chat != 0 && chat in w.chats && w.chats[chat].state == PickingState(kind) ==>
        var current := Picks(w.chats[chat], kind);
        name in current || |current| >= Required(kind) || FreshNames(current, name)
    case _ => true
  }

  // ------------------------------------------------------- one update

  lemma ToggleDistinctIff(current: seq<string>, name: string, required: nat)
    requires AllClean(current) && Distinct(current)
    ensures var t := Toggled(current, name, required);
            t.Some? ==> (Distinct(SplitCsv(JoinCsv(t.value))) <==> name in current || FreshNames(current, name))
  {
    if name in current {
      WithoutKeeps(current, name);
      CleanRoundTrip(Without(current, name));
    } else {
      SplitAppended(current, name);
      DistinctConcat(current, SplitCsv(name));
    }
  }

  lemma ColumnSpoilsIff(row: ChatRow, kind: Kind, name: string)
    requires RowShape(row) && !Spoiled(row) && row.state == PickingState(kind)
    ensures var current := Picks(row, kind);
            var t := Toggled(current, name, Required(kind));
            t.Some? ==> (!Spoiled(WithColumn(row, kind, JoinCsv(t.value))) <==>
                         name in current || FreshNames(current, name))
  {
    SplitIsClean(if kind == Signals then row.signals else row.execute);
    ToggleDistinctIff(Picks(row, kind), name, Required(kind));
  }

  lemma TapSpoilsIff(w: World, chat: int, kind: Kind, name: string)
    requires ChatsShaped(w.chats) && Unspoiled(w.chats) && chat != 0
    ensures Unspoiled(PickTapped(w, chat, kind, name).chats) <==> TapDistinct(w, PickTap(chat, kind, name))
  {
    if chat in w.chats && w.chats[chat].state == PickingState(kind) {
      var row := w.chats[chat];
      TapWrites(w, chat, kind, name);
      ColumnSpoilsIff(row, kind, name);
      var t := Toggled(Picks(row, kind), name, Required(kind));
      if t.Some? {
        OneRowSpoils(w.chats, chat, WithColumn(row, kind, JoinCsv(t.value)));
      }
    }
  }

  lemma OneRowSpoils(chats: map<int, ChatRow>, chat: int, row: ChatRow)
    requires Unspoiled(chats)
    ensures Unspoiled(chats[chat := row]) <==> !Spoiled(row)
  {
    assert chats[chat := row][chat] == row;
  }

  /** An update leaves no usable repetition behind exactly when it is not a tap that reads
      back with one. */
  lemma StepSpoilsIff(w: World, u: Update)
    requires ChatsShaped(w.chats) && Unspoiled(w.chats)
    ensures Unspoiled(Apply(w, u).chats) <==> TapDistinct(w, u)
  {
    if u.PickTap? {
      if u.chat != 0 {
        TapSpoilsIff(w, u.chat, u.kind, u.name);
      }
    } else {
      OnlyTapsWrite(w, u);
      EmptyColumns();
    }
  }

  lemma UnspoiledIsReady(w: World)
    requires ChatsShaped(w.chats) && Unspoiled(w.chats)
    ensures ReadyDistinct(w)
  {
  }

  // ------------------------------------------------------- what may follow

  ghost predicate CleanTaps(us: seq<Update>) {
    forall i :: 0 <= i < |us| ==> CleanTap(us[i])
  }

  /** Some continuation, in which every tapped name is an ordinary one, ends with an
      incomplete request in the table. */
  ghost predicate CanGoWrong(w: World) {
    exists us :: CleanTaps(us) && !RequestsOk(Run(w, us).requests)
  }

  lemma CleanIsDistinct(w: World, u: Update)
    requires CleanTap(u)
    ensures TapDistinct(w, u)
  {
    if u.PickTap? {
      SplitOne(u.name);
    }
  }

  lemma {:induction false} CleanStaysSafe(w: World, us: seq<Update>)
    requires ChatsShaped(w.chats) && Unspoiled(w.chats) && RequestsOk(w.requests) && CleanTaps(us)
    ensures var w' := Run(w, us); ChatsShaped(w'.chats) && Unspoiled(w'.chats) && RequestsOk(w'.requests)
  {
    if us != [] {
      var before, u := us[..|us| - 1], us[|us| - 1];
      CleanStaysSafe(w, before);
      var w1 := Run(w, before);
      StepKeepsShape(w1, u);
      CleanIsDistinct(w1, u);
      StepSpoilsIff(w1, u);
      UnspoiledIsReady(w1);
      StepStoresComplete(w1, u);
    }
  }

  lemma {:induction false} RunCons(w: World, u: Update, us: seq<Update>)
    ensures Run(w, [u] + us) == Run(Apply(w, u), us)
  {
    var all := [u] + us;
    if us == [] {
      assert all[..0] == [];
    } else {
      RunCons(w, u, us[..|us| - 1]);
      assert all[..|all| - 1] == [u] + us[..|us| - 1];
    }
  }

  lemma WrongAlready(w: World)
    requires !RequestsOk(w.requests)
    ensures CanGoWrong(w)
  {
    assert CleanTaps([]) && Run(w, []) == w;
  }

  lemma WrongAfter(w: World, u: Update)
    requires CleanTap(u) && CanGoWrong(Apply(w, u))
    ensures CanGoWrong(w)
  {
    var us :| CleanTaps(us) && !RequestsOk(Run(Apply(w, u), us).requests);
    RunCons(w, u, us);
    assert CleanTaps([u] + us);
  }

  // -------------------------------------------------- repetitions survive

  lemma {:induction false} DistinctCounts(xs: seq<string>, x: string)
    requires Distinct(xs)
    ensures multiset(xs)[x] <= 1
  {
    if xs != [] {
      var n := |xs| - 1;
      DistinctCounts(xs[..n], x);
      assert xs == xs[..n] + [xs[n]];
      assert xs[n] !in xs[..n];
    }
  }

  lemma RepeatedCounts(xs: seq<string>) returns (x: string)
    requires !Distinct(xs)
    ensures multiset(xs)[x] >= 2
  {
    var i, j :| 0 <= i < j < |xs| && xs[i] == xs[j];
    x := xs[i];
    assert xs == xs[..j] + xs[j..];
    assert x == xs[..j][i] && x == xs[j..][0];
    assert x in multiset(xs[..j]) && x in multiset(xs[j..]);
  }

  lemma {:induction false} WithoutCounts(xs: seq<string>, y: string)
    requires y in xs
    ensures multiset(Without(xs, y)) == multiset(xs) - multiset{y}
  {
    var rest := xs[1..];
    assert xs == [xs[0]] + rest;
    if xs[0] != y {
      WithoutCounts(rest, y);
    }
  }

  /** From a list of more than two with a repetition, something can be taken so that a
      repetition stays. */
  lemma Removable(xs: seq<string>) returns (y: string)
    requires !Distinct(xs) && |xs| > 2
    ensures y in xs && !Distinct(Without(xs, y))
  {
    var x := RepeatedCounts(xs);
    if z :| z in xs && z != x {
      y := z;
    } else {
      y := x;
      OnlyOne(xs, x);
      assert x in multiset(xs);
    }
    WithoutCounts(xs, y);
    if Distinct(Without(xs, y)) {
      DistinctCounts(Without(xs, y), x);
    }
  }

  lemma {:induction false} OnlyOne(xs: seq<string>, x: string)
    requires forall z :: z in xs ==> z == x
    ensures multiset(xs)[x] == |xs|
  {
    if xs != [] {
      var rest := xs[1..];
      assert xs == [xs[0]] + rest;
      forall z | z in rest ensures z == x {
        assert z in xs;
      }
      OnlyOne(rest, x);
      assert xs[0] in xs;
    }
  }

  function Spare(xs: seq<string>): string {
    if "a" !in xs then "a" else if "b" !in xs then "b" else "c"
  }

  lemma SpareIsNew(xs: seq<string>)
    requires |xs| <= 2
    ensures Spare(xs) !in xs && Clean(Spare(xs))
  {
    if Spare(xs) in xs {
      var i, j, k :| 0 <= i < |xs| && 0 <= j < |xs| && 0 <= k < |xs| && xs[i] == "a" && xs[j] == "b" && xs[k] == "c";
      assert false;
    }
  }

  lemma MoreStaysRepeated(xs: seq<string>, x: string)
    requires !Distinct(xs)
    ensures !Distinct(xs + [x])
  {
    var i, j :| 0 <= i < j < |xs| && xs[i] == xs[j];
    assert (xs + [x])[i] == (xs + [x])[j];
  }

  // ----------------------------------------------------- how it goes wrong

  /** A taken tap replaces one list by exactly the toggled one. */
  lemma TapTakes(w: World, chat: int, kind: Kind, name: string, picks: seq<string>)
    requires chat != 0 && chat in w.chats && w.chats[chat].state == PickingState(kind)
    requires Toggled(Picks(w.chats[chat], kind), name, Required(kind)) == Some(picks)
    requires name in Picks(w.chats[chat], kind) || Clean(name)
    ensures CleanTap(PickTap(chat, kind, name))
    ensures var w' := Apply(w, PickTap(chat, kind, name));
            && chat in w'.chats && w'.chats[chat] == WithColumn(w.chats[chat], kind, JoinCsv(picks))
            && Picks(w'.chats[chat], kind) == picks
  {
    var row := w.chats[chat];
    SplitIsClean(if kind == Signals then row.signals else row.execute);
    ToggledIsClean(Picks(row, kind), name, Required(kind), picks);
    TapWrites(w, chat, kind, name);
    CleanRoundTrip(picks);
    ColumnReads(row, kind, JoinCsv(picks));
  }

  lemma ToggledIsClean(current: seq<string>, name: string, required: nat, picks: seq<string>)
    requires AllClean(current) && Toggled(current, name, required) == Some(picks)
    requires name in current || Clean(name)
    ensures AllClean(picks) && Clean(name)
  {
    if name in current {
      WithoutKeeps(current, name);
    }
  }

  lemma ColumnReads(row: ChatRow, kind: Kind, column: string)
    ensures Picks(WithColumn(row, kind, column), kind) == SplitCsv(column)
  {
  }

  ghost predicate Repeats(row: ChatRow) {
    !Distinct(Picks(row, Signals)) || !Distinct(Picks(row, Execute))
  }

  lemma RepeatsIncomplete(r: Request, row: ChatRow)
    requires SplitCsv(r.signals) == Picks(row, Signals) && SplitCsv(r.execute) == Picks(row, Execute) && Repeats(row)
    ensures !Complete(r)
  {
  }

  lemma FinalStores(w: World, chat: int)
    requires chat != 0 && chat in w.chats && w.chats[chat].duration == Some("1w")
    requires |Picks(w.chats[chat], Execute)| == 2 && Repeats(w.chats[chat])
    ensures !RequestsOk(Apply(w, DoneTap(chat, Execute)).requests)
  {
    var w' := Finalized(w, chat);
    assert Apply(w, DoneTap(chat, Execute)) == w';
    FinalizeCopies(w, chat);
    RepeatsIncomplete(w'.requests[|w.requests|], w.chats[chat]);
  }

  lemma DurationGiven(w: World, chat: int)
    requires chat != 0 && chat in w.chats
    ensures var w' := Apply(w, DurationTap(chat, "1w"));
            chat in w'.chats && w'.chats[chat] == w.chats[chat].(state := AwaitingPhone, duration := Some("1w"))
  {
  }

  /** Two execute picks and a repetition: a duration and the final button store it. */
  lemma FinalGoesWrong(w: World, chat: int)
    requires chat != 0 && chat in w.chats && |Picks(w.chats[chat], Execute)| == 2 && Repeats(w.chats[chat])
    ensures CanGoWrong(w)
  {
    var w1 := Apply(w, DurationTap(chat, "1w"));
    DurationGiven(w, chat);
    FinalStores(w1, chat);
    WrongAlready(Apply(w1, DoneTap(chat, Execute)));
    WrongAfter(w1, DoneTap(chat, Execute));
    WrongAfter(w, DurationTap(chat, "1w"));
  }

  /** In the execute round: surplus picks are removed, missing ones added. */
  lemma {:induction false} ExecuteGoesWrong(w: World, chat: int)
    requires chat != 0 && chat in w.chats && w.chats[chat].state == PickingExecute && Repeats(w.chats[chat])
    ensures CanGoWrong(w)
    decreases Distance(Picks(w.chats[chat], Execute), 2)
  {
    var row := w.chats[chat];
    var picks := Picks(row, Execute);
    if |picks| == 2 {
      FinalGoesWrong(w, chat);
    } else if |picks| < 2 {
      SpareIsNew(picks);
      TapTakes(w, chat, Execute, Spare(picks), picks + [Spare(picks)]);
      ExecuteGoesWrong(Apply(w, PickTap(chat, Execute, Spare(picks))), chat);
      WrongAfter(w, PickTap(chat, Execute, Spare(picks)));
    } else {
      var y := picks[0];
      if !Distinct(picks) {
        y := Removable(picks);
      }
      WithoutKeeps(picks, y);
      TapTakes(w, chat, Execute, y, Without(picks, y));
      ExecuteGoesWrong(Apply(w, PickTap(chat, Execute, y)), chat);
      WrongAfter(w, PickTap(chat, Execute, y));
    }
  }

  function Distance(xs: seq<string>, n: nat): nat {
    if |xs| >= n then |xs| - n else n - |xs|
  }

  lemma RoundDone(w: World, chat: int)
    requires chat != 0 && chat in w.chats && |Picks(w.chats[chat], Signals)| == 3 && Repeats(w.chats[chat])
    ensures CanGoWrong(w)
  {
    var w1 := Apply(w, DoneTap(chat, Signals));
    RoundCloses(w, chat);
    ExecuteGoesWrong(w1, chat);
    WrongAfter(w, DoneTap(chat, Signals));
  }

  /** In the signal round: brought to three picks, then as above. */
  lemma {:induction false} SignalsGoWrong(w: World, chat: int)
    requires chat != 0 && chat in w.chats && w.chats[chat].state == PickingSignals
    requires !Distinct(Picks(w.chats[chat], Signals))
    ensures CanGoWrong(w)
    decreases Distance(Picks(w.chats[chat], Signals), 3)
  {
    var picks := Picks(w.chats[chat], Signals);
    if |picks| == 3 {
      RoundDone(w, chat);
    } else if |picks| < 3 {
      SpareIsNew(picks);
      MoreStaysRepeated(picks, Spare(picks));
      TapTakes(w, chat, Signals, Spare(picks), picks + [Spare(picks)]);
      SignalsGoWrong(Apply(w, PickTap(chat, Signals, Spare(picks))), chat);
      WrongAfter(w, PickTap(chat, Signals, Spare(picks)));
    } else {
      var y := Removable(picks);
      WithoutKeeps(picks, y);
      TapTakes(w, chat, Signals, y, Without(picks, y));
      SignalsGoWrong(Apply(w, PickTap(chat, Signals, y)), chat);
      WrongAfter(w, PickTap(chat, Signals, y));
    }
  }

  lemma SpoiledGoesWrong(w: World, chat: int)
    requires ChatsShaped(w.chats) && chat in w.chats && Spoiled(w.chats[chat])
    ensures CanGoWrong(w)
  {
    if |Picks(w.chats[chat], Signals)| == 3 {
      RoundDone(w, chat);
    } else {
      SignalsGoWrong(w, chat);
    }
  }

  /** As long as no incomplete request is stored, one can still come about through ordinary
      taps exactly when some chat holds a usable repetition. */
  lemma CanGoWrongIff(w: World)
    requires ChatsShaped(w.chats) && RequestsOk(w.requests)
    ensures CanGoWrong(w) <==> !Unspoiled(w.chats)
  {
    if Unspoiled(w.chats) {
      forall us | CleanTaps(us) ensures RequestsOk(Run(w, us).requests) {
        CleanStaysSafe(w, us);
      }
    } else {
      var chat :| chat in w.chats && Spoiled(w.chats[chat]);
      SpoiledGoesWrong(w, chat);
    }
  }

  // ------------------------------------------------------------ every run

  /** At every moment of the run no incomplete request is stored and none can come about
      through ordinary taps. */
  ghost predicate AlwaysSafe(us: seq<Update>) {
    !CanGoWrong(Run(EMPTY, us)) && (us == [] || AlwaysSafe(us[..|us| - 1]))
  }

  ghost predicate AllTapsDistinct(us: seq<Update>) {
    us == [] || (AllTapsDistinct(us[..|us| - 1]) && TapDistinct(Run(EMPTY, us[..|us| - 1]), us[|us| - 1]))
  }

  /** With stale buttons, restarts and `/start` at any point: the stored requests are complete
      and stay out of danger exactly when every accepted tap reads back as distinct, new
      names, however many. */
  lemma {:induction false} EveryRequestSafeIff(us: seq<Update>)
    ensures AlwaysSafe(us) <==> AllTapsDistinct(us)
    ensures AllTapsDistinct(us) ==> Unspoiled(Run(EMPTY, us).chats) && RequestsOk(Run(EMPTY, us).requests)
  {
    EveryRunShaped(us);
    if us == [] {
      CanGoWrongIff(EMPTY);
    } else {
      var before, u := us[..|us| - 1], us[|us| - 1];
      EveryRequestSafeIff(before);
      EveryRunShaped(before);
      if AllTapsDistinct(before) {
        var w := Run(EMPTY, before);
        StepSpoilsIff(w, u);
        UnspoiledIsReady(w);
        StepStoresComplete(w, u);
        CanGoWrongIff(Run(EMPTY, us));
      }
    }
  }

  /** If every accepted tap reads back as distinct, new names, every request is complete. */
  lemma EveryRequestComplete(us: seq<Update>)
    requires AllTapsDistinct(us)
    ensures RequestsOk(Run(EMPTY, us).requests)
  {
    EveryRequestSafeIff(us);
  }

  // ------------------------------------------------------- a run that fails

  function Thrice(x: string): string {
    x + "," + (x + "," + x)
  }

  lemma ThriceSplits(x: string)
    requires Clean(x)
    ensures SplitCsv(Thrice(x)) == [x, x, x]
  {
    SplitOne(x);
    SplitFirst(x, x);
    var rest := x + "," + x;
    SplitFirst(x, rest);
    assert SplitCsv(rest) == [x, x];
  }

  /** From a fresh signal round: one name that fills it, and the rest of the conversation as usual. */
  function Sequel(chat: int, name: string, y: string, z: string): seq<Update> {
    [PickTap(chat, Signals, name), DoneTap(chat, Signals), PickTap(chat, Execute, y), PickTap(chat, Execute, z),
     DoneTap(chat, Execute)]
  }

  lemma RunFirst(w: World, us: seq<Update>)
    requires us != []
    ensures Run(w, us) == Run(Apply(w, us[0]), us[1..])
  {
    RunCons(w, us[0], us[1..]);
    assert us == [us[0]] + us[1..];
  }

  /** The first tap of a round stores the name as the whole column. */
  lemma FirstTapStores(w: World, chat: int, kind: Kind, name: string)
    requires chat != 0 && chat in w.chats && w.chats[chat].state == PickingState(kind)
    requires Picks(w.chats[chat], kind) == []
    ensures var w' := Apply(w, PickTap(chat, kind, name));
            && w'.requests == w.requests && chat in w'.chats
            && w'.chats[chat] == WithColumn(w.chats[chat], kind, name)
  {
    assert [] + [name] == [name] && JoinCsv([name]) == name;
    TapWrites(w, chat, kind, name);
  }

  /** Two ordinary names complete the execute round. */
  lemma TwoTaps(w: World, chat: int, y: string, z: string)
    requires chat != 0 && chat in w.chats && w.chats[chat].state == PickingExecute
    requires Picks(w.chats[chat], Execute) == [] && Clean(y) && Clean(z) && y != z
    ensures var w' := Apply(Apply(w, PickTap(chat, Execute, y)), PickTap(chat, Execute, z));
            && chat in w'.chats && w'.requests == w.requests && Picks(w'.chats[chat], Execute) == [y, z]
            && Picks(w'.chats[chat], Signals) == Picks(w.chats[chat], Signals)
            && w'.chats[chat].duration == w.chats[chat].duration
  {
    var w1 := Apply(w, PickTap(chat, Execute, y));
    FirstTapStores(w, chat, Execute, y);
    SplitOne(y);
    ColumnReads(w.chats[chat], Execute, y);
    assert [y] + [z] == [y, z];
    TapTakes(w1, chat, Execute, z, [y, z]);
  }

  /** A run from the empty tables that stores a request with three equal signal picks: a
      duration, a contact, one comma name, and two ordinary names. */
  lemma IncompleteExample(x: string, y: string, z: string)
    requires Clean(x) && Clean(y) && Clean(z) && y != z
    ensures var us := [DurationTap(1, "1w"), Message(1, "", Some("+1"), false)] + Sequel(1, Thrice(x), y, z);
            var requests := Run(EMPTY, us).requests;
            |requests| == 1 && SplitCsv(requests[0].signals) == [x, x, x] && !Complete(requests[0])
  {
    var us := [DurationTap(1, "1w"), Message(1, "", Some("+1"), false)] + Sequel(1, Thrice(x), y, z);
    var w1 := Apply(EMPTY, us[0]);
    var w2 := Apply(w1, us[1]);
    RunFirst(EMPTY, us);
    RunFirst(w1, us[1..]);
    PickerOpens();
    assert us[1..][1..] == Sequel(1, Thrice(x), y, z);
    ThriceSplits(x);
    SequelStores(w2, 1, Thrice(x), x, y, z);
  }

  lemma PickerOpens()
    ensures var w := Apply(Apply(EMPTY, DurationTap(1, "1w")), Message(1, "", Some("+1"), false));
            w.requests == [] && 1 in w.chats && w.chats[1] == ChatRow(PickingSignals, Some("1w"), "", "")
  {
    var w1 := Apply(EMPTY, DurationTap(1, "1w"));
    assert w1.chats[1] == ChatRow(AwaitingPhone, Some("1w"), "", "");
    EmptyColumns();
  }

  /** One tap that reads back as three equal names closes the signal round. */
  lemma RepeatCloses(w: World, chat: int, name: string, x: string)
    requires chat != 0 && chat in w.chats && w.chats[chat] == ChatRow(PickingSignals, Some("1w"), "", "")
    requires SplitCsv(name) == [x, x, x]
    ensures var w' := Apply(Apply(w, PickTap(chat, Signals, name)), DoneTap(chat, Signals));
            && w'.requests == w.requests && chat in w'.chats
            && w'.chats[chat] == ChatRow(PickingExecute, Some("1w"), name, "")
            && Picks(w'.chats[chat], Signals) == [x, x, x] && Picks(w'.chats[chat], Execute) == []
  {
    EmptyColumns();
    FirstTapStores(w, chat, Signals, name);
    ColumnReads(w.chats[chat], Signals, name);
    RoundCloses(Apply(w, PickTap(chat, Signals, name)), chat);
  }

  lemma SequelStores(w: World, chat: int, name: string, x: string, y: string, z: string)
    requires chat != 0 && chat in w.chats && w.chats[chat] == ChatRow(PickingSignals, Some("1w"), "", "")
    requires SplitCsv(name) == [x, x, x] && Clean(y) && Clean(z) && y != z && w.requests == []
    ensures var requests := Run(w, Sequel(chat, name, y, z)).requests;
            |requests| == 1 && SplitCsv(requests[0].signals) == [x, x, x] && !Complete(requests[0])
  {
    var w2 := Apply(Apply(w, PickTap(chat, Signals, name)), DoneTap(chat, Signals));
    RepeatCloses(w, chat, name, x);
    var w4 := Apply(Apply(w2, PickTap(chat, Execute, y)), PickTap(chat, Execute, z));
    TwoTaps(w2, chat, y, z);
    SequelRuns(w, chat, name, y, z);
    FinalButton(w4, chat, x, y, z);
  }

  lemma SequelRuns(w: World, chat: int, name: string, y: string, z: string)
    ensures var w2 := Apply(Apply(w, PickTap(chat, Signals, name)), DoneTap(chat, Signals));
            var w4 := Apply(Apply(w2, PickTap(chat, Execute, y)), PickTap(chat, Execute, z));
            Run(w, Sequel(chat, name, y, z)) == Apply(w4, DoneTap(chat, Execute))
  {
    RunFive(w, Sequel(chat, name, y, z));
  }

  lemma RoundCloses(w: World, chat: int)
    requires chat != 0 && chat in w.chats && |Picks(w.chats[chat], Signals)| == 3
    ensures Apply(w, DoneTap(chat, Signals)) == w.(chats := w.chats[chat := w.chats[chat].(state := PickingExecute)])
  {
  }

  lemma FinalButton(w: World, chat: int, x: string, y: string, z: string)
    requires chat != 0 && chat in w.chats && w.chats[chat].duration == Some("1w") && w.requests == []
    requires Picks(w.chats[chat], Signals) == [x, x, x] && Picks(w.chats[chat], Execute) == [y, z]
    ensures var requests := Apply(w, DoneTap(chat, Execute)).requests;
            |requests| == 1 && SplitCsv(requests[0].signals) == [x, x, x] && !Complete(requests[0])
  {
    assert Apply(w, DoneTap(chat, Execute)) == Finalized(w, chat);
    FinalizeCopies(w, chat);
    assert [x, x, x][0] == [x, x, x][1];
  }

  lemma RunFive(w: World, us: seq<Update>)
    requires |us| == 5
    ensures Run(w, us) == Apply(Apply(Apply(Apply(Apply(w, us[0]), us[1]), us[2]), us[3]), us[4])
  {
    RunFirst(w, us);
    var w1 := Apply(w, us[0]);
    RunFirst(w1, us[1..]);
    var w2 := Apply(w1, us[1]);
    RunFirst(w2, us[1..][1..]);
    var w3 := Apply(w2, us[2]);
    RunFirst(w3, us[1..][1..][1..]);
    var w4 := Apply(w3, us[3]);
    RunFirst(w4, us[1..][1..][1..][1..]);
    assert us[1..][1..][1..][1..][1..] == [];
  }
}
