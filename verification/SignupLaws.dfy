/** What the sign-up conversation does with what it is told: duration, phone, e-mail and the
    operator's decisions. */
module SignupLaws {
  import opened Common
  import opened SignupModel

  // ------------------------------------------------------------ the duration

  /** The chat taps one of the six offered durations. */
  predicate Chooses(u: Update, chat: int, code: string) {
    u == DurationTap(chat, code) && chat != 0 &&
    (code == "5h" || code == "1w" || code == "2w" || code == "1m" || code == "2m" || code == "3m")
  }

  /** The chat starts over, or its final button counts two execute picks. */
  predicate Forgets(w: World, u: Update, chat: int) {
    || (u.Message? && u.chat == chat != 0 && u.text == "/start")
    || (u == DoneTap(chat, Execute) && chat != 0 && chat in w.chats && |Picks(w.chats[chat], Execute)| == 2)
  }

  lemma DurationStep(w: World, u: Update, chat: int)
    requires ChatsShaped(w.chats)
    ensures (forall code :: Chooses(u, chat, code) ==> DurationOf(Apply(w, u), chat) == Some(code))
    ensures (forall code :: !Chooses(u, chat, code)) ==>
              DurationOf(Apply(w, u), chat) == if Forgets(w, u, chat) then None else DurationOf(w, chat)
  {
    if !Touches(u, chat) {
      StepKeepsOthers(w, u, chat);
    } else {
      match u
      case Message(_, text, contact, _) =>
        if chat != 0 {
          MessageDuration(w, chat, text, contact, u.wellFormed);
        }
      case DurationTap(_, code) =>
        assert Chooses(u, chat, code) <==> chat != 0 && code in VALID_DURATIONS;
      case PickTap(_, _, _) =>
      case DoneTap(_, _) =>
      case Restart =>
    }
  }

  lemma MessageDuration(w: World, chat: int, text: string, contact: Option<string>, wellFormed: bool)
    requires chat != 0 && StateOf(w, chat) != AwaitingEmail
    ensures DurationOf(MessageSent(w, chat, text, contact, wellFormed), chat) ==
            if text == "/start" then None else DurationOf(w, chat)
  {
  }

  ghost predicate ChosenAt(us: seq<Update>, k: int, chat: int, code: string) {
    0 <= k < |us| && Chooses(us[k], chat, code)
  }

  ghost predicate SettledAt(us: seq<Update>, j: int, chat: int)
    requires 0 <= j < |us|
  {
    (forall code :: !Chooses(us[j], chat, code)) && !Forgets(Run(EMPTY, us[..j]), us[j], chat)
  }

  /** The tap at `k` chose this duration, and since then the chat neither chose another one nor
      started over nor pressed a final button that counted. */
  ghost predicate LastChoiceAt(us: seq<Update>, k: int, chat: int, code: string) {
    ChosenAt(us, k, chat, code) && forall j :: k < j < |us| ==> SettledAt(us, j, chat)
  }

  ghost predicate LastChoice(us: seq<Update>, chat: int, code: string) {
    exists k :: LastChoiceAt(us, k, chat, code)
  }

  lemma LastChoiceStep(before: seq<Update>, u: Update, chat: int, code: string)
    ensures LastChoice(before + [u], chat, code) <==>
            || Chooses(u, chat, code)
            || ((forall c :: !Chooses(u, chat, c)) && !Forgets(Run(EMPTY, before), u, chat) &&
                LastChoice(before, chat, code))
  {
    var all, n := before + [u], |before|;
    assert all[..n] == before && all[n] == u;
    forall k | 0 <= k < n ensures SettledAt(all, k, chat) <==> SettledAt(before, k, chat)
      ensures ChosenAt(all, k, chat, code) <==> ChosenAt(before, k, chat, code)
    {
      assert all[..k] == before[..k];
    }
    if LastChoice(all, chat, code) {
      var k :| LastChoiceAt(all, k, chat, code);
      if k < n {
        assert SettledAt(all, n, chat);
        assert LastChoiceAt(before, k, chat, code);
      }
    }
    if Chooses(u, chat, code) {
      assert LastChoiceAt(all, n, chat, code);
    }
    if SettledAt(all, n, chat) && LastChoice(before, chat, code) {
      var k :| LastChoiceAt(before, k, chat, code);
      assert LastChoiceAt(all, k, chat, code);
    }
  }

  lemma {:induction false} DurationIsLastChoice(us: seq<Update>, chat: int, code: string)
    ensures DurationOf(Run(EMPTY, us), chat) == Some(code) <==> LastChoice(us, chat, code)
  {
    if us != [] {
      var before, u := us[..|us| - 1], us[|us| - 1];
      assert us == before + [u];
      DurationIsLastChoice(before, chat, code);
      EveryRunShaped(before);
      DurationStep(Run(EMPTY, before), u, chat);
      LastChoiceStep(before, u, chat, code);
    }
  }

  /** Over every run: a created request is for the duration the chat chose last, with no
      `/start` and no counting final button since. */
  lemma RequestDurationIff(us: seq<Update>, u: Update, code: string)
    requires var w := Run(EMPTY, us); |Apply(w, u).requests| > |w.requests|
    ensures u.DoneTap?
    ensures var w := Run(EMPTY, us);
            Apply(w, u).requests[|w.requests|].duration == code <==> LastChoice(us, u.chat, code)
  {
    var w := Run(EMPTY, us);
    if u.Message? {
      NeverAwaitsEmail(us, u.chat);
    }
    OnlyFinalCreates(w, u);
    FinalizeCopies(w, u.chat);
    DurationIsLastChoice(us, u.chat, code);
  }

  // ---------------------------------------------------------------- the rest

  /** After a request is stored the chat is back at the start: no state, no duration, no picks
      and no remembered phone. */
  lemma StoringResets(w: World, chat: int)
    requires chat != 0 && |Apply(w, DoneTap(chat, Execute)).requests| > |w.requests|
    ensures var w' := Apply(w, DoneTap(chat, Execute));
            && chat in w'.chats && w'.chats[chat].state == Idle && w'.chats[chat].duration == None
            && Picks(w'.chats[chat], Signals) == [] && Picks(w'.chats[chat], Execute) == [] && chat !in w'.phones
  {
    EmptyColumns();
  }

  function Zeros(n: nat): string {
    if n == 0 then "" else "0" + Zeros(n - 1)
  }

  /** A number with a plus is kept as it is; any other loses its leading zeros and gets one. */
  lemma {:induction false} PhoneIsCleaned(n: nat, rest: string)
    requires rest != "" ==> rest[0] != '0'
    ensures LStripZeros(Zeros(n) + rest) == rest
    ensures CleanPhone("+" + rest) == "+" + rest
    ensures n > 0 ==> CleanPhone(Zeros(n) + rest) == "+" + rest
    ensures n == 0 && rest != "" && rest[0] != '+' ==> CleanPhone(rest) == "+" + rest
    decreases n
  {
    if n > 0 {
      PhoneIsCleaned(n - 1, rest);
      assert (Zeros(n) + rest)[1..] == Zeros(n - 1) + rest;
    } else {
      assert Zeros(0) + rest == rest;
    }
  }

  /** A decision gives exactly the named request, if it is pending, exactly that status. */
  lemma DecisionDecides(w: World, id: int, approve: bool, i: nat)
    requires i < |w.requests|
    ensures var w' := Apply(w, Decide(id, approve));
            && |w'.requests| == |w.requests| && w'.chats == w.chats && w'.phones == w.phones
            && w'.requests[i] == if i + 1 == id && w.requests[i].status == Pending
                                 then w.requests[i].(status := if approve then Approved else Rejected)
                                 else w.requests[i]
  {
  }

  /** Should a chat ever be asked for an e-mail: a well-formed address with a valid duration
      stores a pending request for it, without phone and picks; a malformed one stores nothing. */
  lemma EmailStores(w: World, chat: int, text: string, wellFormed: bool)
    requires chat != 0 && StateOf(w, chat) == AwaitingEmail && text != "/start"
    ensures var w' := Apply(w, Message(chat, text, None, wellFormed));
            if wellFormed && DurationOf(w, chat).Some? && DurationOf(w, chat).value in VALID_DURATIONS
            then
              && w'.requests == w.requests + [Request(chat, DurationOf(w, chat).value, text, None, Pending, "", "")]
              && StateOf(w', chat) == Idle && DurationOf(w', chat) == None
            else w'.requests == w.requests
  {
  }

  /** Opening the picker: a contact shared while a phone is awaited stores the cleaned number
      and empties both lists; without a chosen duration the chat starts over. */
  lemma ContactOpensPicker(w: World, chat: int, text: string, number: string)
    requires chat != 0 && StateOf(w, chat) == AwaitingPhone && text != "/start" && number != ""
    ensures var w' := Apply(w, Message(chat, text, Some(number), false));
            if DurationOf(w, chat).None? then StateOf(w', chat) == Idle && w'.phones == w.phones
            else
              && w'.chats[chat] == ChatRow(PickingSignals, DurationOf(w, chat), "", "")
              && w'.phones == w.phones[chat := CleanPhone(number)]
  {
  }
}
