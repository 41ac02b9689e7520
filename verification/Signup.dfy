/** The sign-up bot and its store: each handler does to the tables and the phone cache
    exactly what its transition in `SignupModel` says. */
module Signup {
  import opened Common
  import opened Csv
  import opened SignupModel

  class SubscriptionRequestStore {
    var chats: map<int, ChatRow>
    var requests: seq<Request>

    constructor ()
      ensures chats == map[] && requests == []
    {
      chats, requests := map[], [];
    }

    method UpsertState(chat: int, state: State, duration: Option<string>)
      modifies this`chats
      ensures chats == Upserted(old(chats), chat, state, duration)
    {
      if chat in chats {
        chats := chats[chat := chats[chat].(state := state, duration := duration)];
      } else {
        chats := chats[chat := ChatRow(state, duration, "", "")];
      }
    }

    method SetStatePicks(chat: int, signals: Option<seq<string>>, execute: Option<seq<string>>)
      modifies this`chats
      ensures chats == WithPicks(old(chats), chat, signals, execute)
    {
      if chat in chats {
        var row := chats[chat];
        if signals.Some? {
          row := row.(signals := JoinCsv(signals.value));
        }
        if execute.Some? {
          row := row.(execute := JoinCsv(execute.value));
        }
        chats := chats[chat := row];
      }
    }

    /** An unknown duration raises and stores nothing. */
    method CreateRequest(chat: int, duration: string, email: string, phone: Option<string>,
                         signals: seq<string>, execute: seq<string>) returns (id: Option<int>)
      modifies this`requests
      ensures id.Some? <==> duration in VALID_DURATIONS
      ensures id.Some? ==> id.value == |requests|
      ensures requests == if id.Some? then old(requests) + [NewRequest(chat, duration, email, phone, signals, execute)]
                          else old(requests)
    {
      if duration !in VALID_DURATIONS {
        return None;
      }
      requests := requests + [NewRequest(chat, duration, email, phone, signals, execute)];
      return Some(|requests|);
    }

    method MarkApproved(id: int)
      modifies this`requests
      ensures requests == Decided(old(requests), id, Approved)
    {
      if 1 <= id <= |requests| && requests[id - 1].status == Pending {
        requests := requests[id - 1 := requests[id - 1].(status := Approved)];
      }
    }

    method MarkRejected(id: int)
      modifies this`requests
      ensures requests == Decided(old(requests), id, Rejected)
    {
      if 1 <= id <= |requests| && requests[id - 1].status == Pending {
        requests := requests[id - 1 := requests[id - 1].(status := Rejected)];
      }
    }
  }

  class TelegramSignupBot {
    const store: SubscriptionRequestStore
    var phones: map<int, string>

    constructor (store: SubscriptionRequestStore)
      ensures this.store == store && phones == map[]
    {
      this.store := store;
      phones := map[];
    }

    function View(): World
      reads this, store
    {
      World(store.chats, store.requests, phones)
    }

    method SendWelcome(chat: int)
      modifies store
      ensures View() == Welcomed(old(View()), chat)
    {
      store.UpsertState(chat, Idle, None);
    }

    method HandlePhone(chat: int, phone: string)
      modifies this, store
      ensures View() == PhoneShared(old(View()), chat, phone)
    {
      var duration := DurationOf(View(), chat);
      if duration.None? {
        SendWelcome(chat);
        return;
      }
      phones := phones[chat := CleanPhone(phone)];
      store.UpsertState(chat, PickingSignals, duration);
      store.SetStatePicks(chat, Some([]), Some([]));
    }

    method HandlePickToggle(chat: int, kind: Kind, name: string)
      modifies store
      ensures View() == PickTapped(old(View()), chat, kind, name)
    {
      if chat !in store.chats {
        return;
      }
      var row := store.chats[chat];
      var expected := if kind == Signals then PickingSignals else PickingExecute;
      if row.state != expected {
        return;
      }
      var current := Picks(row, kind);
      if name in current {
        current := Without(current, name);
      } else if |current| < Required(kind) {
        current := current + [name];
      } else {
        return;
      }
      if kind == Signals {
        store.SetStatePicks(chat, Some(current), None);
      } else {
        store.SetStatePicks(chat, None, Some(current));
      }
    }

    method HandlePickDone(chat: int, kind: Kind)
      modifies this, store
      ensures View() == DoneTapped(old(View()), chat, kind)
    {
      if chat !in store.chats {
        return;
      }
      var row := store.chats[chat];
      if kind == Signals {
        if |Picks(row, Signals)| != 3 {
          return;
        }
        store.UpsertState(chat, PickingExecute, row.duration);
        return;
      }
      if |Picks(row, Execute)| != 2 {
        return;
      }
      FinalizeSignup(chat);
    }

    method FinalizeSignup(chat: int)
      requires chat in store.chats
      modifies this, store
      ensures View() == Finalized(old(View()), chat)
    {
      var row := store.chats[chat];
      var phone := None;
      if chat in phones {
        phone := Some(phones[chat]);
      }
      phones := phones - {chat};
      if row.duration.None? {
        SendWelcome(chat);
        return;
      }
      var id := store.CreateRequest(chat, row.duration.value, "", phone, Picks(row, Signals), Picks(row, Execute));
      if id.None? {
        return;
      }
      store.UpsertState(chat, Idle, None);
      store.SetStatePicks(chat, Some([]), Some([]));
    }

    method HandleEmail(chat: int, text: string, wellFormed: bool)
      modifies store
      ensures View() == EmailSent(old(View()), chat, text, wellFormed)
    {
      if !wellFormed {
        return;
      }
      var duration := DurationOf(View(), chat);
      if duration.None? {
        SendWelcome(chat);
        return;
      }
      var id := store.CreateRequest(chat, duration.value, text, None, [], []);
      if id.None? {
        return;
      }
      store.UpsertState(chat, Idle, None);
    }

    method HandleMessage(chat: int, text: string, contact: Option<string>, wellFormed: bool)
      modifies this, store
      ensures View() == MessageSent(old(View()), chat, text, contact, wellFormed)
    {
      if chat == 0 {
        return;
      }
      store.UpsertState(chat, StateOf(View(), chat), DurationOf(View(), chat));
      if text == "/start" {
        SendWelcome(chat);
        return;
      }
      var state := StateOf(View(), chat);
      if contact.Some? && state == AwaitingPhone && contact.value != "" {
        HandlePhone(chat, contact.value);
        return;
      }
      if state == AwaitingEmail {
        HandleEmail(chat, text, wellFormed);
      }
    }

    /** One inline button; the three kinds of callback data, already parsed. */
    method HandleCallback(u: Update)
      requires u.DurationTap? || u.PickTap? || u.DoneTap?
      modifies this, store
      ensures View() == Apply(old(View()), u)
    {
      match u
      case DurationTap(chat, code) =>
        if chat != 0 && code in VALID_DURATIONS {
          store.UpsertState(chat, AwaitingPhone, Some(code));
        }
      case PickTap(chat, kind, name) =>
        if chat != 0 {
          HandlePickToggle(chat, kind, name);
        }
      case DoneTap(chat, kind) =>
        if chat != 0 {
          HandlePickDone(chat, kind);
        }
    }
  }
}
