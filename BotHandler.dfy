/** The update handler (bot_handler.py): a `/start` message registers its
    chat in the subscriber list, at most once, and is answered with a
    welcome; the greeting names the weekday in Persian. */
module BotHandler {
  import opened Wrappers
  import opened Text

  /** A received message: the chat id, as `str(message.chat.id)`, and the
      text, absent for messages without text. */
  datatype Message = Message(chatId: string, text: Option<string>)

  /** One update returned by `get_updates`, possibly without a message. */
  datatype Update = Update(message: Option<Message>)

  const StartCommand: string := "/start"

  /** `text.strip().lower() == '/start'`. */
  predicate IsStartCommand(text: string) {
    Lower(Strip(text)) == StartCommand
  }

  /** The chat a `/start` update comes from. Updates without a message or
      with empty or absent text are ignored. */
  function StartChat(u: Update): Option<string> {
    match u.message
    case None => None
    case Some(m) =>
      match m.text
      case None => None
      case Some(text) => if text != "" && IsStartCommand(text) then Some(m.chatId) else None
  }

  /** The chats welcomed, one per `/start` update, in update order. */
  function StartChats(updates: seq<Update>): (r: seq<string>)
    ensures |r| <= |updates|
  {
    if updates == [] then []
    else
      var init := StartChats(updates[..|updates| - 1]);
      match StartChat(updates[|updates| - 1])
      case None => init
      case Some(c) => init + [c]
  }

  /** `if chat_id not in users: users.append(chat_id)`. */
  function Register(users: seq<string>, chatId: string): seq<string> {
    if chatId in users then users else users + [chatId]
  }

  /** The subscriber list after processing the updates in order. */
  function RegisterAll(users: seq<string>, updates: seq<Update>): seq<string> {
    if updates == [] then users
    else
      var init := RegisterAll(users, updates[..|updates| - 1]);
      match StartChat(updates[|updates| - 1])
      case None => init
      case Some(c) => Register(init, c)
  }

  predicate Distinct(s: seq<string>) {
    forall i, j :: 0 <= i < j < |s| ==> s[i] != s[j]
  }

  /** The update loop of `main`: the new subscriber list, how many times
      `save_users` is called, and the chats sent a welcome. */
  method ProcessUpdates(users: seq<string>, updates: seq<Update>)
    returns (registered: seq<string>, saves: nat, welcomed: seq<string>)
    ensures registered == RegisterAll(users, updates)
    ensures welcomed == StartChats(updates)
    ensures |registered| == |users| + saves
  {
    registered, saves, welcomed := users, 0, [];
    var i := 0;
    while i < |updates|
      invariant 0 <= i <= |updates|
      invariant registered == RegisterAll(users, updates[..i])
      invariant welcomed == StartChats(updates[..i])
      invariant |registered| == |users| + saves
    {
      var update := updates[i];
      assert updates[..i + 1][..i] == updates[..i];
      if update.message.Some? && update.message.value.text.Some? && update.message.value.text.value != "" {
        var chatId := update.message.value.chatId;
        var text := Strip(update.message.value.text.value);
        if Lower(text) == StartCommand {
          if chatId !in registered {
            registered := registered + [chatId];
            saves := saves + 1;
          }
          welcomed := welcomed + [chatId];
        }
      }
      i := i + 1;
    }
    assert updates[..i] == updates;
  }

  /** Registration only appends, at most one chat per update, and adds
      exactly the chats that sent `/start`. */
  lemma {:induction false} RegisterAllAppends(users: seq<string>, updates: seq<Update>)
    ensures var r := RegisterAll(users, updates);
            |users| <= |r| <= |users| + |updates| && r[..|users|] == users
            && forall c :: c in r <==> c in users || c in StartChats(updates)
  {
    if updates != [] {
      var init := updates[..|updates| - 1];
      RegisterAllAppends(users, init);
      var r0 := RegisterAll(users, init);
      match StartChat(updates[|updates| - 1])
      case None =>
      case Some(c) =>
        if c !in r0 {
          assert (r0 + [c])[..|users|] == r0[..|users|];
        }
    }
  }

  /** After a `/start` update from a chat, that chat is welcomed and is a
      subscriber, whether it was one before or not. */
  lemma {:induction false} StartRegisters(users: seq<string>, updates: seq<Update>, i: int, c: string)
    requires 0 <= i < |updates| && StartChat(updates[i]) == Some(c)
    ensures c in StartChats(updates) && c in RegisterAll(users, updates)
  {
    var init := updates[..|updates| - 1];
    if i < |updates| - 1 {
      assert init[i] == updates[i];
      StartRegisters(users, init, i, c);
    }
    RegisterAllAppends(users, updates);
  }

  /** A list without duplicates stays without. */
  lemma {:induction false} RegisterAllDistinct(users: seq<string>, updates: seq<Update>)
    requires Distinct(users)
    ensures Distinct(RegisterAll(users, updates))
  {
    if updates != [] {
      RegisterAllDistinct(users, updates[..|updates| - 1]);
    }
  }

  /** Updates from chats that are all registered already change nothing
      (so no save happens). */
  lemma {:induction false} RegisteredChatsUnchanged(users: seq<string>, updates: seq<Update>)
    requires forall c :: c in StartChats(updates) ==> c in users
    ensures RegisterAll(users, updates) == users
  {
    if updates != [] {
      var init := updates[..|updates| - 1];
      assert forall c :: c in StartChats(init) ==> c in StartChats(updates);
      RegisteredChatsUnchanged(users, init);
    }
  }

  /** Processing the same updates a second time changes nothing. */
  lemma RegisterAllIdempotent(users: seq<string>, updates: seq<Update>)
    ensures RegisterAll(RegisterAll(users, updates), updates) == RegisterAll(users, updates)
  {
    RegisterAllAppends(users, updates);
    RegisteredChatsUnchanged(RegisterAll(users, updates), updates);
  }

  /** A `/start` written in any ASCII case and padded with whitespace is
      recognised. */
  lemma StartCommandPadded(pre: string, command: string, post: string)
    requires AllSpace(pre) && AllSpace(post)
    requires Lower(command) == StartCommand
    ensures IsStartCommand(pre + command + post)
  {
    assert command[0] == '/' by { assert Lower(command)[0] == LowerChar(command[0]); }
    assert command[5] != ' ' by { assert Lower(command)[5] == LowerChar(command[5]); }
    StripPadding(pre, command, post);
  }

  /** `' /START '` registers. */
  lemma PaddedUpperCaseStartRegisters(chatId: string)
    ensures StartChat(Update(Some(Message(chatId, Some(" " + "/START" + " "))))) == Some(chatId)
  {
    var upper := "/START";
    assert Lower(upper) == StartCommand by {
      forall k | 0 <= k < |upper| ensures Lower(upper)[k] == StartCommand[k] {
        assert Lower(upper)[k] == LowerChar(upper[k]);
      }
    }
    StartCommandPadded(" ", upper, " ");
  }

  /** Updates without a message or without text are ignored. */
  lemma UpdatesWithoutTextIgnored(chatId: string)
    ensures StartChat(Update(None)) == None
    ensures StartChat(Update(Some(Message(chatId, None)))) == None
    ensures StartChat(Update(Some(Message(chatId, Some(""))))) == None
  {
  }

  // ---------------------------------------------------------------------------
  // The weekday translation of the greeting

  const DaysFa: map<string, string> := map[
    "Saturday" := "شنبه",
    "Sunday" := "یکشنبه",
    "Monday" := "دوشنبه",
    "Tuesday" := "سه\U{200C}شنبه",
    "Wednesday" := "چهارشنبه",
    "Thursday" := "پنج\U{200C}شنبه",
    "Friday" := "جمعه"
  ]

  /** `days_fa.get(day, day)`: the Persian name of an English weekday name,
      any other text unchanged. */
  function DayNameFa(day: string): (r: string)
    ensures r == day <==> day !in DaysFa
    ensures day in DaysFa ==> r == DaysFa[day]
  {
    if day in DaysFa then DaysFa[day] else day
  }

  /** The seven weekdays have seven different Persian names, so the
      greeting tells every day apart. */
  lemma DayNamesDistinct()
    ensures forall d, e :: d in DaysFa && e in DaysFa && d != e ==> DayNameFa(d) != DayNameFa(e)
  {
  }

}
