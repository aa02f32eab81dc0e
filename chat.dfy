/** The chat widget's conversation state: the message list seeded with a
    greeting, the draft input, the typing flag, and the replies that have been
    scheduled but have not fired yet. */
module Chat {
  import opened Text
  import opened Responses

  datatype Sender = User | Bot

  /** A message, reduced to who sent it and what it says: a user's typed text,
      the opening greeting, or one of the canned replies. */
  datatype Message = UserMessage(text: string) | Greeting | BotReply(reply: Reply)
  {
    /** Who sent the message. */
    function From(): Sender {
      if UserMessage? then User else Bot
    }

    /** The text the widget shows for the message. */
    function Shown(): string {
      match this
      case UserMessage(t) => t
      case Greeting => GreetingText
      case BotReply(r) => ReplyText(r)
    }
  }

  const GreetingText: string := "Hello! I'm APMC Assistant. How can I help you with medical registration, CME programs, or general inquiries?"

  /** The texts of the user messages, in conversation order. */
  function UserTexts(ms: seq<Message>): seq<string>
  {
    if ms == [] then []
    else (if ms[0].UserMessage? then [ms[0].text] else []) + UserTexts(ms[1..])
  }

  /** The canned replies among the messages, in conversation order. */
  function BotReplies(ms: seq<Message>): seq<Reply>
  {
    if ms == [] then []
    else (if ms[0].BotReply? then [ms[0].reply] else []) + BotReplies(ms[1..])
  }

  /** Appending a message extends the user texts by its text when it is a
      user message, and the replies by its reply when it is a reply. */
  lemma {:induction false} AppendMessage(ms: seq<Message>, m: Message)
    ensures UserTexts(ms + [m]) == UserTexts(ms) + (if m.UserMessage? then [m.text] else [])
    ensures BotReplies(ms + [m]) == BotReplies(ms) + (if m.BotReply? then [m.reply] else [])
  {
    if ms != [] {
      assert (ms + [m])[1..] == ms[1..] + [m];
      AppendMessage(ms[1..], m);
    }
  }

  /** The answers to the given user texts, one each, in the same order. */
  function Replies(users: seq<string>): seq<Reply> {
    if users == [] then [] else [GetBotResponse(users[0])] + Replies(users[1..])
  }

  /** The k-th answer is the reply to the k-th user text. */
  lemma {:induction false} RepliesAt(users: seq<string>, k: nat)
    requires k < |users|
    ensures |Replies(users)| == |users| && Replies(users)[k] == GetBotResponse(users[k])
  {
    if k > 0 {
      RepliesAt(users[1..], k - 1);
    } else if |users| > 1 {
      RepliesAt(users[1..], 0);
    }
  }

  /** Answering one more user text appends its answer. */
  lemma {:induction false} RepliesAppend(users: seq<string>, u: string)
    ensures Replies(users + [u]) == Replies(users) + [GetBotResponse(u)]
  {
    if users != [] {
      assert (users + [u])[1..] == users[1..] + [u];
      RepliesAppend(users[1..], u);
    }
  }

  /** How the conversation after the greeting relates to the scheduled
      replies: the replies answer the first user messages one by one, each
      computed from its own user text, and the pending texts are exactly the
      user texts not answered yet, in the order they were sent. */
  ghost predicate Answered(conversation: seq<Message>, pending: seq<string>) {
    var users := UserTexts(conversation);
    var replies := BotReplies(conversation);
    |replies| <= |users| && pending == users[|replies|..] && replies == Replies(users[..|replies|])
  }

  /** A sent user message whose reply is scheduled keeps the relation. */
  lemma AnsweredAfterSend(conversation: seq<Message>, pending: seq<string>, text: string)
    requires Answered(conversation, pending)
    ensures Answered(conversation + [UserMessage(text)], pending + [text])
  {
    AppendMessage(conversation, UserMessage(text));
    var users := UserTexts(conversation);
    var replies := BotReplies(conversation);
    assert (users + [text])[..|replies|] == users[..|replies|];
  }

  /** Firing the oldest pending reply keeps the relation. */
  lemma AnsweredAfterFire(conversation: seq<Message>, pending: seq<string>)
    requires Answered(conversation, pending) && pending != []
    ensures Answered(conversation + [BotReply(GetBotResponse(pending[0]))], pending[1..])
  {
    var next := conversation + [BotReply(GetBotResponse(pending[0]))];
    AppendMessage(conversation, BotReply(GetBotResponse(pending[0])));
    var users := UserTexts(conversation);
    var replies := BotReplies(conversation);
    assert pending[0] == users[|replies|];
    assert users[..|replies| + 1] == users[..|replies|] + [pending[0]];
    RepliesAppend(users[..|replies|], pending[0]);
    assert UserTexts(next) == users;
    assert BotReplies(next) == Replies(users[..|replies| + 1]);
    assert pending[1..] == users[|replies| + 1..];
  }

  /** Once nothing is pending, every user message has exactly one reply, and
      the k-th reply is computed from the k-th user text. */
  lemma SettledConversation(conversation: seq<Message>, k: nat)
    requires Answered(conversation, [])
    ensures |BotReplies(conversation)| == |UserTexts(conversation)|
    ensures k < |UserTexts(conversation)| ==>
      BotReplies(conversation)[k] == GetBotResponse(UserTexts(conversation)[k])
  {
    var users := UserTexts(conversation);
    if k < |users| {
      assert users[..|users|] == users;
      RepliesAt(users, k);
    }
  }

  class ChatSession {
    var messages: seq<Message>
    var input: string
    var typing: bool
    /** The captured texts of the scheduled, not yet fired, reply timers. All
        timers have the same delay, so they fire in the order they were set. */
    var pending: seq<string>

    /** The list starts with the greeting and is otherwise answered as
        `Answered` says; the typing flag is only set while a reply is
        pending. (The converse does not hold: the first reply to fire clears
        the flag while later replies may still be pending.) */
    ghost predicate Valid()
      reads this
    {
      |messages| >= 1 && messages[0] == Greeting
      && Answered(messages[1..], pending)
      && (typing ==> pending != [])
    }

    /** The state of a freshly mounted widget. */
    constructor ()
      ensures Valid()
      ensures messages == [Greeting] && input == "" && !typing && pending == []
      ensures messages[0].From() == Bot
    {
      messages := [Greeting];
      input := "";
      typing := false;
      pending := [];
    }

    /** `setInputMessage` from the input's change handler. */
    method UpdateDraft(text: string)
      requires Valid()
      modifies this
      ensures Valid()
      ensures input == text
      ensures messages == old(messages) && typing == old(typing) && pending == old(pending)
    {
      input := text;
    }

    /** `handleSendMessage`: a blank draft is ignored; otherwise the untrimmed
        draft is appended as a user message, the draft is cleared, the typing
        flag is set and a reply to the captured text is scheduled. */
    method Send()
      requires Valid()
      modifies this
      ensures Valid()
      ensures IsBlank(old(input)) ==>
        messages == old(messages) && input == old(input) && typing == old(typing) && pending == old(pending)
      ensures !IsBlank(old(input)) ==>
        messages == old(messages) + [UserMessage(old(input))] && input == "" && typing
        && pending == old(pending) + [old(input)]
    {
      if !IsBlank(input) {
        var text := input;
        var conversation := messages[1..];
        AnsweredAfterSend(conversation, pending, text);
        messages := messages + [UserMessage(text)];
        input := "";
        typing := true;
        pending := pending + [text];
        assert messages[1..] == conversation + [UserMessage(text)];
      }
    }

    /** `handleKeyPress`: the Enter key sends, every other key does nothing. */
    method KeyPress(key: string)
      requires Valid()
      modifies this
      ensures Valid()
      ensures key != "Enter" ==>
        messages == old(messages) && input == old(input) && typing == old(typing) && pending == old(pending)
      ensures key == "Enter" && IsBlank(old(input)) ==>
        messages == old(messages) && input == old(input) && typing == old(typing) && pending == old(pending)
      ensures key == "Enter" && !IsBlank(old(input)) ==>
        messages == old(messages) + [UserMessage(old(input))] && input == "" && typing
        && pending == old(pending) + [old(input)]
    {
      if key == "Enter" {
        Send();
      }
    }

    /** The oldest scheduled timer fires: the reply to the text it captured is
        appended and the typing flag is cleared. */
    method FireReply()
      requires Valid() && pending != []
      modifies this
      ensures Valid()
      ensures messages == old(messages) + [BotReply(GetBotResponse(old(pending)[0]))]
      ensures pending == old(pending)[1..] && !typing && input == old(input)
    {
      var text := pending[0];
      var conversation := messages[1..];
      AnsweredAfterFire(conversation, pending);
      messages := messages + [BotReply(GetBotResponse(text))];
      pending := pending[1..];
      typing := false;
      assert messages[1..] == conversation + [BotReply(GetBotResponse(text))];
    }
  }

  /** The user types and sends `a`, then types and sends `b`. */
  method SendTwo(chat: ChatSession, a: string, b: string)
    requires chat.Valid() && !IsBlank(a) && !IsBlank(b)
    requires chat.messages == [Greeting] && chat.pending == []
    modifies chat
    ensures chat.Valid()
    ensures chat.messages == [Greeting, UserMessage(a), UserMessage(b)] && chat.pending == [a, b]
  {
    chat.UpdateDraft(a);
    chat.Send();
    chat.UpdateDraft(b);
    chat.Send();
  }

  /** Both scheduled timers fire, one after the other; the flag and the
      number of pending replies are observed in between. */
  method FireTwo(chat: ChatSession) returns (typingBetween: bool, pendingBetween: nat)
    requires chat.Valid() && |chat.pending| == 2
    modifies chat
    ensures chat.Valid()
    ensures chat.messages == old(chat.messages) + [BotReply(GetBotResponse(old(chat.pending)[0])),
                                                    BotReply(GetBotResponse(old(chat.pending)[1]))]
    ensures !typingBetween && pendingBetween == 1
  {
    chat.FireReply();
    typingBetween, pendingBetween := chat.typing, |chat.pending|;
    chat.FireReply();
  }

  /** Two sends before the first reply fires: both replies arrive, in order,
      each computed from its own user text; and between the two firings the
      typing flag is already off although a reply is still pending. */
  method TwoRapidSends(a: string, b: string) returns (log: seq<Message>, typingBetween: bool, pendingBetween: nat)
    requires !IsBlank(a) && !IsBlank(b)
    ensures log == [Greeting, UserMessage(a), UserMessage(b), BotReply(GetBotResponse(a)), BotReply(GetBotResponse(b))]
    ensures !typingBetween && pendingBetween == 1
  {
    var chat := new ChatSession();
    SendTwo(chat, a, b);
    typingBetween, pendingBetween := FireTwo(chat);
    log := chat.messages;
  }
}
