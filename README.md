# Chat assistant of the APMC website, modelled in Dafny

The website's only component with decision logic is its floating chat widget
(`src/components/Chatbot.tsx`). This project models its two parts:

- **The reply engine, `getBotResponse`** (`responses.dfy`, module `Responses`).
  It lowercases the utterance, then tries five keyword groups in a fixed
  order: registration, CME, contact, fees and documents. The first group with
  a keyword occurring as a substring wins. With no keyword, the default menu
  is the reply.
  - The model keeps the source's cascade of `if`s as `GetBotResponse`.
  - Beside it is the same classifier as an ordered rule table (`Rules`,
    `Classify`). A lemma shows the two agree on every utterance.
  - The six canned texts are copied exactly (`ReplyText`).
- **The conversation state** (`chat.dfy`, module `Chat`), as the class
  `ChatSession`. Its fields are:
  - the message list, seeded with the greeting;
  - the draft input;
  - the typing flag;
  - `pending`, the texts captured by reply timers that are scheduled but have
    not fired yet.

  Methods: `UpdateDraft` (the input's change handler), `Send`
  (`handleSendMessage`), `KeyPress` (`handleKeyPress`) and `FireReply` (one
  timer callback firing). Every timer has the same 1500 ms delay, so timers
  fire in the order they were set, and `pending` is a FIFO queue.

  The invariant `Valid` (through `Answered`) says three things:
  - the list starts with the greeting;
  - the k-th reply in the list is `GetBotResponse` of the k-th user text, and
    the pending texts are exactly the user texts not answered yet, in order;
  - the typing flag is set only while some reply is pending.

`text.dfy` (module `Text`) holds the string primitives the widget uses:
`toLowerCase`, `includes` and `trim`. `toLowerCase` is modelled on ASCII
letters only, and every other character is left unchanged. `trim` strips the
fixed set of code points that JavaScript treats as WhiteSpace or
LineTerminator.

A bot message carries the key of its reply (`BotReply(r)`), not the text
itself. `Message.Shown` gives the displayed text, `ReplyText(r)`. The six texts
are pairwise different (`ReplyTextInjective`), so the key holds exactly the
information the text does.

Facts about the code that shape the model:
- `setIsTyping(false)` (src/components/Chatbot.tsx:92) runs in every timer
  callback. So the flag can be off while a later reply is still pending. The
  model proves only "typing implies a reply is pending" (`Valid`), and
  `TwoRapidSends` shows the flag off with one reply still pending.
- `getBotResponse` (src/components/Chatbot.tsx:46-66) is total. It is
  modelled on every string, the empty one included.
- Ids come from `Date.now()` and `Date.now() + 1`
  (src/components/Chatbot.tsx:72, 85), so they can collide. The model claims
  nothing about ids.
- The timer (src/components/Chatbot.tsx:83-93) is not cleared when the widget
  unmounts; React ignores the late state update. This is not modelled.

## Model

| member | source | states |
|---|---|---|
| Text.Contains | src/components/Chatbot.tsx:49-63 | `includes`; its contract is stated by ContainsIff (occurrence at some position) and ContainsAt |
| Text.Trim | src/components/Chatbot.tsx:69 | `trim`: the TrimStart and TrimEnd contracts together fix the result as the input without leading and trailing whitespace |
| Text.IsBlank | src/components/Chatbot.tsx:69 | the guard `!inputMessage.trim()`; its contract is stated by BlankIffAllWhitespace |
| Text.Lower | src/components/Chatbot.tsx:47 | lowercasing keeps the length and lowercases each character; no upper-case ASCII letter is left |
| Text.LowerIdempotent | src/components/Chatbot.tsx:47 | lowercasing an already lowercased string changes nothing |
| Text.ContainsIff | src/components/Chatbot.tsx:49-63 | `includes` holds exactly when the keyword is a prefix of some suffix of the text |
| Text.ContainsAt | src/components/Chatbot.tsx:49-63 | an occurrence at any position makes `includes` true (substring, not whole word) |
| Text.ContainsLower | src/components/Chatbot.tsx:47-49 | if a word occurs in the text in any letter case, its lowercased form occurs in the lowercased text |
| Text.MissingCharNotContained | src/components/Chatbot.tsx:49-63 | a keyword with a character the text lacks does not occur in it |
| Text.LowerMissingChar | src/components/Chatbot.tsx:47 | a lower-case letter is in the lowercased text only if it, or its upper-case form, is in the original |
| Text.TrimStart | src/components/Chatbot.tsx:69 | the result is a suffix, everything dropped is whitespace, and the result does not start with whitespace |
| Text.TrimEnd | src/components/Chatbot.tsx:69 | the result is a prefix, everything dropped is whitespace, and the result does not end with whitespace |
| Text.BlankIffAllWhitespace | src/components/Chatbot.tsx:69 | `!input.trim()` holds exactly when every character is whitespace, including the empty input |
| Responses.ReplyText | src/components/Chatbot.tsx:37-44 | the `predefinedResponses` table, texts copied exactly; ReplyTextInjective states that they are six different strings |
| Responses.GetBotResponse | src/components/Chatbot.tsx:46-66 | `getBotResponse` itself; its contract is stated by CascadeIsFirstMatch (first match over the rule table `Rules`, the keyword groups of lines 49-63), RuleWins, RegistrationFirst and DefaultIffNoKeyword |
| Responses.ReplyTextInjective | src/components/Chatbot.tsx:37-44 | the six predefined replies are pairwise different strings, so each reply is exactly one of six |
| Responses.FirstMatchIndex | src/components/Chatbot.tsx:49-65 | the chosen rule matches, and no earlier rule does; with no match the index is past the end |
| Responses.FirstMatchUnique | src/components/Chatbot.tsx:49-65 | any index that matches with no earlier match is the first-match index |
| Responses.CascadeIsFirstMatch | src/components/Chatbot.tsx:46-66 | the `if` cascade equals first-match-wins over the ordered rule table, on every utterance |
| Responses.RegistrationFirst | src/components/Chatbot.tsx:49-51 | "registration" or "register" in the lowercased text gives the registration reply, whatever else occurs |
| Responses.RegistrationAnyCase | src/components/Chatbot.tsx:47-51 | a registration keyword in any letter case gives the registration reply |
| Responses.CaseInsensitive | src/components/Chatbot.tsx:47 | utterances equal up to letter case get the same reply |
| Responses.RuleWins | src/components/Chatbot.tsx:49-63 | when rule i matches and no earlier rule does, rule i's reply is returned, whatever later rules match |
| Responses.CmeBeforeFees | src/components/Chatbot.tsx:52-59 | a CME keyword without a registration keyword gives the CME reply, even if a fee keyword is present |
| Responses.CmeFeesExample | src/components/Chatbot.tsx:52-59 | "Tell me about CME fees" gets the CME reply |
| Responses.DeregisterExample | src/components/Chatbot.tsx:49-50 | "How do I deregister?" gets the registration reply, by substring |
| Responses.KeywordsOf | src/components/Chatbot.tsx:49-63 | every keyword of every rule is listed, and only those |
| Responses.DefaultIffNoKeyword | src/components/Chatbot.tsx:49-65 | the default reply comes exactly when none of the twelve keywords occurs in the lowercased text |
| Chat.AppendMessage | src/components/Chatbot.tsx:78-91 | appending a message extends the user texts or the replies by that message alone |
| Chat.RepliesAt | src/components/Chatbot.tsx:86 | the k-th computed reply is `getBotResponse` of the k-th user text |
| Chat.AnsweredAfterSend | src/components/Chatbot.tsx:71-80 | a sent user message with its reply scheduled keeps every reply paired with its own user text |
| Chat.AnsweredAfterFire | src/components/Chatbot.tsx:83-92 | firing the oldest timer appends the reply to the oldest unanswered user text, keeping the pairing |
| Chat.SettledConversation | src/components/Chatbot.tsx:68-94 | with nothing pending, there are as many replies as user messages, and the k-th reply answers the k-th user text |
| Chat.ChatSession.Valid | src/components/Chatbot.tsx:17-94 | the state invariant: the list starts with the greeting, the k-th reply answers the k-th user text, the pending texts are the unanswered user texts in order, and typing implies a pending reply; every method keeps it |
| Chat.ChatSession.constructor | src/components/Chatbot.tsx:17-26 | the initial state is one greeting message, sent by the bot, an empty draft, typing off, nothing pending |
| Chat.ChatSession.UpdateDraft | src/components/Chatbot.tsx:193 | only the draft changes |
| Chat.ChatSession.Send | src/components/Chatbot.tsx:68-94 | input that is empty or all whitespace changes nothing; other input appends one user message with the untrimmed text, clears the draft, sets typing and schedules one reply to that text |
| Chat.ChatSession.KeyPress | src/components/Chatbot.tsx:96-100 | Enter acts exactly as Send; any other key changes nothing |
| Chat.ChatSession.FireReply | src/components/Chatbot.tsx:83-93 | appends one bot message, the reply to the captured text, and clears typing; the draft is kept |
| Chat.TwoRapidSends | src/components/Chatbot.tsx:68-94 | two sends before any reply give two user messages, then two replies, each computed from its own text; typing is already off while the second reply is still pending |

## Left out

- Rendering is out: the JSX, the icons, the open/closed toggle, scrolling to the newest message and the disabled state of the send button. None of it changes the conversation.
- Message ids and timestamps are out. They come from clock reads (`Date.now()`, `new Date()`), and ids are not guaranteed unique, so the model claims nothing about them.
- The 1500 ms timer and the browser event loop are out. Both are abstracted as the `pending` queue and an explicit `FireReply` step. A timer that fires after the widget unmounts is not modelled.
- Lower: only ASCII letters are lowercased. Full Unicode lowercasing maps a few other characters to ASCII: U+0130 becomes "i" followed by U+0307, and the Kelvin sign becomes "k". No keyword contains a "k", and no keyword has an "i" followed by U+0307. So these mappings cannot make a keyword occur. This argument is not part of the verified model.
- IsBlank is not part of the data invariant. The model does not carry "no user message is blank" in `Valid`, although `Send` never appends a blank one. Keeping it there made every state proof too costly.
- A second Enter pressed before React re-renders would still read the old draft through the stale closure. This is not modelled: each `Send` reads the current draft.
- `src/pages/Index.tsx` only composes page sections and is not part of this model.
