# Hyfa: a verified model of the Slack bot's core

Hyfa is a Slack bot that answers questions with a language model. Two kinds
of message reach it:

- **Direct messages** (`channel_type` `im`). The bot:
  1. posts an "is typing" message;
  2. asks the model, giving it the user's stored conversation history;
  3. formats the answer for Slack;
  4. records the user's text and the answer in a bounded per-user history;
  5. posts the answer;
  6. deletes the typing message.

  A 60-second timer deletes the typing message if the handler has not.
  A direct message posted inside a thread only gets a fixed apology.
- **Group messages** (`channel_type` `group`) that mention the bot. The bot
  fetches up to 20 entries of the thread or channel, converts them and
  passes them to the model in the reverse of the order Slack listed them.
  It then posts the formatted answer where the question was asked.

This project models that core in Dafny and proves properties of it:

- `Wrappers.dfy` holds `Option`.
- `Text.dfy` holds the JavaScript string operations the bot relies on:
  `indexOf`, `includes`, `split`, `trim`.
- `LLMService.dfy` holds the chat message type and two parts of the default
  language-model service: the reasoning-block stripping and the request's
  message list.
- `HistoryProvider.dfy` holds the in-memory history store, as a class whose
  `history` map the methods update.
- `SlackClient.dfy` holds:
  - the listener filters that decide which handler sees an event;
  - the defaults the client substitutes for missing fields.
- `Format.dfy` holds `formatResponse`'s two regular-expression replacements,
  modelled as JavaScript's global `replace` scans the string.
- `Hyfa.dfy` holds the two message pipelines and the success counter.
  - The bot is a class whose `trace` field records every outbound call
    (Slack or model) in order.
  - A `Gateway` value says what each call returns, or that it throws.
  - Each pipeline is also given as a function of the gateway: `DirectRun`,
    `GroupRun`, `DirectHistory`. The handler methods are proved equal to
    these functions, and the properties of the pipelines are proved as
    lemmas about them.

## Model

| member | source | states |
|---|---|---|
| Text.IndexOf | src/LLMService.ts:17 | the result is the first occurrence at or after `from`, or none when the pattern occurs nowhere from there |
| Text.ContainsIndexOf | src/LLMService.ts:17 | `includes` holds exactly when `indexOf` finds an occurrence |
| Text.Contains | src/LLMService.ts:17 | `includes`, as an existing occurrence; no contract of its own, `Text.ContainsIndexOf` ties it to `indexOf` |
| Text.Split | src/LLMService.ts:18 | `split` with a non-empty separator returns at least one piece; `Text.SplitJoin`, `Text.SplitCuts` and `Text.SplitPiecesLackSeparator` state what the pieces are |
| Text.SplitJoin | src/LLMService.ts:18 | joining `split`'s pieces with the separator gives back the string |
| Text.SplitCuts | src/LLMService.ts:18 | `split` yields at least two pieces exactly when the separator occurs |
| Text.SplitPiecesLackSeparator | src/LLMService.ts:18 | no piece `split` returns contains the separator |
| Text.Trim | src/Hyfa.ts:40 | the trimmed text neither starts nor ends with white space; it is empty exactly when every character is white space |
| Text.TrimIsInfix | src/LLMService.ts:18 | `trim` keeps one contiguous part of the text and removes only white space before and after it |
| Text.AllSpaceIffTrimEmpty | src/Hyfa.ts:40 | a text is all white space exactly when `trim` empties it |
| LLMService.MarkerHoldsClose | src/LLMService.ts:17-18 | text holding `"\n</think>\n"` holds `"</think>"`, so `split` has a second piece |
| LLMService.StripThink | src/LLMService.ts:17-20 | without the marker the content is returned unchanged; with it the reply has no leading or trailing white space |
| LLMService.StripThinkTakesSecondPiece | src/LLMService.ts:17-19 | with the marker, the reply is the trimmed text between the first `</think>` and the next one, or the end of the content when there is none |
| LLMService.SecondPiece | src/LLMService.ts:18 | `split(sep)[1]` is the text from just after the first separator up to the next separator or the end |
| LLMService.RequestMessages | src/LLMService.ts:29-32 | the request's messages are the context unchanged followed by the prompt as a user turn; one longer than the context |
| HistoryProvider.Stored | src/HistoryProvider.ts:16-20 | the buffer `getHistory` returns: the stored one, or `[]` for an unseen id; no contract of its own, `GetHistory` and `ReadThenRecord` state its use |
| HistoryProvider.Pushed | src/HistoryProvider.ts:23-31 | the buffer `pushHistory` leaves; no contract of its own, the lemmas below state its bound, what it keeps and how pushes compose |
| HistoryProvider.Evict | src/HistoryProvider.ts:28-30 | the buffer keeps exactly its last `min(length, max(historySize, 0))` entries, in order |
| HistoryProvider.PushedIsBounded | src/HistoryProvider.ts:23-30 | after a push the buffer holds at most `historySize` entries, and none when `historySize` is negative |
| HistoryProvider.PushBelowCapacity | src/HistoryProvider.ts:28 | below capacity nothing is dropped: the buffer becomes old buffer plus the message |
| HistoryProvider.PushKeepsNewest | src/HistoryProvider.ts:24-30 | with a positive `historySize`, the pushed message is kept, last |
| HistoryProvider.EvictThenAppend | src/HistoryProvider.ts:28-30 | evicting early and then appending more leaves what one eviction of everything leaves |
| HistoryProvider.PushAllKeepsMostRecent | src/HistoryProvider.ts:23-31 | any run of pushes into a buffer within capacity leaves the last `historySize` entries of old buffer followed by the pushed messages |
| HistoryProvider.PushPair | src/HistoryProvider.ts:23-31 | pushing the user turn and then the assistant turn equals keeping the last `historySize` entries of old buffer plus the pair |
| HistoryProvider.ReadThenRecord | src/HistoryProvider.ts:16-20 | the empty buffer `getHistory` inserts for an unseen id does not change what recording an exchange leaves |
| HistoryProvider.MemoryHistoryProvider.constructor | src/HistoryProvider.ts:12-14 | a new store is empty, keeps the given `historySize`, and every buffer is within capacity |
| HistoryProvider.MemoryHistoryProvider.GetHistory | src/HistoryProvider.ts:16-21 | returns the stored buffer, or `[]` for an unseen id; the map gains that id with `[]` when unseen and is otherwise unchanged |
| HistoryProvider.MemoryHistoryProvider.PushHistory | src/HistoryProvider.ts:23-31 | the id's buffer becomes old buffer plus the message, cut to its last `historySize` entries; every other id is unchanged; capacity is kept |
| SlackClient.IsIgnored | src/SlackClient.ts:41-48 | the shared drop rule: bot posts, edits, deletions and the bot's own messages; no contract of its own, `IgnoredEventsAreDropped` states its effect |
| SlackClient.MentionToken | src/SlackClient.ts:72 | the mention `<@id>` the group listener searches for, with an absent id written `undefined`; no contract of its own |
| SlackClient.ForwardsToDirect | src/SlackClient.ts:41-52 | the direct listener's condition: not ignored, `channel_type` `im`, non-empty text; no contract of its own, `Classify` is proved to follow it |
| SlackClient.ForwardsToGroup | src/SlackClient.ts:60-75 | the group listener's condition: not ignored, `channel_type` `group`, non-empty text holding the mention; no contract of its own, `Classify` is proved to follow it |
| SlackClient.Classify | src/SlackClient.ts:37-76 | an event goes to the direct handler exactly when the direct listener's condition holds, to the group handler exactly when the group listener's holds, and otherwise nowhere |
| SlackClient.ListenersAreExclusive | src/SlackClient.ts:50-70 | no event satisfies both listeners' conditions |
| SlackClient.IgnoredEventsAreDropped | src/SlackClient.ts:41-48 | bot posts, edits, deletions and the bot's own messages reach no handler |
| SlackClient.WhiteSpaceTextIsForwarded | src/SlackClient.ts:50-52 | the listener does not trim: every non-empty direct message of white space alone is forwarded, although it trims to `""` |
| SlackClient.TypingIndicatorTs | src/SlackClient.ts:123-128 | the typing message's `ts`, or `""` when Slack gave none; the result is empty exactly when no usable `ts` came back |
| SlackClient.MessagesOrEmpty | src/SlackClient.ts:84-88 | the reply's `messages`, or `[]` when absent (the same fallback as lines 102-106) |
| ResponseFormat.ReplaceBold | src/Hyfa.ts:139 | the global bold `replace`, scanning left to right; no contract of its own, `BoldClose`, `ReplaceBoldKeepsText`, `ReplaceBoldWithoutStars` and `BoldExample` state what it does |
| ResponseFormat.ReplaceFence | src/Hyfa.ts:142 | the global fence `replace`, scanning left to right; no contract of its own, `FenceClose`, `ReplaceFenceKeepsBackticks`, `ReplaceFenceWithoutFences`, `ReplaceFenceSkipsPlain` and `FenceExample` state what it does |
| ResponseFormat.FormatResponse | src/Hyfa.ts:137-144 | `formatResponse`: the bold rewrite, then the fence rewrite; no contract of its own, `FormatKeepsBackticks` states what it keeps |
| ResponseFormat.BoldClose | src/Hyfa.ts:139 | the greedy `**(.+)**` match opening at the start closes at the last admissible `**` on that line, at least one character later; none closes further on |
| ResponseFormat.FenceClose | src/Hyfa.ts:142 | the lazy ```` ```([^`]+?)\n ```` match opening at the start ends at the first admissible newline, and at no earlier one |
| ResponseFormat.ReplaceBoldKeepsText | src/Hyfa.ts:139 | the bold rewrite only deletes asterisks: with asterisks removed, input and output read the same |
| ResponseFormat.ReplaceBoldWithoutStars | src/Hyfa.ts:139 | text without `**` passes the bold rewrite unchanged |
| ResponseFormat.ReplaceFenceKeepsBackticks | src/Hyfa.ts:142 | the fence rewrite keeps the number of backticks |
| ResponseFormat.ReplaceFenceWithoutFences | src/Hyfa.ts:142 | text without a triple backtick passes the fence rewrite unchanged |
| ResponseFormat.ReplaceFenceSkipsPlain | src/Hyfa.ts:142 | a backtick-free prefix passes the fence rewrite unchanged, whatever follows it |
| ResponseFormat.FormatKeepsBackticks | src/Hyfa.ts:137-144 | `formatResponse` keeps the number of backticks, so code fences stay paired |
| ResponseFormat.BoldExample | src/Hyfa.ts:139 | `"**hi**"` formats to `"*hi*"` |
| ResponseFormat.FenceExample | src/Hyfa.ts:142 | ```` "```python\ncode\n```" ```` formats to ```` "*python*:\n```\ncode\n```" ```` |
| Hyfa.IsBlank | src/Hyfa.ts:40 | the handlers' blank test, as absent or all-white-space text; no contract of its own, `IsBlankIsTrimmedEmpty` ties it to `trim` |
| Hyfa.IsBlankIsTrimmedEmpty | src/Hyfa.ts:40 | the model's blank test is exactly `!message.text?.trim()` |
| Hyfa.ConvertToLLMMessage | src/Hyfa.ts:146-154 | an entry is an assistant turn exactly when its author is the bot (an absent bot id compares as `""`); its content is empty exactly when its text is absent or empty, and is otherwise the text |
| Hyfa.Reverse | src/Hyfa.ts:110 | `reverse()`: same length, entry `i` is entry `len-1-i` |
| Hyfa.TranscriptToHistory | src/Hyfa.ts:108-110 | the group context: each fetched entry converted, in reverse order; no contract of its own, `TranscriptToHistoryReverses` states the order |
| Hyfa.TranscriptToHistoryReverses | src/Hyfa.ts:125-127 | the group context has the transcript's length, and entry `i` is the converted transcript entry `len-1-i` |
| Hyfa.TimeoutCalls | src/Hyfa.ts:59-64 | the safety timer makes a call exactly when the marker variable still holds a non-empty `ts`, and that call is the one deletion of that `ts` in the message's channel |
| Hyfa.DirectRun | src/Hyfa.ts:39-91 | a direct run makes at most four calls; after a run that returns normally, the safety timer has nothing left to delete |
| Hyfa.AnswerRun | src/Hyfa.ts:66-90 | once the typing message is posted, the run asks the model and then makes at most two more calls |
| Hyfa.PostRun | src/Hyfa.ts:83-90 | posting the reply and then deleting the typing message make one or two calls |
| Hyfa.DirectHistory | src/Hyfa.ts:39-81 | a direct run changes no user's buffer but the sender's, and adds or removes no other id |
| Hyfa.AnswerHistory | src/Hyfa.ts:66-81 | once the model is asked, the sender has a buffer |
| Hyfa.BlankTextIsIgnored | src/Hyfa.ts:40-42 | text that is absent or trims to nothing makes both pipelines return with no call and the store unchanged (also lines 94-96) |
| Hyfa.ThreadMessagesGetOnlyTheApology | src/Hyfa.ts:44-51 | a direct message in a thread gets exactly one call, the fixed apology to that channel and thread; it leaves no typing marker and the store unchanged, and returns exactly when posting succeeds |
| Hyfa.DirectAsksWithPriorHistory | src/Hyfa.ts:66-70 | the model is asked with the received text and the buffer as it was before this turn; the direct pipeline fetches no transcript |
| Hyfa.DirectPostsTheRecordedReply | src/Hyfa.ts:53-90 | when the model answers: typing message, model call, then the formatted reply posted to the message's channel; the run returns exactly when posting succeeds and the typing message is either empty or deleted |
| Hyfa.DirectHistoryEndsWithExchange | src/Hyfa.ts:73-81 | after an answered direct message, the sender's buffer ends with the user's text and then the posted reply, and holds at most `historySize` entries |
| Hyfa.DirectHistoryKeepsCapacity | src/Hyfa.ts:73-81 | a direct run keeps every buffer within `historySize` |
| Hyfa.PostTypingDeletions | src/Hyfa.ts:83-90 | posting then deleting, followed by the timer, deletes a typing message with a non-empty `ts` once, twice when the handler's deletion throws, and one with an empty `ts` never; every deletion targets that `ts` |
| Hyfa.AnswerTypingDeletions | src/Hyfa.ts:66-90 | once the typing message `ts` is posted, the rest of the run and the timer delete it when `ts` is non-empty, once, or twice when the model answered, posting succeeded and the handler's deletion threw; every deletion targets `ts` |
| Hyfa.DirectTypingDeletions | src/Hyfa.ts:53-90 | across a whole direct run and the safety timer, the typing message is deleted exactly when it was posted with a non-empty `ts`: once, or twice when the model answered, posting succeeded and the handler's deletion threw; every deletion targets that message in the message's channel |
| Hyfa.TranscriptFetch | src/Hyfa.ts:99-122 | the group pipeline reads the thread's replies exactly when the message is in a thread, otherwise the channel's history |
| Hyfa.GroupRun | src/Hyfa.ts:93-135 | a group run makes at most three calls and never posts or deletes a typing message |
| Hyfa.GroupPostsWhereAsked | src/Hyfa.ts:99-134 | when transcript and model answer, the run fetches 20 entries, then posts the formatted reply to the message's channel and thread; it returns exactly when posting succeeds |
| Hyfa.GroupAsksWithTranscript | src/Hyfa.ts:107-113 | the model is asked with the received text and the fetched entries, each converted, in reverse order |
| Hyfa.Hyfa.constructor | src/Hyfa.ts:5-11 | a new bot has counter 0, an empty trace, and the given store and bot id |
| Hyfa.Hyfa.DirectMessageHandler | src/Hyfa.ts:39-91 | the calls issued, the outcome and the final typing marker are those of `DirectRun` on the sender's stored buffer; the store becomes `DirectHistory` of the old store; every buffer stays within capacity |
| Hyfa.Hyfa.AnswerDirectMessage | src/Hyfa.ts:66-90 | from reading the history onwards, the calls, outcome and marker are `AnswerRun`'s, and the store becomes `AnswerHistory` of the old one |
| Hyfa.Hyfa.PostReply | src/Hyfa.ts:83-90 | posting the reply and clearing the typing marker issue exactly `PostRun`'s calls, outcome and marker |
| Hyfa.Hyfa.RecordExchange | src/Hyfa.ts:73-81 | the two pushes leave the sender's buffer as the last `historySize` entries of old buffer plus user text then reply; other ids unchanged |
| Hyfa.Hyfa.GroupMessageHandler | src/Hyfa.ts:93-135 | the calls issued and the outcome are those of `GroupRun`; the history store is untouched |
| Hyfa.Hyfa.HandleEvent | src/Hyfa.ts:13-33 | an event reaches the handler `Classify` picks, or none; a dropped event changes nothing; the counter grows by one exactly when a handler returns normally |

## Left out

- Slack, HTTP and the language-model endpoint are not called. The model
  cannot observe what they do, so each call's result is a field of a
  `Gateway` value: a returned value or a thrown error, and whether posting
  and deleting succeed.
- The Bolt app, socket mode, `auth.test` and the API request shapes are out
  of scope. `src/index.ts` is not part of this model.
- `fetch`, JSON encoding, the HTTP status check and `data.choices[0]` parsing
  are out of scope, for the same reason.
- Hyfa calls the `LLMService` interface, so the gateway's completion is the
  text `generate` resolves to. `StripThink` models what the default service
  does to the model's content before returning it. The handlers do not apply
  it themselves.
- The `setTimeout` callback is not scheduled. `TimeoutCalls` gives what it
  does when it fires after the handler has finished, reading the final value
  of the marker variable.
- Promise interleaving is not modelled. Neither is the race when two
  handlers for the same user read and write the store concurrently. One
  handler run is modelled at a time.
- `console.log`, `console.warn` and `console.error` output are not modelled.
- `getHistory` returns the stored array itself, and `pushHistory` mutates
  that array in place. The model stores buffers as values in the map, so it
  cannot express aliasing. Nothing in the source reads the returned array
  after a later push, so the observable results agree.
- JavaScript strings are sequences of UTF-16 code units. Here they are
  sequences of characters, and the white-space set of `trim` is listed
  character by character.
- `historySize` is an unbounded integer, and JavaScript number semantics
  (fractions, NaN) are not modelled. `splice` clamping its delete count is
  modelled.
- The order in which Slack lists a thread's replies or a channel's history,
  and which 20 entries `limit` selects, belong to Slack and are not
  modelled. The gateway's transcript is taken as listed, and the model only
  states that the context is its reverse.
- Hyfa.Hyfa.AnswerDirectMessage, Hyfa.Hyfa.PostReply and
  Hyfa.Hyfa.RecordExchange are not separate operations in the source. They
  are consecutive parts of `directMessageHandler`, split so that each part
  has its own contract.
- Behaviour of the code that the model keeps as is:
  - the bold pattern is greedy within a line;
  - fences without a language tag are rewritten too;
  - only `channel_type` `group` reaches the group handler, and there is no
    thread-parent rule;
  - `getHistory` makes no copy;
  - the pair is stored by two separate pushes;
  - the timer is never cancelled;
  - a failing typing indicator throws rather than being ignored.
