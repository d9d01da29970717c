/**
 * The bot's orchestration: the direct-message and group-message pipelines,
 * the typing indicator's life cycle and the success counter.  Calls to Slack
 * and to the language model are recorded, in order, in a trace; what each
 * call returns, or whether it throws, is given by a `Gateway` value.
 */
module Hyfa {
  import opened Wrappers
  import opened Text
  import opened LLMService
  import opened HistoryProvider
  import opened SlackClient
  import opened ResponseFormat

  /** The fixed reply to a direct message posted inside a thread. */
  const ThreadApology := "I'm sorry, but I cannot respond to messages in threads. Please send a direct message instead."

  /** How many transcript entries the group pipeline fetches. */
  const TranscriptWindow := 20

  /** One outbound call, as issued; a call that throws is still recorded. */
  datatype Call =
    | SendMessage(channel: string, text: string, threadTs: Option<string>)
    | SendTypingIndicator(channel: string)
    | DeleteTypingIndicator(channel: string, ts: string)
    | GetChannelHistory(channel: string, limit: int)
    | GetThreadMessages(channel: string, thread: string, limit: int)
    | Generate(prompt: string, context: seq<LLMMessage>)

  /** What an awaited call produced: a value, or an exception. */
  datatype Reply<T> = Returns(value: T) | Throws

  /**
   * The outcome of each kind of call during one handler run (each kind is
   * issued at most once per run): the `ts` of the typing message, if Slack
   * gave one; the transcript's `messages`, if present; the text the
   * language-model service's `generate` resolves to (for the default
   * service, `StripThink` of the model's content); whether posting and
   * deleting succeed.
   */
  datatype Gateway = Gateway(
    typingTs: Reply<Option<string>>,
    transcript: Reply<Option<seq<SlackMessage>>>,
    completion: Reply<string>,
    sendOk: bool,
    deleteOk: bool)

  /** A handler either returns normally or throws to the listener. */
  datatype Outcome = Completed | Failed

  /** The pipelines ignore absent and all-white-space text. */
  predicate IsBlank(text: Option<string>)
  {
    text.None? || AllSpace(text.value)
  }

  /** `IsBlank` is the handlers' guard `!message.text?.trim()`. */
  lemma IsBlankIsTrimmedEmpty(text: Option<string>)
    ensures IsBlank(text) <==> text.None? || Trim(text.value) == ""
  {
    if text.Some? {
      AllSpaceIffTrimEmpty(text.value);
    }
  }

  /**
   * `convertToLLMMessage`: a transcript entry by the bot is an assistant
   * turn, any other a user turn; absent or empty text becomes "".  An
   * absent bot id is compared as "", the parameter's default.
   */
  function ConvertToLLMMessage(message: SlackMessage, botUserId: Option<string>): (converted: LLMMessage)
    ensures converted.role == Assistant <==> message.user == Some(botUserId.GetOr(""))
    ensures converted.content == "" <==> !Truthy(message.text)
    ensures Truthy(message.text) ==> converted.content == message.text.value
  {
    LLMMessage(
      if message.user == Some(botUserId.GetOr("")) then Assistant else User,
      if Truthy(message.text) then message.text.value else "")
  }

  /** `array.reverse()`. */
  function Reverse<T>(s: seq<T>): (r: seq<T>)
    ensures |r| == |s|
    ensures forall i :: 0 <= i < |s| ==> r[i] == s[|s| - 1 - i]
  {
    if s == [] then [] else Reverse(s[1..]) + [s[0]]
  }

  /**
   * The group pipeline's context: the fetched entries, each converted, in
   * the reverse of the order Slack listed them.
   */
  function TranscriptToHistory(transcript: seq<SlackMessage>, botUserId: Option<string>): seq<LLMMessage>
  {
    Reverse(seq(|transcript|, i requires 0 <= i < |transcript| => ConvertToLLMMessage(transcript[i], botUserId)))
  }

  /** Entry `i` of the context is the converted transcript entry `|transcript| - 1 - i`. */
  lemma TranscriptToHistoryReverses(transcript: seq<SlackMessage>, botUserId: Option<string>)
    ensures |TranscriptToHistory(transcript, botUserId)| == |transcript|
    ensures forall i :: 0 <= i < |transcript| ==>
      TranscriptToHistory(transcript, botUserId)[i] == ConvertToLLMMessage(transcript[|transcript| - 1 - i], botUserId)
  {
  }

  /** The calls the 60-second safety timer makes, given the marker variable's value when it fires. */
  function TimeoutCalls(channel: string, marker: Option<string>): (calls: seq<Call>)
    ensures calls != [] <==> Truthy(marker)
    ensures calls != [] ==> calls == [DeleteTypingIndicator(channel, marker.value)]
  {
    if Truthy(marker) then [DeleteTypingIndicator(channel, marker.value)] else []
  }

  /** The number of typing-indicator deletions among `calls`. */
  function Deletions(calls: seq<Call>): nat
  {
    if calls == [] then 0
    else (if calls[0].DeleteTypingIndicator? then 1 else 0) + Deletions(calls[1..])
  }

  lemma {:induction false} DeletionsConcat(a: seq<Call>, b: seq<Call>)
    ensures Deletions(a + b) == Deletions(a) + Deletions(b)
    decreases |a|
  {
    if a == [] {
      assert a + b == b;
    } else {
      assert (a + b)[1..] == a[1..] + b;
      DeletionsConcat(a[1..], b);
    }
  }

  lemma {:induction false} NoneDeleted(calls: seq<Call>)
    requires forall c :: c in calls ==> !c.DeleteTypingIndicator?
    ensures Deletions(calls) == 0
    decreases |calls|
  {
    if calls != [] {
      NoneDeleted(calls[1..]);
    }
  }

  /**
   * What one handler run did: the calls it issued in order, whether it
   * returned or threw, and the final value of the typing-marker variable
   * the safety timer reads.
   */
  datatype Run = Run(calls: seq<Call>, outcome: Outcome, marker: Option<string>)

  /**
   * `directMessageHandler`, as a function of what the gateway answers and of
   * `prior`, the user's buffer before the run.  Blank text is ignored; a
   * message in a thread gets the apology in that thread and nothing else;
   * otherwise the typing indicator is posted, the model asked with the
   * stored history, its formatted reply posted, and the typing message
   * deleted when it has a `ts`.  The first call that throws ends the run.
   */
  function DirectRun(message: SlackMessageEvent, gateway: Gateway, prior: seq<LLMMessage>): (run: Run)
    ensures |run.calls| <= 4
    // after a run that returns, the safety timer has nothing left to delete
    ensures run.outcome == Completed ==> TimeoutCalls(message.channel, run.marker) == []
  {
    if IsBlank(message.text) then Run([], Completed, None)
    else if Truthy(message.threadTs) then
      Run([SendMessage(message.channel, ThreadApology, message.threadTs)],
          if gateway.sendOk then Completed else Failed, None)
    else if gateway.typingTs.Throws? then Run([SendTypingIndicator(message.channel)], Failed, None)
    else
      var answer := AnswerRun(message, gateway, prior, TypingIndicatorTs(gateway.typingTs.value));
      Run([SendTypingIndicator(message.channel)] + answer.calls, answer.outcome, answer.marker)
  }

  /**
   * The direct pipeline once the typing message `ts` is posted: ask the
   * model, then post its formatted reply.
   */
  function AnswerRun(message: SlackMessageEvent, gateway: Gateway, prior: seq<LLMMessage>, ts: string): (run: Run)
    requires message.text.Some?
    ensures 1 <= |run.calls| <= 3
  {
    var ask := Generate(message.text.value, prior);
    if gateway.completion.Throws? then Run([ask], Failed, Some(ts))
    else
      var post := PostRun(message, gateway, FormatResponse(gateway.completion.value), ts);
      Run([ask] + post.calls, post.outcome, post.marker)
  }

  /**
   * Posting `reply` and then deleting the typing message `ts` when it is not
   * empty.  The marker variable starts as `ts` and is cleared only by a
   * deletion that succeeds.
   */
  function PostRun(message: SlackMessageEvent, gateway: Gateway, reply: string, ts: string): (run: Run)
    ensures 1 <= |run.calls| <= 2
  {
    var send := SendMessage(message.channel, reply, message.threadTs);
    if !gateway.sendOk then Run([send], Failed, Some(ts))
    else if ts == "" then Run([send], Completed, Some(ts))
    else
      Run([send, DeleteTypingIndicator(message.channel, ts)],
          if gateway.deleteOk then Completed else Failed,
          if gateway.deleteOk then None else Some(ts))
  }

  /**
   * The store after `directMessageHandler`: once the model has been asked
   * the user has an entry (`getHistory` inserts an empty one); once it has
   * answered, the user's text and then the reply are pushed.  Only the
   * user's own entry changes.
   */
  function DirectHistory(history: map<string, seq<LLMMessage>>, message: SlackMessageEvent, gateway: Gateway,
                         historySize: int): (updated: map<string, seq<LLMMessage>>)
    ensures forall id :: id != message.user ==> (id in updated <==> id in history)
    ensures forall id :: id != message.user && id in history ==> updated[id] == history[id]
  {
    if IsBlank(message.text) || Truthy(message.threadTs) || gateway.typingTs.Throws? then history
    else AnswerHistory(history, message, gateway, historySize)
  }

  /** The store after the direct pipeline has read the history and asked the model. */
  function AnswerHistory(history: map<string, seq<LLMMessage>>, message: SlackMessageEvent, gateway: Gateway,
                         historySize: int): (updated: map<string, seq<LLMMessage>>)
    requires message.text.Some?
    ensures message.user in updated
  {
    var prior := Stored(history, message.user);
    if gateway.completion.Throws? then history[message.user := prior]
    else
      history[message.user := Evict(prior + [LLMMessage(User, message.text.value),
                                              LLMMessage(Assistant, FormatResponse(gateway.completion.value))],
                                    historySize)]
  }

  /** A call that is not a deletion adds none. */
  lemma PrependNonDeletion(call: Call, calls: seq<Call>)
    requires !call.DeleteTypingIndicator?
    ensures Deletions([call] + calls) == Deletions(calls)
  {
    assert ([call] + calls)[1..] == calls;
  }

  /** The direct pipeline posted a typing message and Slack gave it a usable `ts`. */
  predicate TypingPosted(message: SlackMessageEvent, gateway: Gateway)
  {
    && !IsBlank(message.text) && !Truthy(message.threadTs)
    && gateway.typingTs.Returns? && TypingIndicatorTs(gateway.typingTs.value) != ""
  }

  /**
   * Posting the reply, then the safety timer: a typing message with a
   * non-empty `ts` is deleted once, or twice when the handler's own deletion
   * throws and leaves the marker for the timer; one with an empty `ts` is
   * never deleted.  Every deletion targets that message.
   */
  lemma PostTypingDeletions(message: SlackMessageEvent, gateway: Gateway, reply: string, ts: string)
    ensures var run := PostRun(message, gateway, reply, ts);
      var cleanup := run.calls + TimeoutCalls(message.channel, run.marker);
      && Deletions(cleanup) == (if ts == "" then 0 else if gateway.sendOk && !gateway.deleteOk then 2 else 1)
      && forall c :: c in cleanup && c.DeleteTypingIndicator? ==> c == DeleteTypingIndicator(message.channel, ts)
  {
    var run := PostRun(message, gateway, reply, ts);
    var send := SendMessage(message.channel, reply, message.threadTs);
    var delete := DeleteTypingIndicator(message.channel, ts);
    var timer := TimeoutCalls(message.channel, run.marker);
    var cleanup := run.calls + timer;
    if gateway.sendOk && ts != "" {
      assert run.calls == [send, delete];
      if gateway.deleteOk {
        assert cleanup == [send] + [delete];
        assert Deletions([delete]) == 1;
      } else {
        assert cleanup == [send] + [delete, delete];
        assert [delete, delete][1..] == [delete];
        assert Deletions([delete, delete]) == 2;
      }
    } else if ts != "" {
      assert cleanup == [send] + [delete];
      assert Deletions([delete]) == 1;
    } else {
      assert cleanup == [send] + [];
    }
    PrependNonDeletion(send, cleanup[1..]);
  }

  /**
   * Once the typing message `ts` is posted, the rest of the run and the
   * safety timer delete it when `ts` is not empty: once, or twice when the
   * handler's own deletion throws.  Every deletion targets `ts`.
   */
  lemma AnswerTypingDeletions(message: SlackMessageEvent, gateway: Gateway, prior: seq<LLMMessage>, ts: string)
    requires message.text.Some?
    ensures var run := AnswerRun(message, gateway, prior, ts);
      var cleanup := run.calls + TimeoutCalls(message.channel, run.marker);
      && Deletions(cleanup)
         == (if ts == "" then 0 else if gateway.completion.Returns? && gateway.sendOk && !gateway.deleteOk then 2 else 1)
      && forall c :: c in cleanup && c.DeleteTypingIndicator? ==> c == DeleteTypingIndicator(message.channel, ts)
  {
    var run := AnswerRun(message, gateway, prior, ts);
    var timer := TimeoutCalls(message.channel, run.marker);
    var ask := Generate(message.text.value, prior);
    var rest;
    if gateway.completion.Throws? {
      rest := timer;
      if ts != "" {
        assert timer == [DeleteTypingIndicator(message.channel, ts)];
        assert Deletions(timer) == 1;
      }
    } else {
      var post := PostRun(message, gateway, FormatResponse(gateway.completion.value), ts);
      PostTypingDeletions(message, gateway, FormatResponse(gateway.completion.value), ts);
      rest := post.calls + timer;
    }
    assert run.calls + timer == [ask] + rest;
    PrependNonDeletion(ask, rest);
  }

  /**
   * A direct run followed by the safety timer deletes the typing message
   * exactly when it was posted with a non-empty `ts`: once, or twice when
   * the handler's own deletion throws.  Every deletion targets that message
   * in the message's channel.
   */
  lemma DirectTypingDeletions(message: SlackMessageEvent, gateway: Gateway, prior: seq<LLMMessage>)
    ensures var run := DirectRun(message, gateway, prior);
      var cleanup := run.calls + TimeoutCalls(message.channel, run.marker);
      && Deletions(cleanup)
         == (if !TypingPosted(message, gateway) then 0
             else if gateway.completion.Returns? && gateway.sendOk && !gateway.deleteOk then 2 else 1)
      && forall c :: c in cleanup && c.DeleteTypingIndicator? ==>
           TypingPosted(message, gateway)
           && c == DeleteTypingIndicator(message.channel, TypingIndicatorTs(gateway.typingTs.value))
  {
    var run := DirectRun(message, gateway, prior);
    var timer := TimeoutCalls(message.channel, run.marker);
    if IsBlank(message.text) || Truthy(message.threadTs) || gateway.typingTs.Throws? {
      assert run.marker == None && |run.calls| <= 1;
      assert run.calls + timer == run.calls;
      NoneDeleted(run.calls);
    } else {
      var ts := TypingIndicatorTs(gateway.typingTs.value);
      var answer := AnswerRun(message, gateway, prior, ts);
      AnswerTypingDeletions(message, gateway, prior, ts);
      var typing := SendTypingIndicator(message.channel);
      assert run.calls + timer == [typing] + (answer.calls + TimeoutCalls(message.channel, answer.marker));
      PrependNonDeletion(typing, answer.calls + TimeoutCalls(message.channel, answer.marker));
    }
  }

  /**
   * The model sees the text just received and the user's history as it was
   * before this turn, and the direct pipeline never reads a transcript.
   */
  lemma DirectAsksWithPriorHistory(message: SlackMessageEvent, gateway: Gateway, prior: seq<LLMMessage>, call: Call)
    requires call in DirectRun(message, gateway, prior).calls
    ensures call.Generate? ==> message.text.Some? && call.prompt == message.text.value && call.context == prior
    ensures !call.GetChannelHistory? && !call.GetThreadMessages?
  {
  }

  /** A message in a thread is answered with the apology, in that thread, and nothing else; the store is untouched. */
  lemma ThreadMessagesGetOnlyTheApology(message: SlackMessageEvent, gateway: Gateway, prior: seq<LLMMessage>,
                                        history: map<string, seq<LLMMessage>>, historySize: int)
    requires !IsBlank(message.text) && Truthy(message.threadTs)
    ensures var run := DirectRun(message, gateway, prior);
      && run.calls == [SendMessage(message.channel, ThreadApology, message.threadTs)]
      && run.marker == None
      && (run.outcome == Completed <==> gateway.sendOk)
    ensures DirectHistory(history, message, gateway, historySize) == history
  {
  }

  /**
   * Text that is absent or trims to nothing makes both pipelines return at
   * once: no call of any kind, and the store untouched.
   */
  lemma BlankTextIsIgnored(message: SlackMessageEvent, gateway: Gateway, prior: seq<LLMMessage>,
                           history: map<string, seq<LLMMessage>>, historySize: int, botUserId: Option<string>)
    requires message.text.None? || Trim(message.text.value) == ""
    ensures DirectRun(message, gateway, prior) == Run([], Completed, None)
    ensures DirectHistory(history, message, gateway, historySize) == history
    ensures GroupRun(message, gateway, botUserId) == Run([], Completed, None)
  {
    IsBlankIsTrimmedEmpty(message.text);
  }

  /**
   * When the model answers, the direct pipeline asks it with the text and
   * the prior buffer and posts the formatted reply, the same text it
   * records, to the message's channel.
   */
  lemma DirectPostsTheRecordedReply(message: SlackMessageEvent, gateway: Gateway, prior: seq<LLMMessage>)
    requires !IsBlank(message.text) && !Truthy(message.threadTs)
    requires gateway.typingTs.Returns? && gateway.completion.Returns?
    ensures var run := DirectRun(message, gateway, prior);
      && run.calls[..3] == [SendTypingIndicator(message.channel),
                            Generate(message.text.value, prior),
                            SendMessage(message.channel, FormatResponse(gateway.completion.value), message.threadTs)]
      && (run.outcome == Completed <==> gateway.sendOk && (TypingIndicatorTs(gateway.typingTs.value) == "" || gateway.deleteOk))
  {
    var ts := TypingIndicatorTs(gateway.typingTs.value);
    var post := PostRun(message, gateway, FormatResponse(gateway.completion.value), ts);
    var answer := AnswerRun(message, gateway, prior, ts);
    assert answer.calls == [Generate(message.text.value, prior)] + post.calls;
    assert DirectRun(message, gateway, prior).calls == [SendTypingIndicator(message.channel)] + answer.calls;
  }

  /**
   * Once the model has answered, the user's buffer ends with the exchange
   * (the text, then the posted reply) whenever it may hold two turns, and it
   * stays within `historySize`.
   */
  lemma DirectHistoryEndsWithExchange(history: map<string, seq<LLMMessage>>, message: SlackMessageEvent,
                                      gateway: Gateway, historySize: int)
    requires !IsBlank(message.text) && !Truthy(message.threadTs)
    requires gateway.typingTs.Returns? && gateway.completion.Returns?
    requires historySize >= 2
    ensures var buffer := DirectHistory(history, message, gateway, historySize)[message.user];
      && 2 <= |buffer| <= historySize
      && buffer[|buffer| - 2..] == [LLMMessage(User, message.text.value),
                                    LLMMessage(Assistant, FormatResponse(gateway.completion.value))]
  {
    var exchange := [LLMMessage(User, message.text.value), LLMMessage(Assistant, FormatResponse(gateway.completion.value))];
    var full := Stored(history, message.user) + exchange;
    var buffer := Evict(full, historySize);
    assert DirectHistory(history, message, gateway, historySize)[message.user] == buffer;
    assert buffer[|buffer| - 2..] == full[|full| - 2..];
    assert full[|full| - 2..] == exchange;
  }

  /** The store keeps every buffer within `historySize` across a direct run. */
  lemma DirectHistoryKeepsCapacity(history: map<string, seq<LLMMessage>>, message: SlackMessageEvent,
                                   gateway: Gateway, historySize: int)
    requires forall id :: id in history ==> |history[id]| <= Capacity(historySize)
    ensures var updated := DirectHistory(history, message, gateway, historySize);
      forall id :: id in updated ==> |updated[id]| <= Capacity(historySize)
  {
  }

  /** The transcript call of the group pipeline: the thread's replies, or the channel's history. */
  function TranscriptFetch(message: SlackMessageEvent): (fetch: Call)
    ensures fetch.GetThreadMessages? <==> Truthy(message.threadTs)
    ensures fetch.GetThreadMessages? || fetch.GetChannelHistory?
  {
    if Truthy(message.threadTs) then GetThreadMessages(message.channel, message.threadTs.value, TranscriptWindow)
    else GetChannelHistory(message.channel, TranscriptWindow)
  }

  /**
   * `groupMessageHandler`: blank text is ignored; otherwise the recent
   * transcript is fetched, the model asked with it, and the formatted reply
   * posted where the message was (in its thread, if any).  The first call
   * that throws ends the run.
   */
  function GroupRun(message: SlackMessageEvent, gateway: Gateway, botUserId: Option<string>): (run: Run)
    ensures |run.calls| <= 3 && run.marker == None
    // no typing indicator, so nothing for a timer to clean up
    ensures forall c :: c in run.calls ==> !c.SendTypingIndicator? && !c.DeleteTypingIndicator?
  {
    if IsBlank(message.text) then Run([], Completed, None)
    else if gateway.transcript.Throws? then Run([TranscriptFetch(message)], Failed, None)
    else
      var ask := Generate(message.text.value, TranscriptToHistory(MessagesOrEmpty(gateway.transcript.value), botUserId));
      if gateway.completion.Throws? then Run([TranscriptFetch(message), ask], Failed, None)
      else
        Run([TranscriptFetch(message), ask,
             SendMessage(message.channel, FormatResponse(gateway.completion.value), message.threadTs)],
            if gateway.sendOk then Completed else Failed, None)
  }

  /**
   * When the transcript and the model both answer, the group pipeline
   * fetches 20 entries, then posts the formatted reply to the message's
   * channel, in the message's thread if it has one.
   */
  lemma GroupPostsWhereAsked(message: SlackMessageEvent, gateway: Gateway, botUserId: Option<string>)
    requires !IsBlank(message.text) && gateway.transcript.Returns? && gateway.completion.Returns?
    ensures var run := GroupRun(message, gateway, botUserId);
      && |run.calls| == 3
      && run.calls[0] == TranscriptFetch(message) && run.calls[0].limit == TranscriptWindow == 20
      && run.calls[2] == SendMessage(message.channel, FormatResponse(gateway.completion.value), message.threadTs)
      && (run.outcome == Completed <==> gateway.sendOk)
  {
  }

  /**
   * The group pipeline asks the model with the fetched entries in reverse
   * order, each entry attributed to the bot or to a user.
   */
  lemma GroupAsksWithTranscript(message: SlackMessageEvent, gateway: Gateway, botUserId: Option<string>, call: Call)
    requires call in GroupRun(message, gateway, botUserId).calls && call.Generate?
    ensures gateway.transcript.Returns? && message.text.Some? && call.prompt == message.text.value
    ensures var transcript := MessagesOrEmpty(gateway.transcript.value);
      && |call.context| == |transcript|
      && forall i :: 0 <= i < |transcript| ==>
           call.context[i] == ConvertToLLMMessage(transcript[|transcript| - 1 - i], botUserId)
  {
    TranscriptToHistoryReverses(MessagesOrEmpty(gateway.transcript.value), botUserId);
  }

  class Hyfa {
    const historyProvider: MemoryHistoryProvider
    /** The Slack client's `botUserId`, set once when the client starts. */
    const botUserId: Option<string>
    /** Handler runs that returned without throwing. */
    var counter: nat
    /** Every outbound call so far, oldest first. */
    var trace: seq<Call>

    ghost predicate Valid()
      reads this, historyProvider
    {
      historyProvider.Valid()
    }

    constructor (historyProvider: MemoryHistoryProvider, botUserId: Option<string>)
      requires historyProvider.Valid()
      ensures Valid()
      ensures this.historyProvider == historyProvider && this.botUserId == botUserId
      ensures counter == 0 && trace == []
    {
      this.historyProvider := historyProvider;
      this.botUserId := botUserId;
      counter := 0;
      trace := [];
    }

    /**
     * `directMessageHandler`.  Also returns the value the typing-marker
     * variable holds afterwards, which is what the safety timer will see.
     */
    method DirectMessageHandler(message: SlackMessageEvent, gateway: Gateway) returns (outcome: Outcome, marker: Option<string>)
      requires Valid()
      modifies this`trace, historyProvider
      ensures Valid()
      ensures var run := DirectRun(message, gateway, Stored(old(historyProvider.history), message.user));
        trace == old(trace) + run.calls && outcome == run.outcome && marker == run.marker
      ensures historyProvider.history
           == DirectHistory(old(historyProvider.history), message, gateway, historyProvider.historySize)
    {
      if IsBlank(message.text) {
        return Completed, None;
      }
      if Truthy(message.threadTs) {
        trace := trace + [SendMessage(message.channel, ThreadApology, message.threadTs)];
        return if gateway.sendOk then Completed else Failed, None;
      }

      trace := trace + [SendTypingIndicator(message.channel)];
      if gateway.typingTs.Throws? {
        return Failed, None;
      }
      ghost var answer := AnswerRun(message, gateway, Stored(old(historyProvider.history), message.user),
                                    TypingIndicatorTs(gateway.typingTs.value));
      outcome, marker := AnswerDirectMessage(message, gateway, TypingIndicatorTs(gateway.typingTs.value));
      assert trace == old(trace) + ([SendTypingIndicator(message.channel)] + answer.calls);
    }

    /**
     * The rest of `directMessageHandler` once the typing indicator is
     * posted with `ts`, which the marker variable shared with the safety
     * timer starts out holding.
     */
    method AnswerDirectMessage(message: SlackMessageEvent, gateway: Gateway, ts: string) returns (outcome: Outcome, marker: Option<string>)
      requires Valid() && message.text.Some?
      modifies this`trace, historyProvider
      ensures Valid()
      ensures var run := AnswerRun(message, gateway, Stored(old(historyProvider.history), message.user), ts);
        trace == old(trace) + run.calls && outcome == run.outcome && marker == run.marker
      ensures historyProvider.history
           == AnswerHistory(old(historyProvider.history), message, gateway, historyProvider.historySize)
    {
      var text := message.text.value;
      ghost var before := historyProvider.history;
      var history := historyProvider.GetHistory(message.user);
      trace := trace + [Generate(text, history)];
      if gateway.completion.Throws? {
        return Failed, Some(ts);
      }
      var reply := FormatResponse(gateway.completion.value);

      RecordExchange(message.user, text, reply);
      ReadThenRecord(before, message.user, [LLMMessage(User, text), LLMMessage(Assistant, reply)], historyProvider.historySize);

      ghost var post := PostRun(message, gateway, reply, ts);
      outcome, marker := PostReply(message, gateway, reply, ts);
      assert trace == old(trace) + ([Generate(text, history)] + post.calls);
    }

    /**
     * The end of `directMessageHandler`: post the reply, then delete the
     * typing message if the marker variable, which starts as `ts`, holds one.
     */
    method PostReply(message: SlackMessageEvent, gateway: Gateway, reply: string, ts: string) returns (outcome: Outcome, marker: Option<string>)
      modifies this`trace
      ensures var run := PostRun(message, gateway, reply, ts);
        trace == old(trace) + run.calls && outcome == run.outcome && marker == run.marker
    {
      var typingIndicatorTs := Some(ts);
      trace := trace + [SendMessage(message.channel, reply, message.threadTs)];
      if !gateway.sendOk {
        return Failed, typingIndicatorTs;
      }

      if Truthy(typingIndicatorTs) {
        trace := trace + [DeleteTypingIndicator(message.channel, typingIndicatorTs.value)];
        if !gateway.deleteOk {
          return Failed, typingIndicatorTs;
        }
        typingIndicatorTs := None;
      }
      return Completed, typingIndicatorTs;
    }

    /**
     * The two `pushHistory` calls that follow a reply in the direct pipeline:
     * the user's text, then the reply, appended to the user's buffer as one
     * eviction would leave them.
     */
    method RecordExchange(slackId: string, prompt: string, reply: string)
      requires Valid()
      modifies historyProvider
      ensures Valid()
      ensures historyProvider.history == old(historyProvider.history)[slackId :=
        Evict(Stored(old(historyProvider.history), slackId) + [LLMMessage(User, prompt), LLMMessage(Assistant, reply)],
              historyProvider.historySize)]
    {
      var user, assistant := LLMMessage(User, prompt), LLMMessage(Assistant, reply);
      ghost var before := historyProvider.history;
      ghost var prior := Stored(before, slackId);
      historyProvider.PushHistory(slackId, user);
      ghost var once := Pushed(prior, user, historyProvider.historySize);
      assert historyProvider.history == before[slackId := once];
      historyProvider.PushHistory(slackId, assistant);
      assert historyProvider.history == before[slackId := once][slackId := Pushed(once, assistant, historyProvider.historySize)];
      UpdateTwice(before, slackId, once, Pushed(once, assistant, historyProvider.historySize));
      PushPair(prior, user, assistant, historyProvider.historySize);
    }

    /** `groupMessageHandler`: answer from the thread's or the channel's recent transcript. */
    method GroupMessageHandler(message: SlackMessageEvent, gateway: Gateway) returns (outcome: Outcome)
      modifies this`trace
      ensures var run := GroupRun(message, gateway, botUserId);
        trace == old(trace) + run.calls && outcome == run.outcome
      // the history store is never touched
      ensures historyProvider.history == old(historyProvider.history)
    {
      if IsBlank(message.text) {
        return Completed;
      }
      var text := message.text.value;

      if Truthy(message.threadTs) {
        trace := trace + [GetThreadMessages(message.channel, message.threadTs.value, TranscriptWindow)];
      } else {
        trace := trace + [GetChannelHistory(message.channel, TranscriptWindow)];
      }
      if gateway.transcript.Throws? {
        return Failed;
      }
      var history := TranscriptToHistory(MessagesOrEmpty(gateway.transcript.value), botUserId);

      trace := trace + [Generate(text, history)];
      if gateway.completion.Throws? {
        return Failed;
      }
      var reply := FormatResponse(gateway.completion.value);

      trace := trace + [SendMessage(message.channel, reply, message.threadTs)];
      outcome := if gateway.sendOk then Completed else Failed;
    }

    /**
     * One inbound event, as the two listeners registered in `start` treat it:
     * at most one of them forwards it, and a handler that returns without
     * throwing adds one to the counter.  Also returns the typing-marker value
     * the safety timer will see.
     */
    method HandleEvent(event: SlackMessageEvent, gateway: Gateway) returns (route: Route, outcome: Option<Outcome>, marker: Option<string>)
      requires Valid()
      modifies this, historyProvider
      ensures Valid()
      ensures route == Classify(event, botUserId)
      ensures route == Dropped <==> outcome.None?
      ensures counter == old(counter) + (if outcome == Some(Completed) then 1 else 0)
      ensures route == Dropped ==>
        trace == old(trace) && historyProvider.history == old(historyProvider.history)
      ensures route == Direct ==>
        var run := DirectRun(event, gateway, Stored(old(historyProvider.history), event.user));
        && trace == old(trace) + run.calls && outcome == Some(run.outcome) && marker == run.marker
        && historyProvider.history
           == DirectHistory(old(historyProvider.history), event, gateway, historyProvider.historySize)
      ensures route == Group ==>
        var run := GroupRun(event, gateway, botUserId);
        && trace == old(trace) + run.calls && outcome == Some(run.outcome) && marker == None
        && historyProvider.history == old(historyProvider.history)
    {
      route := Classify(event, botUserId);
      marker := None;
      match route {
        case Direct =>
          var result;
          result, marker := DirectMessageHandler(event, gateway);
          outcome := Some(result);
        case Group =>
          var result := GroupMessageHandler(event, gateway);
          outcome := Some(result);
        case Dropped =>
          outcome := None;
      }
      if outcome == Some(Completed) {
        counter := counter + 1;
      }
    }
  }
}
