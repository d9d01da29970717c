/**
 * The decisions the Slack client makes on its own: which inbound message
 * events reach the direct-message handler and which the group handler, and
 * the defaults it substitutes for missing fields of Slack's replies.  The
 * Slack connection and its API calls are not part of this model.
 */
module SlackClient {
  import opened Wrappers
  import opened Text

  /** The fields of an inbound message event that the bot reads. */
  datatype SlackMessageEvent = SlackMessageEvent(
    channel: string,
    user: string,
    text: Option<string>,
    threadTs: Option<string>,
    channelType: string,
    subtype: Option<string>)

  /** One entry of a channel or thread transcript. */
  datatype SlackMessage = SlackMessage(user: Option<string>, text: Option<string>)

  /** JavaScript truthiness of an optional string: present and non-empty. */
  predicate Truthy(s: Option<string>)
  {
    s.Some? && s.value != ""
  }

  /** Edits, deletions, bot posts and the bot's own messages are dropped by both listeners. */
  predicate IsIgnored(event: SlackMessageEvent, botUserId: Option<string>)
  {
    || event.subtype == Some("bot_message")
    || event.subtype == Some("message_changed")
    || event.subtype == Some("message_deleted")
    || Some(event.user) == botUserId
  }

  /** The mention the group listener looks for; a template literal spells an absent id "undefined". */
  function MentionToken(botUserId: Option<string>): string
  {
    "<@" + botUserId.GetOr("undefined") + ">"
  }

  /** The condition under which the direct-message listener calls its handler. */
  predicate ForwardsToDirect(event: SlackMessageEvent, botUserId: Option<string>)
  {
    !IsIgnored(event, botUserId) && event.channelType == "im" && Truthy(event.text)
  }

  /** The condition under which the group listener calls its handler. */
  predicate ForwardsToGroup(event: SlackMessageEvent, botUserId: Option<string>)
  {
    && !IsIgnored(event, botUserId)
    && event.channelType == "group"
    && Truthy(event.text)
    && Contains(event.text.value, MentionToken(botUserId))
  }

  datatype Route = Direct | Group | Dropped

  /**
   * Which handler an event reaches.  Both listeners see every event; the
   * route is Direct or Group exactly when that listener forwards it, so the
   * two listeners never both fire.
   */
  function Classify(event: SlackMessageEvent, botUserId: Option<string>): (route: Route)
    ensures route == Direct <==> ForwardsToDirect(event, botUserId)
    ensures route == Group <==> ForwardsToGroup(event, botUserId)
    ensures route == Dropped <==> !ForwardsToDirect(event, botUserId) && !ForwardsToGroup(event, botUserId)
  {
    if IsIgnored(event, botUserId) || !Truthy(event.text) then Dropped
    else if event.channelType == "im" then Direct
    else if event.channelType == "group" && Contains(event.text.value, MentionToken(botUserId)) then Group
    else Dropped
  }

  /** No event satisfies both listeners. */
  lemma ListenersAreExclusive(event: SlackMessageEvent, botUserId: Option<string>)
    ensures !(ForwardsToDirect(event, botUserId) && ForwardsToGroup(event, botUserId))
  {
  }

  /** System subtypes and the bot's own messages reach no handler. */
  lemma IgnoredEventsAreDropped(event: SlackMessageEvent, botUserId: Option<string>)
    requires IsIgnored(event, botUserId)
    ensures Classify(event, botUserId) == Dropped
  {
  }

  /**
   * The listener tests the text for emptiness without trimming it, so any
   * non-empty direct message of white space alone is forwarded, although it
   * trims to the empty string.
   */
  lemma WhiteSpaceTextIsForwarded(event: SlackMessageEvent, botUserId: Option<string>)
    requires !IsIgnored(event, botUserId) && event.channelType == "im"
    requires Truthy(event.text) && AllSpace(event.text.value)
    ensures Classify(event, botUserId) == Direct
    ensures Trim(event.text.value) == ""
  {
    AllSpaceIffTrimEmpty(event.text.value);
  }

  /** `sendTypingIndicator`'s result: the posted message's `ts`, or "" when Slack gave none. */
  function TypingIndicatorTs(ts: Option<string>): (marker: string)
    ensures ts.Some? ==> marker == ts.value
    ensures marker == "" <==> !Truthy(ts)
  {
    ts.GetOr("")
  }

  /** `getChannelHistory` and `getThreadMessages`: the reply's `messages`, or none when absent. */
  function MessagesOrEmpty(messages: Option<seq<SlackMessage>>): (transcript: seq<SlackMessage>)
    ensures messages.Some? ==> transcript == messages.value
    ensures messages.None? ==> transcript == []
  {
    if messages.None? then [] else messages.value
  }
}
