/**
 * The in-memory conversation store: for each user id, the user's recent chat
 * turns, oldest first, never more than `historySize` of them.
 */
module HistoryProvider {
  import opened LLMService

  /** How many turns a buffer can hold: `historySize`, or none when it is not positive. */
  function Capacity(historySize: int): nat
  {
    if historySize < 0 then 0 else historySize
  }

  /**
   * What `splice(0, length - historySize)` leaves of an over-long buffer; a
   * buffer within the limit is left alone.  `splice` deletes at most the
   * whole array, so a negative `historySize` empties it.
   */
  function Evict(buffer: seq<LLMMessage>, historySize: int): (kept: seq<LLMMessage>)
    ensures |kept| == if |buffer| <= Capacity(historySize) then |buffer| else Capacity(historySize)
    ensures kept == buffer[|buffer| - |kept|..]
  {
    if |buffer| > historySize then
      var deleteCount := |buffer| - historySize;
      buffer[if deleteCount < |buffer| then deleteCount else |buffer|..]
    else
      buffer
  }

  /** The buffer `pushHistory` leaves: `message` appended, then the oldest entries evicted. */
  function Pushed(buffer: seq<LLMMessage>, message: LLMMessage, historySize: int): seq<LLMMessage>
  {
    Evict(buffer + [message], historySize)
  }

  /** The stored buffer for `slackId`, or the empty one `getHistory` would insert. */
  function Stored(history: map<string, seq<LLMMessage>>, slackId: string): seq<LLMMessage>
  {
    if slackId in history then history[slackId] else []
  }

  /** A push never leaves more than `historySize` entries. */
  lemma PushedIsBounded(buffer: seq<LLMMessage>, message: LLMMessage, historySize: int)
    ensures |Pushed(buffer, message, historySize)| <= Capacity(historySize)
    ensures historySize >= 0 ==> |Pushed(buffer, message, historySize)| <= historySize
  {
  }

  /** Below capacity nothing is dropped: the message is simply appended. */
  lemma PushBelowCapacity(buffer: seq<LLMMessage>, message: LLMMessage, historySize: int)
    requires |buffer| < historySize
    ensures Pushed(buffer, message, historySize) == buffer + [message]
  {
  }

  /** The newest message is always kept, last, when there is room for anything. */
  lemma PushKeepsNewest(buffer: seq<LLMMessage>, message: LLMMessage, historySize: int)
    requires historySize > 0
    ensures var b := Pushed(buffer, message, historySize); |b| > 0 && b[|b| - 1] == message
  {
  }

  /** Evicting early changes nothing: only the last `historySize` entries ever survive. */
  lemma EvictThenAppend(buffer: seq<LLMMessage>, more: seq<LLMMessage>, historySize: int)
    ensures Evict(Evict(buffer, historySize) + more, historySize) == Evict(buffer + more, historySize)
  {
    var c := Capacity(historySize);
    var kept := Evict(buffer, historySize);
    if |buffer| <= c {
      assert kept == buffer;
    } else {
      var all := buffer + more;
      assert |kept| == c;
      assert kept + more == all[|buffer| - c..];
      assert Evict(kept + more, historySize) == (kept + more)[|more|..];
      assert Evict(all, historySize) == all[|all| - c..];
      assert all[|buffer| - c..][|more|..] == all[|all| - c..];
    }
  }

  /** Pushes, one message after the other, as the store receives them. */
  function PushAll(buffer: seq<LLMMessage>, messages: seq<LLMMessage>, historySize: int): seq<LLMMessage>
    decreases |messages|
  {
    if messages == [] then buffer
    else PushAll(Pushed(buffer, messages[0], historySize), messages[1..], historySize)
  }

  /**
   * After any sequence of pushes into a buffer within its capacity, the
   * buffer holds exactly the most recent `historySize` entries of the old
   * buffer followed by the pushed messages, oldest first.
   */
  lemma {:induction false} PushAllKeepsMostRecent(buffer: seq<LLMMessage>, messages: seq<LLMMessage>, historySize: int)
    requires |buffer| <= Capacity(historySize)
    ensures PushAll(buffer, messages, historySize) == Evict(buffer + messages, historySize)
    decreases |messages|
  {
    if messages == [] {
      assert buffer + messages == buffer;
    } else {
      PushAllKeepsMostRecent(Pushed(buffer, messages[0], historySize), messages[1..], historySize);
      PushThenEvict(buffer, messages, historySize);
    }
  }

  /** One push, then evicting with the remaining messages appended, is one eviction of everything. */
  lemma PushThenEvict(buffer: seq<LLMMessage>, messages: seq<LLMMessage>, historySize: int)
    requires messages != []
    ensures Evict(Pushed(buffer, messages[0], historySize) + messages[1..], historySize)
         == Evict(buffer + messages, historySize)
  {
    EvictThenAppend(buffer + [messages[0]], messages[1..], historySize);
    assert buffer + [messages[0]] + messages[1..] == buffer + messages;
  }

  /**
   * The two pushes of a direct-message turn, user then assistant, keep the
   * last `historySize` entries of the old buffer followed by the pair.
   */
  lemma PushPair(buffer: seq<LLMMessage>, first: LLMMessage, second: LLMMessage, historySize: int)
    ensures Pushed(Pushed(buffer, first, historySize), second, historySize)
         == Evict(buffer + [first, second], historySize)
  {
    EvictThenAppend(buffer + [first], [second], historySize);
    assert buffer + [first] + [second] == buffer + [first, second];
  }

  /** A second update of the same key overrides the first. */
  lemma UpdateTwice(history: map<string, seq<LLMMessage>>, slackId: string, first: seq<LLMMessage>, second: seq<LLMMessage>)
    ensures history[slackId := first][slackId := second] == history[slackId := second]
  {
  }

  /** Recording an exchange after `getHistory` inserted the empty buffer is the same as recording it at once. */
  lemma ReadThenRecord(history: map<string, seq<LLMMessage>>, slackId: string, exchange: seq<LLMMessage>, historySize: int)
    ensures var read := history[slackId := Stored(history, slackId)];
      read[slackId := Evict(Stored(read, slackId) + exchange, historySize)]
        == history[slackId := Evict(Stored(history, slackId) + exchange, historySize)]
  {
    var read := history[slackId := Stored(history, slackId)];
    assert Stored(read, slackId) == Stored(history, slackId);
    UpdateTwice(history, slackId, Stored(history, slackId), Evict(Stored(history, slackId) + exchange, historySize));
  }

  /** The store behind `getHistory` and `pushHistory`. */
  class MemoryHistoryProvider {
    /** The buffer of each user id the store has seen. */
    var history: map<string, seq<LLMMessage>>
    const historySize: int

    /** Every buffer is within capacity. */
    ghost predicate Valid()
      reads this
    {
      forall id :: id in history ==> |history[id]| <= Capacity(historySize)
    }

    constructor (historySize: int)
      ensures Valid()
      ensures this.historySize == historySize && history == map[]
    {
      this.historySize := historySize;
      history := map[];
    }

    /** `getHistory`: the user's buffer, after inserting an empty one for an unseen id. */
    method GetHistory(slackId: string) returns (messages: seq<LLMMessage>)
      requires Valid()
      modifies this
      ensures Valid()
      ensures history == old(history)[slackId := Stored(old(history), slackId)]
      ensures messages == Stored(old(history), slackId)
    {
      if slackId !in history {
        history := history[slackId := []];
      }
      messages := history[slackId];
    }

    /**
     * `pushHistory`: append `message` to the user's buffer, then cut the
     * oldest entries so that at most `historySize` remain.  Other users'
     * buffers are untouched.
     */
    method PushHistory(slackId: string, message: LLMMessage)
      requires Valid()
      modifies this
      ensures Valid()
      ensures history == old(history)[slackId := Pushed(Stored(old(history), slackId), message, historySize)]
      ensures |history[slackId]| <= Capacity(historySize)
    {
      var messages := GetHistory(slackId);
      messages := messages + [message];
      if |messages| > historySize {
        var deleteCount := |messages| - historySize;
        // splice deletes no more than the array holds
        messages := messages[if deleteCount < |messages| then deleteCount else |messages|..];
      }
      history := history[slackId := messages];
    }
  }
}
