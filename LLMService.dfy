/**
 * The pure parts of the language-model service: the chat message type, the
 * request's message list and the removal of a reasoning preamble that ends
 * in a `</think>` tag.  The HTTP exchange itself is not part of this model.
 */
module LLMService {
  import opened Wrappers
  import opened Text

  datatype Role = User | Assistant

  /** One chat turn as sent to the model and kept in the history store. */
  datatype LLMMessage = LLMMessage(role: Role, content: string)

  /** The tag that closes the model's reasoning. */
  const ThinkClose := "</think>"

  /** Stripping applies only when the closing tag stands on a line of its own. */
  const ThinkMarker := "\n</think>\n"

  lemma MarkerHoldsClose(s: string)
    requires Contains(s, ThinkMarker)
    ensures Contains(s, ThinkClose)
  {
    var i :| 0 <= i <= |s| && OccursAt(s, ThinkMarker, i);
    forall m | 0 <= m < |ThinkClose|
      ensures s[i + 1 + m] == ThinkClose[m]
    {
      assert s[i + 1 + m] == s[i..i + |ThinkMarker|][1 + m];
    }
    assert OccursAt(s, ThinkClose, i + 1);
  }

  /**
   * The post-processing `generate` applies to the reply content: when the
   * content holds the marker, the reply is the second `</think>`-separated
   * piece, trimmed; otherwise the content is returned as it is.
   */
  function StripThink(content: string): (reply: string)
    ensures !Contains(content, ThinkMarker) ==> reply == content
    ensures Contains(content, ThinkMarker) && reply != [] ==>
      !IsJsSpace(reply[0]) && !IsJsSpace(reply[|reply| - 1])
  {
    if Contains(content, ThinkMarker) then
      MarkerHoldsClose(content);
      SplitCuts(content, ThinkClose);
      Trim(Split(content, ThinkClose)[1])
    else
      content
  }

  /**
   * When the marker is present the reply is the trimmed text between the
   * first `</think>` (at `first`) and the next one (at `next`), or the end of
   * the content when there is no next one.
   */
  lemma StripThinkTakesSecondPiece(content: string) returns (first: nat, next: nat)
    requires Contains(content, ThinkMarker)
    ensures OccursAt(content, ThinkClose, first)
    ensures forall k :: 0 <= k < first ==> !OccursAt(content, ThinkClose, k)
    ensures first + |ThinkClose| <= next <= |content|
    ensures next == |content| || OccursAt(content, ThinkClose, next)
    ensures forall k :: first + |ThinkClose| <= k < next ==> !OccursAt(content, ThinkClose, k)
    ensures StripThink(content) == Trim(content[first + |ThinkClose|..next])
  {
    MarkerHoldsClose(content);
    ContainsIndexOf(content, ThinkClose);
    first := IndexOf(content, ThinkClose, 0).value;
    var piece;
    next, piece := SecondPiece(content, ThinkClose, first);
  }

  /** The piece after the first separator, located in the whole string. */
  lemma SecondPiece(s: string, sep: string, first: nat) returns (next: nat, piece: string)
    requires |sep| > 0 && IndexOf(s, sep, 0) == Some(first)
    ensures |Split(s, sep)| >= 2 && Split(s, sep)[1] == piece
    ensures first + |sep| <= next <= |s| && piece == s[first + |sep|..next]
    ensures next == |s| || OccursAt(s, sep, next)
    ensures forall k :: first + |sep| <= k < next ==> !OccursAt(s, sep, k)
  {
    var d := first + |sep|;
    SplitSecondPiece(s, sep, first);
    var end := FirstPieceEnd(s[d..], sep);
    piece := Split(s[d..], sep)[0];
    next := d + end;
    assert s[d..][..end] == s[d..next];
    if end < |s| - d {
      assert OccursAt(s[d..], sep, end);
      OccursShift(s, sep, d, end);
      assert OccursAt(s, sep, next);
    }
    NoneBefore(s, sep, d, next);
  }

  /** No occurrence in `s` from `d` up to `next` when the suffix at `d` has none before `next - d`. */
  lemma NoneBefore(s: string, sep: string, d: nat, next: nat)
    requires d <= next <= |s|
    requires forall k :: 0 <= k < next - d ==> !OccursAt(s[d..], sep, k)
    ensures forall k :: d <= k < next ==> !OccursAt(s, sep, k)
  {
    forall k | d <= k < next ensures !OccursAt(s, sep, k) {
      OccursShift(s, sep, d, k - d);
    }
  }

  /** The `messages` array of the request body: the context, then the prompt as a user turn. */
  function RequestMessages(prompt: string, context: seq<LLMMessage>): (messages: seq<LLMMessage>)
    ensures |messages| == |context| + 1
    ensures messages[..|context|] == context
    ensures messages[|context|] == LLMMessage(User, prompt)
  {
    context + [LLMMessage(User, prompt)]
  }
}
