/** The chat panel with Hope: the conversation, the input line and the history sent along. */
module ChatWithHope {
  import opened Wrappers
  import opened Types
  import opened Text
  import Advisor

  const GreetingText := "Salut ! C'est Hope. Besoin d'aide pour le dîner ou de motivation pour le ménage ?"

  /** How many earlier messages go along with a question. */
  const HistoryLength := 10

  /**
   * `slice(-n)` for a positive `n`: the last `n` elements, or all of them when there are fewer.
   * (`slice(-0)` would give the whole list; the panel only ever asks for ten.)
   */
  function LastN<T>(s: seq<T>, n: nat): (r: seq<T>)
    requires n > 0
    ensures |r| == if |s| < n then |s| else n
    ensures r == s[|s| - |r|..]
  {
    if |s| <= n then s else s[|s| - n..]
  }

  /** Taking the last `n` of a list grown at its end keeps the newest element last. */
  lemma LastNKeepsNewest<T>(s: seq<T>, x: T, n: nat)
    requires n > 0
    ensures LastN(s + [x], n)[|LastN(s + [x], n)| - 1] == x
  {
  }

  /** The id of a message is its creation time in milliseconds, written in decimal. */
  function MessageId(stamp: nat): (id: string)
    ensures id != [] && AllDigits(id)
  {
    NatToString(stamp)
  }

  /** A reply is stamped one millisecond after its own clock reading, so it never takes its question's id. */
  lemma ReplyIdDiffersFromQuestion(sentAt: nat, repliedAt: nat)
    requires sentAt <= repliedAt
    ensures MessageId(repliedAt + 1) != MessageId(sentAt)
  {
    if MessageId(repliedAt + 1) == MessageId(sentAt) {
      NatToStringInjective(repliedAt + 1, sentAt);
    }
  }

  class ChatPanel {
    var messages: seq<ChatMessage>
    var input: string
    var loading: bool

    /** The panel opens on Hope's greeting. */
    constructor (now: int)
      ensures messages == [ChatMessage("init", Model, GreetingText, now)]
      ensures input == "" && !loading
    {
      messages := [ChatMessage("init", Model, GreetingText, now)];
      input := "";
      loading := false;
    }

    method Type(text: string)
      modifies this
      ensures input == text && messages == old(messages) && loading == old(loading)
    {
      input := text;
    }

    /**
     * `handleSend` up to the remote call. A blank input, or a question already on its way, does
     * nothing. Otherwise the question is shown at once, the input is cleared, the panel waits,
     * and `request` carries the last ten messages from before the question together with the
     * question's text.
     */
    method Send(now: nat) returns (request: Option<(seq<ChatMessage>, string)>)
      modifies this
      ensures request.None? <==> IsBlank(old(input)) || old(loading)
      ensures request.None? ==> messages == old(messages) && input == old(input) && loading == old(loading)
      ensures request.Some? ==>
        && messages == old(messages) + [ChatMessage(MessageId(now), User, old(input), now)]
        && input == "" && loading
        && request.value == (LastN(old(messages), HistoryLength), old(input))
      ensures request.Some? ==> |request.value.0| <= HistoryLength && request.value.0 == old(messages)[|old(messages)| - |request.value.0|..]
    {
      TrimEmptyIffBlank(input);
      if Trim(input) == [] || loading {
        return None;
      }
      request := Some((LastN(messages, HistoryLength), input));
      messages := messages + [ChatMessage(MessageId(now), User, input, now)];
      input := "";
      loading := true;
    }

    /**
     * The remote call has ended: Hope's answer (or the service's fallback text) is appended with
     * the id of the clock reading plus one, and the panel stops waiting.
     */
    method Receive(outcome: Advisor.ChatOutcome, now: nat)
      modifies this
      ensures messages == old(messages) + [ChatMessage(MessageId(now + 1), Model, Advisor.ChatReply(outcome), now)]
      ensures messages[|messages| - 1].text != []
      ensures !loading && input == old(input)
    {
      messages := messages + [ChatMessage(MessageId(now + 1), Model, Advisor.ChatReply(outcome), now)];
      loading := false;
    }
  }
}
