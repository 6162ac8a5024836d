/**
 * `chat_step`: one tutoring exchange. The history is a list of
 * (user message, reply) turns; a new turn is appended with a pending reply,
 * the whole conversation is sent to the service, and the pending reply is
 * overwritten with the answer or with the error.
 */
module Chat {
  import opened Text
  import opened Service

  /** The placeholder reply of a turn whose answer has not arrived (app.py:62). */
  const Pending: string := "\U{2026}"

  const TutorPersona: string := "Tu es un tuteur bienveillant qui aide les étudiants à réviser."

  const ChatTemperature: real := 0.5

  datatype Turn = Turn(user: string, reply: string)

  /** The user/assistant messages of every turn, in order (the loop body of app.py:67-69). */
  function TurnMessages(history: seq<Turn>): (m: seq<Message>)
    ensures |m| == 2 * |history|
    ensures forall k :: 0 <= k < |m| ==> m[k].role == (if k % 2 == 0 then User else Assistant)
    decreases |history|
  {
    if |history| == 0 then []
    else
      var last := history[|history| - 1];
      TurnMessages(history[..|history| - 1])
      + [Message(User, last.user), Message(Assistant, last.reply)]
  }

  /** The message list for a new user message after `history`. */
  function Conversation(history: seq<Turn>, userMsg: string): (m: seq<Message>)
    ensures |m| == 2 * |history| + 2
    ensures m[0] == Message(System, TutorPersona) && m[|m| - 1] == Message(User, userMsg)
    ensures forall k :: 1 <= k < |m| - 1 ==> m[k].role != System
  {
    [Message(System, TutorPersona)] + TurnMessages(history) + [Message(User, userMsg)]
  }

  /** The request `chat_step` sends. */
  function ChatRequest(messages: seq<Message>): (q: Request)
    ensures q.model == DefaultModel && q.temperature == ChatTemperature && q.messages == messages
  {
    Request(DefaultModel, messages, ChatTemperature)
  }

  /** The reply that replaces the pending one: the stripped answer or the error text. */
  function Finalize(answer: Completion): (reply: string)
    ensures answer.Completed? ==> |reply| <= |answer.text| && Strip(reply) == reply
    ensures answer.Raised? ==>
              |reply| >= |ErrorPrefix| && reply[..|ErrorPrefix|] == ErrorPrefix && reply[|ErrorPrefix|..] == answer.reason
                && reply != Pending
  {
    match answer
    case Completed(text) => StripIdempotent(text); Strip(text)
    case Raised(reason) => ErrorText(reason)
  }

  /** Each turn contributes its two messages at positions 2i and 2i+1. */
  lemma {:induction false} TurnMessagesShape(history: seq<Turn>)
    ensures |TurnMessages(history)| == 2 * |history|
    ensures forall i :: 0 <= i < |history| ==>
              TurnMessages(history)[2 * i] == Message(User, history[i].user)
              && TurnMessages(history)[2 * i + 1] == Message(Assistant, history[i].reply)
    decreases |history|
  {
    if |history| > 0 {
      var front := history[..|history| - 1];
      TurnMessagesShape(front);
      forall i | 0 <= i < |front| ensures front[i] == history[i] { }
    }
  }

  /**
   * For N prior turns the conversation has 2N+2 messages: the tutor persona,
   * each turn's user message then reply in insertion order, and the new message.
   */
  lemma ConversationShape(history: seq<Turn>, userMsg: string)
    ensures var m := Conversation(history, userMsg);
            |m| == 2 * |history| + 2
            && m[0] == Message(System, TutorPersona)
            && (forall i :: 0 <= i < |history| ==>
                  m[2 * i + 1] == Message(User, history[i].user)
                  && m[2 * i + 2] == Message(Assistant, history[i].reply))
            && m[|m| - 1] == Message(User, userMsg)
  {
    TurnMessagesShape(history);
    var m := Conversation(history, userMsg);
    var t := TurnMessages(history);
    forall i | 0 <= i < |history|
      ensures m[2 * i + 1] == t[2 * i] && m[2 * i + 2] == t[2 * i + 1]
    { }
  }

  /**
   * An answered call's reply is the answer with whitespace cut from both ends
   * and nothing else: it sits in the answer at offset `k` between two
   * whitespace-only runs and neither starts nor ends with whitespace.
   */
  lemma FinalizeAnswer(text: string) returns (k: nat)
    ensures k + |Finalize(Completed(text))| <= |text|
    ensures text[k..k + |Finalize(Completed(text))|] == Finalize(Completed(text))
    ensures IsBlank(text[..k]) && IsBlank(text[k + |Finalize(Completed(text))|..])
    ensures Finalize(Completed(text)) == []
            || (!IsSpace(Finalize(Completed(text))[0])
                && !IsSpace(Finalize(Completed(text))[|Finalize(Completed(text))| - 1]))
  {
    var reply := Finalize(Completed(text));
    assert reply == Strip(text);
    k := StripDecompose(text);
  }

  /**
   * An error always overwrites the pending reply; the reply can only equal the
   * pending mark if the service itself answered that mark, up to whitespace.
   */
  lemma FinalizedReply(answer: Completion)
    ensures Finalize(answer) == Pending ==> answer.Completed? && Strip(answer.text) == Pending
    ensures answer.Raised? ==> Finalize(answer) != Pending
  {
    if answer.Raised? {
      assert |Finalize(answer)| > |Pending|;
    }
  }

  /** The `for` loop of app.py:66-71 that assembles the message list. */
  method BuildMessages(history: seq<Turn>, userMsg: string) returns (messages: seq<Message>)
    ensures messages == Conversation(history, userMsg)
  {
    messages := [Message(System, TutorPersona)];
    var i := 0;
    while i < |history|
      invariant 0 <= i <= |history|
      invariant messages == [Message(System, TutorPersona)] + TurnMessages(history[..i])
    {
      assert history[..i + 1][..i] == history[..i];
      messages := messages + [Message(User, history[i].user)];
      messages := messages + [Message(Assistant, history[i].reply)];
      i := i + 1;
    }
    assert history[..i] == history;
    messages := messages + [Message(User, userMsg)];
  }

  /**
   * `chat_step(history, user_msg)`, with `service` standing for the
   * chat-completions call. It returns the new history and the cleared input.
   */
  method ChatStep(history: seq<Turn>, userMsg: string, service: Request -> Completion)
    returns (newHistory: seq<Turn>, cleared: string)
    ensures cleared == ""
    ensures IsBlank(userMsg) ==> newHistory == history
    ensures !IsBlank(userMsg) ==>
              |newHistory| == |history| + 1
              && newHistory[..|history|] == history
              && newHistory[|history|].user == userMsg
              && newHistory[|history|].reply
                 == Finalize(service(ChatRequest(Conversation(history, userMsg))))
  {
    BlankIffStripEmpty(userMsg);
    if userMsg == "" || Strip(userMsg) == "" {
      return history, "";
    }
    var turns := history + [Turn(userMsg, Pending)];
    var messages := BuildMessages(turns[..|turns| - 1], userMsg);
    assert turns[..|turns| - 1] == history;
    var answer := service(ChatRequest(messages));
    // The in-place overwrite of the last turn's reply (app.py:79, 81).
    turns := turns[|turns| - 1 := Turn(turns[|turns| - 1].user, Finalize(answer))];
    return turns, "";
  }
}
