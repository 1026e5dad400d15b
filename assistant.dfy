/** The chat panel beside the converter: an append-only log of messages, an
    input line and a busy flag. A submit is accepted only for non-blank
    input while no answer is awaited; the answer then arrives as the reply
    step. The remote advisory call is outside the model: what it yields
    reaches the panel as a `ServiceReply`. */
module Assistant {
  import opened Wrappers
  import Text

  datatype Role = User | Ai

  datatype Message = Message(role: Role, text: string)

  const Greeting := "Assistant active. How can I assist with your data calibration today?"
  const Apology := "I apologize, but I'm having trouble processing that request right now. Please try again."

  /** What the advisory call yields: the service's text, or a failure that
      the service wrapper catches. */
  datatype ServiceReply = Answered(text: string) | ServiceFailed

  /** The text the service wrapper returns: a caught failure becomes the
      fixed apology, so an answer always arrives. */
  function ReplyText(reply: ServiceReply): (t: string)
    ensures reply.ServiceFailed? ==> t == Apology
    ensures reply.Answered? ==> t == reply.text
  {
    match reply
    case Answered(text) => text
    case ServiceFailed => Apology
  }

  /** The role the message at position `k` of a well-formed log has: the
      greeting first, then questions and answers taking turns. */
  function RoleAt(k: nat): Role {
    if k % 2 == 1 then User else Ai
  }

  /** The log opens with the greeting, and user and assistant messages
      alternate after it. */
  ghost predicate Alternating(log: seq<Message>) {
    && |log| >= 1
    && log[0] == Message(Ai, Greeting)
    && forall k :: 0 <= k < |log| ==> log[k].role == RoleAt(k)
  }

  /** Appending a message whose role is the one due next keeps the log
      alternating. */
  lemma AlternatingAppend(log: seq<Message>, m: Message)
    requires Alternating(log) && m.role == RoleAt(|log|)
    ensures Alternating(log + [m])
  {
    assert (log + [m])[|log|] == m;
  }

  /** While no answer is awaited, the log ends with an assistant message
      and holds an odd number of messages. */
  lemma {:induction false} IdleLogEndsWithAnswer(log: seq<Message>, loading: bool)
    requires Alternating(log) && (loading <==> |log| % 2 == 0)
    ensures !loading ==> |log| % 2 == 1 && log[|log| - 1].role == Ai
    ensures loading ==> log[|log| - 1].role == User
  {
    assert log[|log| - 1].role == RoleAt(|log| - 1);
  }

  class Panel {
    var messages: seq<Message>
    var input: string
    var loading: bool

    /** The loading guard keeps the log alternating: an even length means a
        question is waiting for its answer. */
    ghost predicate Valid()
      reads this
    {
      Alternating(messages) && (loading <==> |messages| % 2 == 0)
    }

    ghost predicate Initial()
      reads this
    {
      messages == [Message(Ai, Greeting)] && input == "" && !loading
    }

    constructor ()
      ensures Valid() && Initial()
    {
      messages := [Message(Ai, Greeting)];
      input := "";
      loading := false;
    }

    /** Typing in the input line. */
    method SetInput(text: string)
      requires Valid()
      modifies this
      ensures Valid()
      ensures input == text && messages == old(messages) && loading == old(loading)
    {
      input := text;
    }

    /** The form's submit handler up to the awaited call. Blank input or a
        pending answer leaves everything as it was; otherwise the trimmed
        input is appended as a user message, the input line is cleared and
        the panel waits. The returned question is what is sent to the
        advisory service. */
    method HandleSubmit() returns (question: Option<string>)
      requires Valid()
      modifies this
      ensures Valid()
      ensures (Text.AllWhitespace(old(input)) || old(loading)) ==> unchanged(this) && question == None
      ensures !(Text.AllWhitespace(old(input)) || old(loading)) ==>
        && question == Some(Text.Trim(old(input)))
        && Text.Trim(old(input)) != ""
        && messages == old(messages) + [Message(User, Text.Trim(old(input)))]
        && input == "" && loading
    {
      var trimmed := Text.Trim(input);
      if trimmed == [] || loading {
        return None;
      }
      IdleLogEndsWithAnswer(messages, loading);
      AlternatingAppend(messages, Message(User, trimmed));
      question := Some(trimmed);
      input := "";
      messages := messages + [Message(User, trimmed)];
      loading := true;
    }

    /** The rest of the submit handler, after the awaited call returns: the
        answer is appended as an assistant message and the panel stops
        waiting. It runs once for each accepted submit. */
    method ReceiveReply(reply: ServiceReply)
      requires Valid() && loading
      modifies this
      ensures Valid()
      ensures messages == old(messages) + [Message(Ai, ReplyText(reply))]
      ensures !loading && input == old(input)
    {
      AlternatingAppend(messages, Message(Ai, ReplyText(reply)));
      messages := messages + [Message(Ai, ReplyText(reply))];
      loading := false;
    }
  }
}
