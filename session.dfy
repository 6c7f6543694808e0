/** The agent (`Rai`) and the conversation it owns. Every call renders the
    transcript, lets the language model continue it, and appends the reply
    the stop-sequence matcher assembles. The language model is a parameter:
    a function from the prompt to the stream of inference events it yields
    for that call (sampling randomness included). */
module Session {
  import opened StopMatcher
  import opened Transcript

  /** The purpose `Rai::default` starts from. */
  const DefaultPurpose := "Your purpose is to assist in answering Human."

  /** Replies and typed messages alternate, starting with a reply: the
      message at position i was typed by the person exactly when i is odd. */
  ghost predicate Alternating(ms: seq<Message>) {
    forall i :: 0 <= i < |ms| ==> ms[i].user == (i % 2 == 1)
  }

  /** The reply appended after rendering `ms`: the matcher's output for the
      stream the model yields, with the human's name as the stop sequence. */
  function AgentReply(generate: string -> seq<Event>, purpose: string, ms: seq<Message>): Message {
    Message(false, ReplyText(UserName, generate(PromptText(purpose, ms))))
  }

  /** The shape of an agent's conversation: the opening reply, then one
      typed message and one reply per turn, the typed messages being `said`
      in order. */
  ghost predicate Shaped(ms: seq<Message>, said: seq<string>) {
    && |ms| == 2 * |said| + 1
    && Alternating(ms)
    && forall k :: 0 <= k < |said| ==> ms[2 * k + 1].text == said[k]
  }

  /** A typed message followed by a reply extends the shape by one turn. */
  lemma TurnKeepsShape(ms: seq<Message>, said: seq<string>, text: string, reply: Message)
    requires Shaped(ms, said) && !reply.user
    ensures Shaped(ms + [Message(true, text), reply], said + [text])
  {
    var ms', said' := ms + [Message(true, text), reply], said + [text];
    forall i | 0 <= i < |ms'|
      ensures ms'[i].user == (i % 2 == 1)
    {
      if i < |ms| {
        assert ms'[i] == ms[i];
      }
    }
    forall k | 0 <= k < |said'|
      ensures ms'[2 * k + 1].text == said'[k]
    {
      if k < |said| {
        assert ms'[2 * k + 1] == ms[2 * k + 1];
      }
    }
  }

  /** The conversation: messages are only ever appended. */
  class Conversation {
    var messages: seq<Message>

    constructor ()
      ensures messages == []
    {
      messages := [];
    }
  }

  /** The agent: a fixed purpose and the conversation it owns. The loaded
      language model handle is not part of this model. */
  class Rai {
    const purpose: string
    const conversation: Conversation
    /** What the person typed, in call order. */
    ghost var said: seq<string>

    /** The conversation has the shape of `said`. */
    ghost predicate Valid()
      reads this, conversation
    {
      Shaped(conversation.messages, said)
    }

    /** A new agent: an empty conversation, then one reply to the bare
        purpose. */
    constructor FromPurpose(purpose: string, generate: string -> seq<Event>)
      ensures this.purpose == purpose && fresh(conversation)
      ensures conversation.messages == [AgentReply(generate, purpose, [])]
      ensures said == [] && Valid()
    {
      this.purpose := purpose;
      conversation := new Conversation();
      said := [];
      new;
      Recompute(generate);
    }

    /** `FromPurpose` with the default purpose. */
    constructor Default(generate: string -> seq<Event>)
      ensures purpose == DefaultPurpose && fresh(conversation)
      ensures conversation.messages == [AgentReply(generate, DefaultPurpose, [])]
      ensures said == [] && Valid()
    {
      purpose := DefaultPurpose;
      conversation := new Conversation();
      said := [];
      new;
      Recompute(generate);
    }

    /** One turn: record what the person typed, then reply to it. Earlier
        messages are left as they were, and a conversation of the agent's
        shape keeps it. */
    method Prompt(text: string, generate: string -> seq<Event>)
      modifies this, conversation
      ensures said == old(said) + [text]
      ensures old(Valid()) ==> Valid()
      ensures var asked := old(conversation.messages) + [Message(true, text)];
              conversation.messages == asked + [AgentReply(generate, purpose, asked)]
    {
      ghost var before := conversation.messages;
      conversation.messages := conversation.messages + [Message(true, text)];
      ghost var asked := conversation.messages;
      Recompute(generate);
      ghost var reply := AgentReply(generate, purpose, asked);
      assert conversation.messages == before + [Message(true, text), reply];
      if Shaped(before, said) {
        TurnKeepsShape(before, said, text, reply);
      }
      said := said + [text];
    }

    /** Render the transcript, let the model continue it, and append the
        assembled reply as a message not typed by the person. */
    method Recompute(generate: string -> seq<Event>)
      modifies conversation
      ensures conversation.messages
              == old(conversation.messages) + [AgentReply(generate, purpose, old(conversation.messages))]
    {
      var history := RenderHistory(purpose, conversation.messages);
      var prompt := Persona + "\n" + history + "\n" + CharacterLabel;
      var res := AssembleReply(UserName, generate(prompt));
      conversation.messages := conversation.messages + [Message(false, res)];
    }
  }
}
