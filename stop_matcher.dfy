/** The streaming stop-sequence matcher of `inference_callback`.
    The callback is a closure over two strings owned by its caller: `buf`,
    the text held back because it may still turn into the stop sequence,
    and `out`, the reply assembled so far. It is invoked once per event of
    the inference stream and answers Halt or Continue. */
module StopMatcher {

  /** One event of the inference stream. `Other` stands for every response
      the callback does not inspect (its text is ignored). */
  datatype Event = InferredToken(token: string) | EotToken | Other(text: string)

  /** What the callback tells the inference loop. It never fails. */
  datatype Feedback = Continue | Halt

  /** The two strings the callback updates in place. */
  datatype MatchState = MatchState(buf: string, out: string)

  /** The answer of one step together with the state it leaves behind. */
  datatype Stepped = Stepped(feedback: Feedback, state: MatchState)

  /** The state a reply starts from: both strings freshly created. */
  const Idle := MatchState([], [])

  /** The held-back text is empty or a proper prefix of the stop sequence. */
  predicate PendingOk(stop: string, buf: string) {
    buf == [] || buf < stop
  }

  /** One invocation of the callback, as written: on divergence the held-back
      text is emitted with the token but is not cleared. */
  function Next(stop: string, s: MatchState, e: Event): (r: Stepped)
    ensures r.feedback == Halt <==> e.EotToken? || (e.InferredToken? && s.buf + e.token == stop)
  {
    match e
    case InferredToken(t) =>
      var candidate := s.buf + t;
      if stop == candidate then Stepped(Halt, MatchState([], s.out))
      else if candidate <= stop then Stepped(Continue, MatchState(s.buf + t, s.out))
      else if s.buf == [] then Stepped(Continue, MatchState(s.buf, s.out + t))
      else Stepped(Continue, MatchState(s.buf, s.out + candidate))
    case EotToken => Stepped(Halt, s)
    case Other(_) => Stepped(Continue, s)
  }

  /** The inference loop: events are fed in order until one step answers
      Halt; if the stream runs out first the last answer is Continue. */
  function Run(stop: string, s: MatchState, events: seq<Event>): (r: Stepped)
    ensures r.feedback == Continue ==> forall i :: 0 <= i < |events| ==> !events[i].EotToken?
    decreases |events|
  {
    if events == [] then Stepped(Continue, s)
    else
      var n := Next(stop, s, events[0]);
      if n.feedback == Halt then n else Run(stop, n.state, events[1..])
  }

  /** The reply assembled from a stream, starting from empty strings. */
  function ReplyText(stop: string, events: seq<Event>): string {
    Run(stop, Idle, events).state.out
  }

  /** A stream made only of inferred tokens. */
  function Tokens(chunks: seq<string>): (r: seq<Event>)
    ensures |r| == |chunks|
  {
    if chunks == [] then [] else [InferredToken(chunks[0])] + Tokens(chunks[1..])
  }

  /** The chunks joined in order. */
  function Concat(chunks: seq<string>): string {
    if chunks == [] then [] else chunks[0] + Concat(chunks[1..])
  }

  /** The callback's state as an object: `stop` is captured by value,
      `buf` and `out` are updated by every call. */
  class Matcher {
    const stop: string
    var buf: string
    var out: string

    constructor (stop: string)
      ensures this.stop == stop && buf == [] && out == []
    {
      this.stop := stop;
      buf := [];
      out := [];
    }

    function State(): MatchState
      reads this
    {
      MatchState(buf, out)
    }

    ghost predicate Valid()
      reads this
    {
      PendingOk(stop, buf)
    }

    /** One call of the callback with one inference event. */
    method Step(e: Event) returns (f: Feedback)
      modifies this
      ensures Stepped(f, State()) == Next(stop, old(State()), e)
      ensures old(Valid()) ==> Valid()
    {
      match e
      case InferredToken(t) =>
        var candidate := buf + t;
        if stop == candidate {
          buf := [];
          return Halt;
        } else if candidate <= stop {
          buf := buf + t;
          return Continue;
        }
        if buf == [] {
          out := out + t;
        } else {
          out := out + candidate;
        }
        f := Continue;
      case EotToken =>
        f := Halt;
      case Other(_) =>
        f := Continue;
    }
  }

  /** Drives a fresh matcher over a stream until it halts and returns the
      assembled reply; the held-back text left at the end is discarded. */
  method AssembleReply(stop: string, events: seq<Event>) returns (reply: string)
    ensures reply == ReplyText(stop, events)
  {
    var m := new Matcher(stop);
    var i := 0;
    var halted := false;
    while i < |events| && !halted
      invariant 0 <= i <= |events|
      invariant m.stop == stop
      invariant Run(stop, Idle, events)
                == if halted then Stepped(Halt, m.State()) else Run(stop, m.State(), events[i..])
    {
      assert events[i..][0] == events[i] && events[i..][1..] == events[i + 1..];
      var f := m.Step(events[i]);
      halted := f == Halt;
      i := i + 1;
    }
    reply := m.out;
  }

  // ---------------------------------------------------------------------
  // One step

  /** The candidate is exactly the stop sequence: halt, drop the held-back
      text, leave the reply as it was. */
  lemma NextExactMatch(stop: string, s: MatchState, t: string)
    requires s.buf + t == stop
    ensures Next(stop, s, InferredToken(t)) == Stepped(Halt, MatchState([], s.out))
  {
  }

  /** The candidate is a proper prefix of the stop sequence: hold the token
      back, leave the reply as it was. */
  lemma NextPartialMatch(stop: string, s: MatchState, t: string)
    requires s.buf + t < stop
    ensures Next(stop, s, InferredToken(t)) == Stepped(Continue, MatchState(s.buf + t, s.out))
  {
  }

  /** The candidate is no prefix of the stop sequence: the held-back text and
      the token are both emitted (when nothing is held back, just the token),
      and the held-back text stays where it was. */
  lemma NextDivergence(stop: string, s: MatchState, t: string)
    requires !(s.buf + t <= stop)
    ensures Next(stop, s, InferredToken(t)) == Stepped(Continue, MatchState(s.buf, s.out + s.buf + t))
  {
  }

  /** End of text halts without emitting the held-back text; every other
      response is ignored. */
  lemma NextOtherEvents(stop: string, s: MatchState, text: string)
    ensures Next(stop, s, EotToken) == Stepped(Halt, s)
    ensures Next(stop, s, Other(text)) == Stepped(Continue, s)
  {
  }

  /** A step keeps the held-back text empty or a proper prefix of the stop. */
  lemma NextKeepsPending(stop: string, s: MatchState, e: Event)
    requires PendingOk(stop, s.buf)
    ensures PendingOk(stop, Next(stop, s, e).state.buf)
  {
  }

  /** A step only appends to the reply. */
  lemma NextExtendsOutput(stop: string, s: MatchState, e: Event)
    ensures s.out <= Next(stop, s, e).state.out
  {
  }

  // ---------------------------------------------------------------------
  // Whole streams

  /** Starting from a well-formed state, every run ends in one. */
  lemma {:induction false} RunKeepsPending(stop: string, s: MatchState, events: seq<Event>)
    requires PendingOk(stop, s.buf)
    ensures PendingOk(stop, Run(stop, s, events).state.buf)
    decreases |events|
  {
    if events != [] {
      NextKeepsPending(stop, s, events[0]);
      var n := Next(stop, s, events[0]);
      if n.feedback != Halt {
        RunKeepsPending(stop, n.state, events[1..]);
      }
    }
  }

  /** The reply is append-only: what was emitted is never rewritten. */
  lemma {:induction false} RunExtendsOutput(stop: string, s: MatchState, events: seq<Event>)
    ensures s.out <= Run(stop, s, events).state.out
    decreases |events|
  {
    if events != [] {
      NextExtendsOutput(stop, s, events[0]);
      var n := Next(stop, s, events[0]);
      if n.feedback != Halt {
        RunExtendsOutput(stop, n.state, events[1..]);
      }
    }
  }

  /** When no chunk is a prefix of the stop sequence (nor equal to it), nothing
      is ever held back and every chunk is passed through in order. */
  lemma {:induction false} RunPassThrough(stop: string, out: string, chunks: seq<string>)
    requires forall i :: 0 <= i < |chunks| ==> !(chunks[i] <= stop)
    ensures Run(stop, MatchState([], out), Tokens(chunks))
            == Stepped(Continue, MatchState([], out + Concat(chunks)))
    decreases |chunks|
  {
    if chunks != [] {
      var events := Tokens(chunks);
      assert events[0] == InferredToken(chunks[0]) && events[1..] == Tokens(chunks[1..]);
      assert [] + chunks[0] == chunks[0];
      RunPassThrough(stop, out + chunks[0], chunks[1..]);
      assert out + chunks[0] + Concat(chunks[1..]) == out + Concat(chunks);
    }
  }

  /** A stop sequence split across any number of chunks (after whatever is
      already held back) halts the stream at its last piece, emits nothing
      and clears the held-back text. */
  lemma {:induction false} RunSplitMarker(stop: string, s: MatchState, chunks: seq<string>)
    requires |chunks| > 0
    requires s.buf + Concat(chunks) == stop
    ensures Run(stop, s, Tokens(chunks)) == Stepped(Halt, MatchState([], s.out))
    decreases |chunks|
  {
    var events := Tokens(chunks);
    assert events[0] == InferredToken(chunks[0]) && events[1..] == Tokens(chunks[1..]);
    var candidate := s.buf + chunks[0];
    assert stop == candidate + Concat(chunks[1..]);
    if candidate != stop {
      assert candidate <= stop;
      if chunks[1..] == [] {
        assert false;
      }
      RunSplitMarker(stop, MatchState(candidate, s.out), chunks[1..]);
    }
  }

  // ---------------------------------------------------------------------
  // Concrete streams, with the stop sequence the session uses ("Human")

  /** The chunks "Hu", "man", ":" halt with an empty reply: at "man" with
      the session's stop sequence, at ":" with "Human:". */
  lemma SplitMarkerExample()
    ensures Run("Human", Idle, Tokens(["Hu", "man", ":"])) == Stepped(Halt, Idle)
    ensures Run("Human:", Idle, Tokens(["Hu", "man", ":"])) == Stepped(Halt, Idle)
  {
    var chunks, head := ["Hu", "man", ":"], ["Hu", "man"];
    assert Concat(chunks) == "Human:";
    RunSplitMarker("Human:", Idle, chunks);
    assert Concat(head) == "Human";
    RunSplitMarker("Human", Idle, head);
    assert Tokens(chunks) == [InferredToken("Hu"), InferredToken("man"), InferredToken(":")];
    assert Tokens(head) == [InferredToken("Hu"), InferredToken("man")];
  }

  /** A partial match followed by divergence emits both chunks but keeps the
      stale "Hu" held back ... */
  lemma DivergenceExample()
    ensures Run("Human", Idle, Tokens(["Hu", "go"])) == Stepped(Continue, MatchState("Hu", "Hugo"))
  {
    assert Tokens(["Hu", "go"]) == [InferredToken("Hu"), InferredToken("go")];
    assert "Hugo"[2] != "Human"[2];
  }

  /** ... so the next divergence emits "Hu" a second time. */
  lemma StalePrefixExample()
    ensures ReplyText("Human", Tokens(["Hu", "go", "x"])) == "HugoHux"
  {
    assert Tokens(["Hu", "go", "x"]) == [InferredToken("Hu"), InferredToken("go"), InferredToken("x")];
    assert "Hugo"[2] != "Human"[2] && "Hux"[2] != "Human"[2];
  }

  /** Chunks that are no prefix of the stop sequence pass through unchanged. */
  lemma NoMarkerExample()
    ensures ReplyText("STOP", Tokens(["Hel", "lo", " world"])) == "Hello world"
  {
    var chunks := ["Hel", "lo", " world"];
    assert "Hel"[0] != "STOP"[0] && "lo"[0] != "STOP"[0] && " world"[0] != "STOP"[0];
    RunPassThrough("STOP", [], chunks);
    assert Concat(chunks) == "Hello world";
  }

  /** A chunk that merely contains the marker is emitted verbatim. */
  lemma EmbeddedMarkerExample()
    ensures ReplyText("Human", Tokens(["xHuman", "Human:"])) == "xHumanHuman:"
  {
    var chunks := ["xHuman", "Human:"];
    assert "xHuman"[0] != "Human"[0] && |"Human:"| > |"Human"|;
    RunPassThrough("Human", [], chunks);
    assert Concat(chunks) == "xHumanHuman:";
  }

  /** End of text drops a pending partial match. */
  lemma EndOfTextExample()
    ensures Run("Human", Idle, Tokens(["Hi", "Hu"]) + [EotToken]) == Stepped(Halt, MatchState("Hu", "Hi"))
  {
    var events := [InferredToken("Hi"), InferredToken("Hu"), EotToken];
    assert Tokens(["Hi", "Hu"]) + [EotToken] == events;
    assert "Hi"[1] != "Human"[1];
    assert "Human"[..2] == "Hu";
    assert Run("Human", MatchState([], "Hi"), events[1..]) == Stepped(Halt, MatchState("Hu", "Hi"));
  }
}
