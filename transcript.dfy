/** The transcript that `Rai::recompute` renders and hands to the language
    model: a fixed persona line, the purpose framed as if the human had said
    it, one line per message in insertion order, and a trailing cue for the
    AI to speak. */
module Transcript {

  /** One entry of the conversation; `user` marks what the person typed. */
  datatype Message = Message(user: bool, text: string)

  const UserName := "Human"
  const CharacterName := "AI"
  const Persona := "A chat between a Human and an AI."

  /** The labels the lines start with. */
  const UserLabel := UserName + ":"
  const CharacterLabel := CharacterName + ":"

  /** The line for one message. The labels are swapped: what the person
      typed is rendered under the AI's name, a reply under the human's. */
  function Line(m: Message): string {
    if m.user then CharacterLabel + m.text + "\n" else UserLabel + m.text + "\n"
  }

  /** The lines for a run of messages, in order. */
  function Lines(ms: seq<Message>): string
    decreases |ms|
  {
    if ms == [] then [] else Line(ms[0]) + Lines(ms[1..])
  }

  /** The purpose line followed by the message lines. */
  function History(purpose: string, ms: seq<Message>): string {
    UserLabel + purpose + "\n" + Lines(ms)
  }

  /** The full prompt handed to the language model. */
  function PromptText(purpose: string, ms: seq<Message>): string {
    Persona + "\n" + History(purpose, ms) + "\n" + CharacterLabel
  }

  /** The history as the source builds it: the purpose line, then one
      appended line per message. The messages are only read. */
  method RenderHistory(purpose: string, ms: seq<Message>) returns (history: string)
    ensures history == History(purpose, ms)
  {
    var head := UserLabel + purpose + "\n";
    history := head;
    for i := 0 to |ms|
      invariant history == head + Lines(ms[..i])
    {
      var line := if ms[i].user then CharacterLabel + ms[i].text + "\n"
                  else UserLabel + ms[i].text + "\n";
      assert line == Line(ms[i]);
      HistorySnoc(head, ms, i);
      history := history + line;
    }
    assert ms[..|ms|] == ms;
  }

  /** The label of every line is the opposite of its message's speaker. */
  lemma LineLabel(m: Message)
    ensures CharacterLabel <= Line(m) <==> m.user
    ensures UserLabel <= Line(m) <==> !m.user
  {
    if m.user {
      assert Line(m)[0] == 'A';
    } else {
      assert Line(m)[0] == 'H';
    }
  }

  /** Rendering distributes over concatenation of conversations. */
  lemma {:induction false} LinesAppend(a: seq<Message>, b: seq<Message>)
    ensures Lines(a + b) == Lines(a) + Lines(b)
    decreases |a|
  {
    if a == [] {
      assert a + b == b;
    } else {
      assert (a + b)[0] == a[0] && (a + b)[1..] == a[1..] + b;
      LinesAppend(a[1..], b);
    }
  }

  /** One more message adds exactly its line at the end. */
  lemma LinesSnoc(ms: seq<Message>, i: nat)
    requires i < |ms|
    ensures Lines(ms[..i + 1]) == Lines(ms[..i]) + Line(ms[i])
  {
    assert ms[..i + 1] == ms[..i] + [ms[i]];
    LinesAppend(ms[..i], [ms[i]]);
    assert Lines([ms[i]]) == Line(ms[i]) + Lines([]);
  }

  /** The same, after a fixed head. */
  lemma HistorySnoc(head: string, ms: seq<Message>, i: nat)
    requires i < |ms|
    ensures head + Lines(ms[..i + 1]) == head + Lines(ms[..i]) + Line(ms[i])
  {
    LinesSnoc(ms, i);
    AppendAssoc(head, Lines(ms[..i]), Line(ms[i]));
  }

  /** Appending messages only appends lines after a fixed head. */
  lemma HeadThenLines(head: string, ms: seq<Message>, more: seq<Message>)
    ensures head + Lines(ms + more) == head + Lines(ms) + Lines(more)
    ensures head + Lines(ms) <= head + Lines(ms + more)
  {
    LinesAppend(ms, more);
    var a, b := Lines(ms), Lines(more);
    AppendAssoc(head, a, b);
    PrefixOfAppend(head + a, b);
  }

  lemma AppendAssoc(x: string, y: string, z: string)
    ensures x + (y + z) == x + y + z
  {
  }

  lemma PrefixOfAppend(x: string, y: string)
    ensures x <= x + y
  {
  }

  /** Appending messages only appends to the history: earlier lines are
      never rewritten. */
  lemma HistoryExtends(purpose: string, ms: seq<Message>, more: seq<Message>)
    ensures History(purpose, ms) <= History(purpose, ms + more)
    ensures History(purpose, ms + more) == History(purpose, ms) + Lines(more)
  {
    HeadThenLines(UserLabel + purpose + "\n", ms, more);
  }

  /** A non-empty run of lines ends with a line break. */
  lemma {:induction false} LinesEndWithNewline(ms: seq<Message>)
    requires ms != []
    ensures |Lines(ms)| > 0 && Lines(ms)[|Lines(ms)| - 1] == '\n'
    decreases |ms|
  {
    var l := Line(ms[0]);
    assert l[|l| - 1] == '\n';
    if ms[1..] != [] {
      LinesEndWithNewline(ms[1..]);
    }
  }

  /** The history always ends with a line break. */
  lemma HistoryEndsWithNewline(purpose: string, ms: seq<Message>)
    ensures |History(purpose, ms)| > 0 && History(purpose, ms)[|History(purpose, ms)| - 1] == '\n'
  {
    var head := UserLabel + purpose + "\n";
    assert head[|head| - 1] == '\n';
    if ms != [] {
      LinesEndWithNewline(ms);
    }
  }

  /** The prompt opens with the persona and the purpose as a human line and
      closes with a blank line and the AI's label, whatever the messages. */
  lemma PromptShape(purpose: string, ms: seq<Message>)
    ensures Persona + "\n" + UserLabel + purpose + "\n" <= PromptText(purpose, ms)
    ensures var p := PromptText(purpose, ms);
            |p| >= |CharacterLabel| + 2 && p[|p| - |CharacterLabel| - 2..] == "\n\n" + CharacterLabel
  {
    var h := History(purpose, ms);
    OpensWith(Persona + "\n", UserLabel + purpose + "\n", Lines(ms), "\n" + CharacterLabel);
    HistoryEndsWithNewline(purpose, ms);
    ClosesWith(Persona + "\n", h, CharacterLabel);
  }

  lemma OpensWith(a: string, b: string, rest: string, tail: string)
    ensures a + b <= a + (b + rest) + tail
  {
  }

  lemma ClosesWith(a: string, h: string, cue: string)
    requires |h| > 0 && h[|h| - 1] == '\n'
    ensures |a + h + "\n" + cue| >= |cue| + 2
    ensures (a + h + "\n" + cue)[|a + h + "\n" + cue| - |cue| - 2..] == "\n\n" + cue
  {
  }
}
