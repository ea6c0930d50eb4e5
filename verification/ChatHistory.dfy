/** Chat history across sessions: what is stored at the end of one is what the next rebuilds. */
module ChatHistory {
  import opened Sequences

  datatype Role = User | Doll | System

  datatype Message = Message(role: Role, content: string)

  datatype ModelRole = ModelUser | Model

  /** The library's own form: one turn's text in parts. */
  datatype Content = Content(role: ModelRole, parts: seq<string>)

  /** The wording of the prompt plays no part, so it is a parameter of everything below. */
  function SystemPrompt(prompt: string): Message { Message(System, prompt) }

  // ---- The two conversions -----------------------------------------------------------

  function ToContent(m: Message): Content {
    Content(if m.role.User? then ModelUser else Model, [m.content])
  }

  function ToMessage(c: Content): Message {
    Message(if c.role.ModelUser? then User else Doll, Flatten(c.parts))
  }

  function Contents(history: seq<Message>): seq<Content> {
    if history == [] then []
    else
      var m := history[|history| - 1];
      Contents(history[..|history| - 1]) + (if m.role.System? then [] else [ToContent(m)])
  }

  function Messages(contents: seq<Content>): seq<Message> {
    seq(|contents|, i requires 0 <= i < |contents| => ToMessage(contents[i]))
  }

  predicate HasSystemPrompt(history: seq<Message>) {
    |history| > 0 && history[0].role.System?
  }

  /** The model history a session starts from. */
  function Rebuilt(prompt: string, history: seq<Message>): seq<Content> {
    (if HasSystemPrompt(history) then [] else [Content(ModelUser, [prompt])]) + Contents(history)
  }

  /** The history a session stores. */
  function Saved(prompt: string, contents: seq<Content>): seq<Message> {
    [SystemPrompt(prompt)] + Messages(contents)
  }

  // ---- The session object ------------------------------------------------------------

  /** What the language model does with one message. */
  datatype Outcome = Answered(parts: seq<string>) | Failed(error: string)

  /** An input of the chat loop with what became of it. */
  datatype Event = Event(input: string, outcome: Outcome)

  /** The library records both sides of an exchange that succeeded and nothing of one that did
      not. */
  function Recorded(e: Event): seq<Content> {
    match e.outcome
    case Answered(parts) => [Content(ModelUser, [e.input]), Content(Model, parts)]
    case Failed(_) => []
  }

  function Exchanges(events: seq<Event>): seq<Content> {
    if events == [] then [] else Exchanges(events[..|events| - 1]) + Recorded(events[|events| - 1])
  }

  datatype Result = Ok(text: string) | Err(error: string)

  class GeminiChatSession {
    const prompt: string
    var contents: seq<Content>

    constructor (prompt: string, contents: seq<Content>)
      ensures this.prompt == prompt && this.contents == contents
    {
      this.prompt := prompt;
      this.contents := contents;
    }

    method SendMessage(e: Event) returns (r: Result)
      modifies this
      ensures match e.outcome
              case Answered(parts) =>
                r == Ok(Flatten(parts))
                && contents == old(contents) + [Content(ModelUser, [e.input]), Content(Model, parts)]
              case Failed(error) =>
                r == Err("send message: " + error) && contents == old(contents)
    {
      match e.outcome {
        case Answered(parts) =>
          contents := contents + [Content(ModelUser, [e.input]), Content(Model, parts)];
          var text := JoinParts(parts);
          return Ok(text);
        case Failed(error) =>
          return Err("send message: " + error);
      }
    }

    method History() returns (history: seq<Message>)
      ensures history == Saved(prompt, contents)
      ensures |history| == |contents| + 1 && history[0] == Message(System, prompt)
      ensures forall i | 0 <= i < |contents| ::
                history[i + 1] == Message(if contents[i].role == ModelUser then User else Doll,
                                          Flatten(contents[i].parts))
    {
      history := [SystemPrompt(prompt)];
      var i := 0;
      while i < |contents|
        invariant i <= |contents| && history == Saved(prompt, contents[..i])
      {
        var content := JoinParts(contents[i].parts);
        var role := Doll;
        if contents[i].role.ModelUser? {
          role := User;
        }
        assert contents[..i + 1][..i] == contents[..i];
        history := history + [Message(role, content)];
        i := i + 1;
      }
      assert contents[..i] == contents;
    }
  }

  method JoinParts(parts: seq<string>) returns (text: string)
    ensures text == Flatten(parts)
  {
    text := "";
    var i := 0;
    while i < |parts|
      invariant i <= |parts| && text == Flatten(parts[..i])
    {
      assert parts[..i + 1][..i] == parts[..i];
      text := text + parts[i];
      i := i + 1;
    }
    assert parts[..i] == parts;
  }

  method GenerateChat(prompt: string, history: seq<Message>) returns (session: GeminiChatSession)
    ensures fresh(session) && session.prompt == prompt && session.contents == Rebuilt(prompt, history)
  {
    var hasSystemPrompt := |history| > 0 && history[0].role.System?;
    var contents: seq<Content> := [];
    if !hasSystemPrompt {
      contents := contents + [Content(ModelUser, [prompt])];
    }
    ghost var front := contents;
    var i := 0;
    while i < |history|
      invariant i <= |history| && contents == front + Contents(history[..i])
    {
      assert history[..i + 1][..i] == history[..i];
      if !history[i].role.System? {
        var role := Model;
        if history[i].role.User? {
          role := ModelUser;
        }
        contents := contents + [Content(role, [history[i].content])];
      }
      i := i + 1;
    }
    assert history[..i] == history;
    session := new GeminiChatSession(prompt, contents);
  }

  lemma NextEvent(events: seq<Event>, i: nat)
    requires i < |events|
    ensures Exchanges(events[..i + 1]) == Exchanges(events[..i]) + Recorded(events[i])
  {
    assert events[..i + 1][..i] == events[..i];
  }

  /** One round of the select loop. */
  method Round(session: GeminiChatSession, e: Event) returns (line: string)
    modifies session
    ensures session.contents == old(session.contents) + Recorded(e)
    ensures line == match e.outcome
                    case Answered(parts) => Flatten(parts)
                    case Failed(error) => "ERROR: send message: " + error
  {
    assert e.outcome.Failed? ==> session.contents + Recorded(e) == session.contents;
    var r := session.SendMessage(e);
    match r {
      case Err(error) =>
        assert "ERROR: " + ("send message: " + e.outcome.error) == "ERROR: send message: " + e.outcome.error;
        return "ERROR: " + error;
      case Ok(text) => return text;
    }
  }

  /** What has been put on the output channel so far: each reply's text, or its error marked as one. */
  predicate LinesFor(events: seq<Event>, output: seq<string>) {
    && |output| <= |events|
    && forall i | 0 <= i < |output| ::
         output[i] == match events[i].outcome
                      case Answered(parts) => Flatten(parts)
                      case Failed(error) => "ERROR: send message: " + error
  }

  lemma NextLine(events: seq<Event>, output: seq<string>, line: string)
    requires LinesFor(events, output) && |output| < |events|
    requires line == match events[|output|].outcome
                     case Answered(parts) => Flatten(parts)
                     case Failed(error) => "ERROR: send message: " + error
    ensures LinesFor(events, output + [line])
  {
  }

  /** One session of `ChatService.Execute`, from the stored history (empty when there is no
      file) to the one it stores when its context ends. */
  method Execute(prompt: string, stored: seq<Message>, events: seq<Event>)
    returns (history: seq<Message>, output: seq<string>)
    ensures history == Session(prompt, stored, events)
    ensures |output| == |events|
    ensures forall i | 0 <= i < |events| ::
              output[i] == match events[i].outcome
                           case Answered(parts) => Flatten(parts)
                           case Failed(error) => "ERROR: send message: " + error
  {
    var session := GenerateChat(prompt, stored);
    output := [];
    var i := 0;
    while i < |events|
      invariant i <= |events| && fresh(session) && session.prompt == prompt
      invariant session.contents == Rebuilt(prompt, stored) + Exchanges(events[..i])
      invariant |output| == i && LinesFor(events, output)
    {
      NextEvent(events, i);
      Regroup(Rebuilt(prompt, stored), Exchanges(events[..i]), Recorded(events[i]));
      var line := Round(session, events[i]);
      NextLine(events, output, line);
      output := output + [line];
      i := i + 1;
    }
    assert events[..i] == events;
    history := session.History();
  }

  // ---- Any number of sessions --------------------------------------------------------

  function Session(prompt: string, stored: seq<Message>, events: seq<Event>): seq<Message> {
    Saved(prompt, Rebuilt(prompt, stored) + Exchanges(events))
  }

  /** The file after the given sessions, one after another, starting from no file. */
  function Sessions(prompt: string, all: seq<seq<Event>>): seq<Message> {
    if all == [] then [] else Session(prompt, Sessions(prompt, all[..|all| - 1]), all[|all| - 1])
  }

  /** What an exchange adds to the file. */
  function Told(e: Event): seq<Message> {
    match e.outcome
    case Answered(parts) => [Message(User, e.input), Message(Doll, Flatten(parts))]
    case Failed(_) => []
  }

  function TurnsOf(events: seq<Event>): seq<Message> {
    if events == [] then [] else TurnsOf(events[..|events| - 1]) + Told(events[|events| - 1])
  }

  function Turns(all: seq<seq<Event>>): seq<Message> {
    if all == [] then [] else Turns(all[..|all| - 1]) + TurnsOf(all[|all| - 1])
  }

  lemma {:induction false} TurnsAreExchanges(events: seq<Event>)
    ensures Messages(Exchanges(events)) == TurnsOf(events)
  {
    if events != [] {
      var front, e := events[..|events| - 1], events[|events| - 1];
      TurnsAreExchanges(front);
      MessagesConcat(Exchanges(front), Recorded(e));
      if e.outcome.Answered? { JoinOne(e.input); }
      assert Messages(Recorded(e)) == Told(e);
    }
  }

  lemma MessagesConcat(a: seq<Content>, b: seq<Content>)
    ensures Messages(a + b) == Messages(a) + Messages(b)
  {
  }

  predicate NoSystem(history: seq<Message>) {
    forall m | m in history :: !m.role.System?
  }

  lemma MessagesAreTurns(contents: seq<Content>)
    ensures NoSystem(Messages(contents))
  {
  }

  lemma JoinOne(s: string)
    ensures Flatten([s]) == s
  {
    assert Flatten([s]) == Flatten([]) + s;
  }

  /** The history with its system messages left out. */
  function Spoken(history: seq<Message>): seq<Message> {
    if history == [] then []
    else
      var m := history[|history| - 1];
      Spoken(history[..|history| - 1]) + (if m.role.System? then [] else [m])
  }

  lemma {:induction false} MessagesOfContents(history: seq<Message>)
    ensures Messages(Contents(history)) == Spoken(history)
  {
    if history != [] {
      var m := history[|history| - 1];
      MessagesOfContents(history[..|history| - 1]);
      if !m.role.System? {
        JoinOne(m.content);
        MessagesConcat(Contents(history[..|history| - 1]), [ToContent(m)]);
        assert Messages([ToContent(m)])[0] == m;
      } else {
        assert Contents(history) == Contents(history[..|history| - 1]);
      }
    }
  }

  lemma {:induction false} SpokenAll(history: seq<Message>)
    ensures |Spoken(history)| <= |history|
    ensures NoSystem(history) ==> Spoken(history) == history
    ensures |Spoken(history)| == |history| ==> NoSystem(history)
  {
    if history != [] {
      assert history == history[..|history| - 1] + [history[|history| - 1]];
      SpokenAll(history[..|history| - 1]);
    }
  }

  lemma {:induction false} SpokenTail(m: Message, rest: seq<Message>)
    ensures Spoken([m] + rest) == (if m.role.System? then [] else [m]) + Spoken(rest)
  {
    if rest == [] {
      assert [m] + rest == [m];
      assert Spoken([m]) == Spoken([]) + (if m.role.System? then [] else [m]);
    } else {
      assert ([m] + rest)[..|rest|] == [m] + rest[..|rest| - 1];
      SpokenTail(m, rest[..|rest| - 1]);
    }
  }

  /** What saving a rebuilt history gives, for any stored history. */
  lemma SavedRebuilt(prompt: string, history: seq<Message>)
    ensures Saved(prompt, Rebuilt(prompt, history)) ==
              [SystemPrompt(prompt)]
              + (if HasSystemPrompt(history) then [] else [Message(User, prompt)]) + Spoken(history)
  {
    MessagesOfContents(history);
    if HasSystemPrompt(history) {
      assert Rebuilt(prompt, history) == Contents(history);
    } else {
      var first := Content(ModelUser, [prompt]);
      MessagesConcat([first], Contents(history));
      JoinOne(prompt);
      assert Messages([first])[0] == Message(User, prompt);
    }
  }

  /** Exactly which stored histories a session without exchanges leaves as they are. */
  lemma FixedPointsExactly(prompt: string, history: seq<Message>)
    ensures Session(prompt, history, []) == history
            <==> history != [] && history[0] == SystemPrompt(prompt) && NoSystem(history[1..])
  {
    assert Rebuilt(prompt, history) + Exchanges([]) == Rebuilt(prompt, history);
    SavedRebuilt(prompt, history);
    var back := Saved(prompt, Rebuilt(prompt, history));
    if history != [] {
      var rest := history[1..];
      assert history == [history[0]] + rest;
      SpokenTail(history[0], rest);
      SpokenAll(rest);
      if history[0].role.System? {
        assert back == [SystemPrompt(prompt)] + Spoken(rest);
        if back == history {
          assert |Spoken(rest)| == |rest|;
        }
      } else {
        assert back[0] != history[0];
      }
    }
  }

  lemma SavedConcat(prompt: string, a: seq<Content>, b: seq<Content>)
    ensures Saved(prompt, a + b) == Saved(prompt, a) + Messages(b)
  {
    MessagesConcat(a, b);
    Regroup([SystemPrompt(prompt)], Messages(a), Messages(b));
  }

  /** A session appends its turns to any history that starts with the system prompt. */
  lemma SessionAppends(prompt: string, body: seq<Message>, events: seq<Event>)
    requires NoSystem(body)
    ensures Session(prompt, [SystemPrompt(prompt)] + body, events)
            == [SystemPrompt(prompt)] + (body + TurnsOf(events))
  {
    TurnsAreExchanges(events);
    var file := [SystemPrompt(prompt)] + body;
    var rebuilt := Rebuilt(prompt, file);
    assert file[1..] == body;
    FixedPointsExactly(prompt, file);
    assert rebuilt + Exchanges([]) == rebuilt;
    SavedConcat(prompt, rebuilt, Exchanges(events));
    Regroup([SystemPrompt(prompt)], body, Messages(Exchanges(events)));
  }

  /** What a session leaves of any stored history at all: the prompt, a user copy of it unless the
      history started with a system message, what was spoken before, and the new turns. */
  lemma SessionOnAny(prompt: string, stored: seq<Message>, events: seq<Event>)
    ensures Session(prompt, stored, events)
            == [Message(System, prompt)]
               + (if stored != [] && stored[0].role == System then [] else [Message(User, prompt)])
               + Spoken(stored) + TurnsOf(events)
  {
    SavedRebuilt(prompt, stored);
    SavedConcat(prompt, Rebuilt(prompt, stored), Exchanges(events));
    TurnsAreExchanges(events);
  }

  lemma TurnsHaveNoSystem(all: seq<seq<Event>>)
    ensures NoSystem(Turns(all))
  {
    if all != [] {
      TurnsHaveNoSystem(all[..|all| - 1]);
      TurnsAreExchanges(all[|all| - 1]);
      MessagesAreTurns(Exchanges(all[|all| - 1]));
    }
  }

  lemma SessionAfter(prompt: string, turns: seq<Message>, events: seq<Event>)
    requires NoSystem(turns)
    ensures Session(prompt, Expected(prompt, turns), events)
            == Expected(prompt, turns + TurnsOf(events))
  {
    SessionAppends(prompt, [Message(User, prompt)] + turns, events);
    Regroup([Message(User, prompt)], turns, TurnsOf(events));
  }

  function Expected(prompt: string, turns: seq<Message>): (r: seq<Message>)
    ensures r == [Message(System, prompt), Message(User, prompt)] + turns
  {
    [SystemPrompt(prompt)] + ([Message(User, prompt)] + turns)
  }

  lemma {:induction false} SessionsExtend(prompt: string, before: seq<seq<Event>>, last: seq<Event>)
    ensures Sessions(prompt, before + [last]) == Session(prompt, Sessions(prompt, before), last)
    ensures Turns(before + [last]) == Turns(before) + TurnsOf(last)
  {
    assert (before + [last])[..|before|] == before;
  }

  /** After any number of sessions the file holds the system prompt, one copy of it as a user
      message, and every turn of every session in order. */
  lemma {:induction false} HistoryAfterSessions(prompt: string, all: seq<seq<Event>>)
    requires all != []
    ensures Sessions(prompt, all) == [Message(System, prompt), Message(User, prompt)] + Turns(all)
  {
    var before, last := all[..|all| - 1], all[|all| - 1];
    assert all == before + [last];
    SessionsExtend(prompt, before, last);
    if before == [] {
      FirstSession(prompt, last);
      assert Turns(before) + TurnsOf(last) == TurnsOf(last);
    } else {
      HistoryAfterSessions(prompt, before);
      TurnsHaveNoSystem(before);
      SessionAfter(prompt, Turns(before), last);
    }
  }

  lemma FirstSession(prompt: string, events: seq<Event>)
    ensures Session(prompt, [], events) == Expected(prompt, TurnsOf(events))
  {
    TurnsAreExchanges(events);
    SavedRebuilt(prompt, []);
    SavedConcat(prompt, Rebuilt(prompt, []), Exchanges(events));
    assert Saved(prompt, Rebuilt(prompt, [])) == [SystemPrompt(prompt)] + [Message(User, prompt)];
    Regroup([SystemPrompt(prompt)], [Message(User, prompt)], Messages(Exchanges(events)));
  }

  /** Every turn with its text in one part. */
  function Joined(contents: seq<Content>): seq<Content> {
    seq(|contents|, i requires 0 <= i < |contents| => Content(contents[i].role, [Flatten(contents[i].parts)]))
  }

  lemma ContentsSnoc(history: seq<Message>, m: Message)
    ensures Contents(history + [m]) == Contents(history) + (if m.role.System? then [] else [ToContent(m)])
  {
    assert (history + [m])[..|history|] == history;
  }

  lemma {:induction false} ContentsOfMessages(contents: seq<Content>)
    ensures Contents(Messages(contents)) == Joined(contents)
  {
    if contents != [] {
      var front := contents[..|contents| - 1];
      ContentsOfMessages(front);
      var last := contents[|contents| - 1];
      assert Messages(contents) == Messages(front) + [ToMessage(last)];
      ContentsSnoc(Messages(front), ToMessage(last));
      assert Joined(contents) == Joined(front) + [Content(last.role, [Flatten(last.parts)])];
    }
  }

  /** The model history rebuilt from the file is the one the last session ended with, turn for
      turn, each turn's parts joined; the prompt is not added again. */
  lemma RebuildsWhatItSaved(prompt: string, stored: seq<Message>, events: seq<Event>)
    ensures var ended := Rebuilt(prompt, stored) + Exchanges(events);
            Rebuilt(prompt, Session(prompt, stored, events)) == Joined(ended)
  {
    var ended := Rebuilt(prompt, stored) + Exchanges(events);
    ContentsOfMessages(ended);
    ContentsSkipSystem(prompt, Messages(ended));
  }

  lemma {:induction false} ContentsSkipSystem(prompt: string, rest: seq<Message>)
    ensures Contents([SystemPrompt(prompt)] + rest) == Contents(rest)
  {
    if rest == [] {
      assert [SystemPrompt(prompt)] + rest == [SystemPrompt(prompt)];
      assert Contents([SystemPrompt(prompt)]) == Contents([]) + [];
    } else {
      assert ([SystemPrompt(prompt)] + rest)[..|rest|] == [SystemPrompt(prompt)] + rest[..|rest| - 1];
      ContentsSkipSystem(prompt, rest[..|rest| - 1]);
    }
  }
}
