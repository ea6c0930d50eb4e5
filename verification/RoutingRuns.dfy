/** The logs of the clients read off the steps of a run; who is admitted, what becomes of a message
    the listener has heard, and a message's whole way. */
module RoutingRuns {
  import opened Sequences
  import opened RoutingModel
  import opened RoutingInvariant
  import opened Routing
  import B = BrokerModel
  import BR = BrokerRuns

  // ---- What the steps put, answer, emit and speak ------------------------------------

  /** What a step puts into client `c`'s input channel. */
  function PutBy(s: State, step: Step, c: nat): seq<Input>
    requires Enabled(s, step)
  {
    match step
    case Deliver => if s.listener.c == c then [Routed(|s.heard| - 1, Current(s).text)] else []
    case Type(d, text) => if d == c then [Typed(text)] else []
    case _ => []
  }

  function PutsIn(s: State, steps: seq<Step>, c: nat): seq<Input>
    requires Possible(s, steps)
    decreases |steps|
  {
    if steps == [] then [] else PutBy(s, steps[0], c) + PutsIn(Apply(s, steps[0]), steps[1..], c)
  }

  function AnswerBy(step: Step, c: nat): seq<Answer> {
    if step.Consume? && step.c == c then [step.answer] else []
  }

  function AnswersIn(steps: seq<Step>, c: nat): seq<Answer> {
    if steps == [] then [] else AnswerBy(steps[0], c) + AnswersIn(steps[1..], c)
  }

  function Times(steps: seq<Step>, step: Step): nat {
    if steps == [] then 0 else (if steps[0] == step then 1 else 0) + Times(steps[1..], step)
  }

  function PutOf(s: State, c: nat): seq<Input> {
    if c < |s.clients| then s.clients[c].put else []
  }

  function AnswersOf(s: State, c: nat): seq<Answer> {
    if c < |s.clients| then s.clients[c].answers else []
  }

  function EmittedOf(s: State, c: nat): nat {
    if c < |s.clients| then |s.clients[c].emitted| else 0
  }

  function GreetedOf(s: State, c: nat): nat {
    if c < |s.clients| && s.clients[c].greeted then 1 else 0
  }

  function SpokenOf(s: State, c: nat): nat {
    if c < |s.clients| then |s.clients[c].spoken| else 0
  }

  lemma StepPuts(s: State, step: Step, c: nat)
    requires Enabled(s, step)
    ensures PutOf(Apply(s, step), c) == PutOf(s, c) + PutBy(s, step, c)
  {
  }

  lemma StepAnswers(s: State, step: Step, c: nat)
    requires Enabled(s, step)
    ensures AnswersOf(Apply(s, step), c) == AnswersOf(s, c) + AnswerBy(step, c)
  {
  }

  lemma StepSpeaks(s: State, step: Step, c: nat)
    requires Enabled(s, step)
    ensures EmittedOf(Apply(s, step), c) == EmittedOf(s, c) + Times([step], Emit(c))
    ensures SpokenOf(Apply(s, step), c) == SpokenOf(s, c) + Times([step], Speak(c))
  {
  }

  lemma StepGreets(s: State, step: Step, c: nat)
    requires Enabled(s, step)
    ensures GreetedOf(Apply(s, step), c) == GreetedOf(s, c) + Times([step], Greet(c))
  {
  }

  lemma {:induction false} PutsTell(s: State, steps: seq<Step>, c: nat)
    requires Possible(s, steps)
    ensures PutOf(Run(s, steps), c) == PutOf(s, c) + PutsIn(s, steps, c)
    decreases |steps|
  {
    if steps != [] {
      StepPuts(s, steps[0], c);
      PutsTell(Apply(s, steps[0]), steps[1..], c);
      Regroup(PutOf(s, c), PutBy(s, steps[0], c), PutsIn(Apply(s, steps[0]), steps[1..], c));
    }
  }

  lemma {:induction false} AnswersTell(s: State, steps: seq<Step>, c: nat)
    requires Possible(s, steps)
    ensures AnswersOf(Run(s, steps), c) == AnswersOf(s, c) + AnswersIn(steps, c)
    decreases |steps|
  {
    if steps != [] {
      StepAnswers(s, steps[0], c);
      AnswersTell(Apply(s, steps[0]), steps[1..], c);
      Regroup(AnswersOf(s, c), AnswerBy(steps[0], c), AnswersIn(steps[1..], c));
    }
  }

  lemma {:induction false} VoiceTells(s: State, steps: seq<Step>, c: nat)
    requires Possible(s, steps)
    ensures EmittedOf(Run(s, steps), c) == EmittedOf(s, c) + Times(steps, Emit(c))
    ensures SpokenOf(Run(s, steps), c) == SpokenOf(s, c) + Times(steps, Speak(c))
    ensures GreetedOf(Run(s, steps), c) == GreetedOf(s, c) + Times(steps, Greet(c))
    decreases |steps|
  {
    if steps != [] {
      StepSpeaks(s, steps[0], c);
      StepGreets(s, steps[0], c);
      VoiceTells(Apply(s, steps[0]), steps[1..], c);
    }
  }

  lemma InputsExactly(sub: string, steps: seq<Step>, c: nat)
    requires Possible(Init(sub), steps) && c < |Run(Init(sub), steps).clients|
    ensures var cl := Run(Init(sub), steps).clients[c];
            cl.put == PutsIn(Init(sub), steps, c) && cl.answers == AnswersIn(steps, c)
  {
    PutsTell(Init(sub), steps, c);
    AnswersTell(Init(sub), steps, c);
  }

  lemma LinesExactly(sub: string, steps: seq<Step>, c: nat)
    requires Possible(Init(sub), steps) && c < |Run(Init(sub), steps).clients|
    ensures var cl := Run(Init(sub), steps).clients[c];
            && |cl.emitted| == Times(steps, Emit(c)) && |cl.spoken| == Times(steps, Speak(c))
            && |cl.spoken| + |cl.output| == Times(steps, Emit(c)) + Times(steps, Greet(c))
            && RepliesIn(cl.spoken + cl.output) == cl.emitted
  {
    VoiceTells(Init(sub), steps, c);
    Reached(sub, steps);
    assert ClientOk(Run(Init(sub), steps).clients[c]);
  }

  /** From what was handed to a client to what its doll says, told by the steps alone: the inputs
      put are those of its deliveries and typed texts; each of them that was taken is answered;
      the replies go out in that order, as many as were emitted; and the first so many lines are
      spoken, one of which may be the greeting. */
  lemma ConversationExactly(sub: string, steps: seq<Step>, c: nat)
    requires Possible(Init(sub), steps) && c < |Run(Init(sub), steps).clients|
    ensures var cl := Run(Init(sub), steps).clients[c]; var answers := AnswersIn(steps, c);
            && cl.consumed + cl.input == PutsIn(Init(sub), steps, c) && |cl.consumed| == |answers|
            && Times(steps, Emit(c)) <= |answers|
            && |cl.spoken| == Times(steps, Speak(c))
            && |cl.spoken| + |cl.output| == Times(steps, Emit(c)) + Times(steps, Greet(c))
            && |RepliesIn(cl.spoken + cl.output)| == Times(steps, Emit(c))
            && forall i | 0 <= i < Times(steps, Emit(c)) ::
                 RepliesIn(cl.spoken + cl.output)[i] == match answers[i]
                                                        case Reply(text) => text
                                                        case Failure(error) => "ERROR: " + error
  {
    InputsExactly(sub, steps, c);
    LinesExactly(sub, steps, c);
    RepliesInOrder(sub, steps, c);
  }

  /** What can move in a started client, in every reachable state: the chat loop takes an input unless
      it owes a reply, and a reply or the greeting waits exactly while ten lines do. */
  lemma ChatMovesExactly(sub: string, steps: seq<Step>, c: nat)
    requires Possible(Init(sub), steps) && c < |Run(Init(sub), steps).clients|
    requires Run(Init(sub), steps).clients[c].stage != Checked
    ensures var s := Run(Init(sub), steps); var cl := s.clients[c];
            && (forall text :: Enabled(s, Type(c, text)) <==> |cl.input| != 10)
            && (forall answer :: Enabled(s, Consume(c, answer)) <==> cl.chat == Listening && cl.input != [])
            && (Enabled(s, Emit(c)) <==> cl.chat != Listening && |cl.output| != 10)
            && (Enabled(s, Greet(c)) <==> !cl.greeted && |cl.output| != 10)
            && (Enabled(s, Speak(c)) <==> cl.output != [])
            && Enabled(s, Close(c))
  {
    Reached(sub, steps);
    assert ClientOk(Run(Init(sub), steps).clients[c]);
  }

  // ---- Admission and the listener ----------------------------------------------------

  /** A connection is turned away exactly if its device has an open client in the hub's map. */
  lemma AdmittedExactly(s: State, device: string)
    ensures var t := Apply(s, Check(device));
            if exists c: nat :: c < |s.clients| && s.clients[c].device == device && !s.clients[c].closed
                                && (s.clients[c].stage == Inside || s.clients[c].stage == Leaving)
            then t == s
            else t == s.(clients := t.clients) && |t.clients| == |s.clients| + 1
                 && t.clients[..|s.clients|] == s.clients && t.clients[|s.clients|].device == device
                 && t.clients[|s.clients|].stage == Checked && !t.clients[|s.clients|].closed
  {
    if c: nat :| c < |s.clients| && s.clients[c].device == device && !s.clients[c].closed
                 && (s.clients[c].stage == Inside || s.clients[c].stage == Leaving) {
      assert Matching(s, c, device);
    }
  }

  /** The hub goroutine finishes what it has been handed, and while it is idle it takes a client that
      has passed the check, or one in its map that is closed. */
  lemma HubMovesExactly(sub: string, steps: seq<Step>, c: nat)
    requires Possible(Init(sub), steps) && c < |Run(Init(sub), steps).clients|
    ensures var s := Run(Init(sub), steps);
            && (s.hub.Inserting? <==> Enabled(s, Insert)) && (s.hub.Removing? <==> Enabled(s, Remove))
            && (Enabled(s, HandRegister(c)) <==> s.hub == Idle && s.clients[c].stage == Checked)
            && (Enabled(s, HandUnregister(c)) <==>
                  s.hub == Idle && s.clients[c].stage == Inside && s.clients[c].closed)
  {
    Reached(sub, steps);
    HubMoves(Run(Init(sub), steps), c);
  }

  lemma HubMoves(s: State, c: nat)
    requires HubOk(s) && c < |s.clients|
    ensures (s.hub.Inserting? <==> Enabled(s, Insert)) && (s.hub.Removing? <==> Enabled(s, Remove))
    ensures Enabled(s, HandRegister(c)) <==> s.hub == Idle && s.clients[c].stage == Checked
    ensures Enabled(s, HandUnregister(c)) <==>
              s.hub == Idle && s.clients[c].stage == Inside && s.clients[c].closed
  {
  }

  /** What the listener does with a message it has heard, in every reachable state: it drops it
      exactly if it does not decode, ignores it exactly if its device has no open client in the
      map, and otherwise turns to such a client. */
  lemma LooksUpExactly(sub: string, steps: seq<Step>)
    requires Possible(Init(sub), steps) && Run(Init(sub), steps).listener.Handling?
    ensures var s := Run(Init(sub), steps);
            && s.heard != []
            && var payload := s.heard[|s.heard| - 1].msg.payload;
               && (Enabled(s, Drop) <==> payload.Undecodable?)
               && (Enabled(s, Lookup(None)) <==>
                     payload.Transcription?
                     && forall c | 0 <= c < |s.clients| && InHub(s.clients[c]) && !s.clients[c].closed ::
                          s.clients[c].device != payload.deviceID)
               && (forall c: nat :: Enabled(s, Lookup(Some(c))) <==>
                     payload.Transcription? && c < |s.clients| && InHub(s.clients[c])
                     && !s.clients[c].closed && s.clients[c].device == payload.deviceID)
  {
    Reached(sub, steps);
    var s := Run(Init(sub), steps);
    if Current(s).Transcription? { NoMatchIs(s, Current(s).deviceID); }
  }

  /** It hands the text over exactly while fewer than ten inputs wait there. */
  lemma HandsOverExactly(sub: string, steps: seq<Step>)
    requires Possible(Init(sub), steps) && Run(Init(sub), steps).listener.Sending?
    ensures var s := Run(Init(sub), steps);
            && s.listener.c < |s.clients|
            && var cl := s.clients[s.listener.c];
               && (Enabled(s, Deliver) <==> |cl.input| < 10)
               && (Enabled(s, Refuse) <==> cl.closed || |cl.input| == 10)
  {
    Reached(sub, steps);
    var s := Run(Init(sub), steps);
    assert ClientOk(s.clients[s.listener.c]);
  }

  lemma NoMatchIs(s: State, device: string)
    ensures NoMatch(s, device) <==>
              forall c | 0 <= c < |s.clients| && InHub(s.clients[c]) && !s.clients[c].closed ::
                s.clients[c].device != device
  {
    if NoMatch(s, device) {
      forall c | 0 <= c < |s.clients| && InHub(s.clients[c]) && !s.clients[c].closed
        ensures s.clients[c].device != device
      {
        assert !Matching(s, c, device);
      }
    }
  }

  // ---- A full input channel ----------------------------------------------------------

  lemma Connected(sub: string, device: string) returns (steps: seq<Step>)
    ensures Possible(Init(sub), steps)
    ensures Run(Init(sub), steps) == Init(sub).(clients := [NewClient(device).(stage := Inside)])
  {
    var i := Init(sub);
    steps := [];
    RunSnoc(i, steps, Check(device)); steps := steps + [Check(device)];
    RunSnoc(i, steps, HandRegister(0)); steps := steps + [HandRegister(0)];
    RunSnoc(i, steps, Insert); steps := steps + [Insert];
  }

  /** Up to ten texts typed at a client whose chat loop is busy wait in order; an eleventh finds no
      room. */
  lemma {:induction false} TenFit(sub: string, device: string, texts: seq<string>) returns (steps: seq<Step>)
    requires |texts| <= 10
    ensures Possible(Init(sub), steps)
    ensures var s := Run(Init(sub), steps);
            && |s.clients| == 1 && Running(s.clients[0]) && |s.clients[0].input| == |texts|
            && (forall i | 0 <= i < |texts| :: s.clients[0].input[i] == Typed(texts[i]))
            && (forall text :: Enabled(s, Type(0, text)) <==> |texts| < 10)
  {
    if texts == [] {
      steps := Connected(sub, device);
    } else {
      var n := |texts| - 1;
      var before := TenFit(sub, device, texts[..n]);
      RunSnoc(Init(sub), before, Type(0, texts[n]));
      steps := before + [Type(0, texts[n])];
    }
  }

  // ---- The broker inside, and the whole way ------------------------------------------

  /** What the broker gets to see of a run. */
  function BrokerSteps(steps: seq<Step>): seq<B.Step> {
    if steps == [] then []
    else
      (match steps[0]
       case Broker(b) => [b]
       case Hear => [B.Receive]
       case _ => []) + BrokerSteps(steps[1..])
  }

  /** Inside the server the broker makes runs of its own, so what holds of all of those holds here;
      and the listener has heard what was received in them. */
  lemma {:induction false} BrokerInside(s: State, steps: seq<Step>)
    requires Possible(s, steps)
    ensures B.Possible(s.broker, BrokerSteps(steps))
    ensures B.Run(s.broker, BrokerSteps(steps)) == Run(s, steps).broker
    decreases |steps|
  {
    if steps != [] {
      var rest := BrokerSteps(steps[1..]);
      BrokerInside(Apply(s, steps[0]), steps[1..]);
      match steps[0]
      case Broker(b) => assert BrokerSteps(steps)[1..] == rest;
      case Hear => assert BrokerSteps(steps)[1..] == rest;
      case _ => assert BrokerSteps(steps) == rest;
    }
  }

  /** A run of the broker up to the listener, behind whatever went before. */
  lemma {:induction false} Lift(sub: string, before: seq<Step>, more: seq<B.Step>) returns (steps: seq<Step>)
    requires Possible(Init(sub), before) && B.Receive !in more
    requires B.Possible(Run(Init(sub), before).broker, more)
    ensures Possible(Init(sub), steps)
    ensures var s := Run(Init(sub), before);
            Run(Init(sub), steps) == s.(broker := B.Run(s.broker, more))
    decreases |more|
  {
    if more == [] {
      steps := before;
    } else {
      RunSnoc(Init(sub), before, Broker(more[0]));
      steps := Lift(sub, before + [Broker(more[0])], more[1..]);
    }
  }

  lemma ForwardedInTheEnd(sub: string, session: string, device: string, text: string) returns (steps: seq<Step>)
    ensures Possible(Init(sub), steps)
    ensures var s := Run(Init(sub), steps);
            && s.clients == [NewClient(device).(stage := Inside)] && s.listener == Waiting && s.heard == []
            && s.broker.wild == [B.Entry(0, B.Message(sub, session, B.Transcription(device, text), 0))]
  {
    steps := Connected(sub, device);
    var more := BR.OneForwarded(sub, session, B.Transcription(device, text));
    steps := Lift(sub, steps, more);
  }

  lemma PutInTheEnd(sub: string, session: string, device: string, text: string) returns (steps: seq<Step>)
    ensures Possible(Init(sub), steps)
    ensures var s := Run(Init(sub), steps);
            && |s.clients| == 1 && s.clients[0].device == device && s.clients[0].stage == Inside
            && s.clients[0].put == [Routed(0, text)] && s.clients[0].input == [Routed(0, text)]
            && s.clients[0].chat == Listening && s.clients[0].output == [] && s.clients[0].spoken == []
  {
    var i := Init(sub);
    steps := ForwardedInTheEnd(sub, session, device, text);
    RunSnoc(i, steps, Hear); steps := steps + [Hear];
    RunSnoc(i, steps, Lookup(Some(0))); steps := steps + [Lookup(Some(0))];
    RunSnoc(i, steps, Deliver); steps := steps + [Deliver];
  }

  /** The whole way, for all strings: a run in which a transcription published while its device is
      connected is answered, and the answer spoken. */
  lemma SpokenInTheEnd(sub: string, session: string, device: string, text: string, reply: string)
    returns (steps: seq<Step>)
    ensures Possible(Init(sub), steps)
    ensures var s := Run(Init(sub), steps);
            && |s.clients| == 1 && s.clients[0].device == device
            && s.clients[0].put == [Routed(0, text)] && s.clients[0].spoken == [Said(reply)]
  {
    var i := Init(sub);
    steps := PutInTheEnd(sub, session, device, text);
    RunSnoc(i, steps, Consume(0, Reply(reply))); steps := steps + [Consume(0, Reply(reply))];
    RunSnoc(i, steps, Emit(0)); steps := steps + [Emit(0)];
    RunSnoc(i, steps, Speak(0)); steps := steps + [Speak(0)];
  }
}
