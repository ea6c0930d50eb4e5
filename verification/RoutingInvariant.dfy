/** What every reachable state of the routing pipeline satisfies. */
module RoutingInvariant {
  import opened RoutingModel
  import B = BrokerModel
  import BI = BrokerInvariant

  function Rendered(answers: seq<Answer>): seq<string> {
    seq(|answers|, i requires 0 <= i < |answers| => answers[i].Render())
  }

  function Owed(chat: Chat): seq<string> {
    if chat.Replying? then [chat.reply] else []
  }

  /** The replies among the lines, in order. */
  function RepliesIn(lines: seq<Line>): seq<string> {
    if lines == [] then []
    else
      var last := lines[|lines| - 1];
      RepliesIn(lines[..|lines| - 1]) + (if last.Said? then [last.text] else [])
  }

  lemma RepliesSnoc(lines: seq<Line>, l: Line)
    ensures RepliesIn(lines + [l]) == RepliesIn(lines) + (if l.Said? then [l.text] else [])
  {
    assert (lines + [l])[..|lines|] == lines;
  }

  lemma {:induction false} RepliesConcat(a: seq<Line>, b: seq<Line>)
    ensures RepliesIn(a + b) == RepliesIn(a) + RepliesIn(b)
  {
    if b == [] {
      assert a + b == a;
    } else {
      assert (a + b)[..|a + b| - 1] == a + b[..|b| - 1];
      RepliesConcat(a, b[..|b| - 1]);
    }
  }

  /** Every reply sent on is spoken or waits to be, in order; of the rest there is one greeting
      at most. */
  predicate VoiceOk(cl: Client) {
    && RepliesIn(cl.spoken + cl.output) == cl.emitted && |cl.output| <= OUTPUT_CAPACITY
    && |cl.spoken| + |cl.output| == |cl.emitted| + if cl.greeted then 1 else 0
  }

  /** `Close` takes effect once; the input channel is a FIFO; replies answer inputs in order;
      and a client on its way out of the hub is closed. */
  predicate ClientOk(cl: Client) {
    var once := if cl.closed then 1 else 0;
    && cl.cancels == once && cl.connCloses == once && cl.sendCloses == once
    && cl.put == cl.consumed + cl.input && |cl.input| <= INPUT_CAPACITY
    && |cl.answers| == |cl.consumed|
    && Rendered(cl.answers) == cl.emitted + Owed(cl.chat) && VoiceOk(cl)
    && (cl.stage.Leaving? || cl.stage.Gone? ==> cl.closed)
    && (cl.stage.Checked? ==> !cl.closed)
  }

  /** The hub goroutine is busy with exactly the clients in between stages. */
  predicate HubOk(s: State) {
    && (s.hub.Inserting? ==> s.hub.c < |s.clients|)
    && (s.hub.Removing? ==> s.hub.c < |s.clients|)
    && (forall c | 0 <= c < |s.clients| :: s.clients[c].stage.Handed? <==> s.hub == Inserting(c))
    && (forall c | 0 <= c < |s.clients| :: s.clients[c].stage.Leaving? <==> s.hub == Removing(c))
  }

  function Handled(s: State): nat {
    if s.listener.Waiting? || s.heard == [] then |s.heard| else |s.heard| - 1
  }

  predicate ListenerOk(s: State) {
    && (!s.listener.Waiting? ==> s.heard != [])
    && (s.listener.Sending? ==>
          && s.listener.c < |s.clients| && s.heard != []
          && Current(s).Transcription? && s.clients[s.listener.c].device == Current(s).deviceID)
  }

  /** A routed input is a message the listener is done with, addressed to this very device. */
  predicate RoutedOk(s: State, c: nat)
    requires c < |s.clients|
  {
    forall k | 0 <= k < |s.clients[c].put| && s.clients[c].put[k].Routed? ::
      var i := s.clients[c].put[k];
      i.n < Handled(s) && s.heard[i.n].msg.payload == B.Transcription(s.clients[c].device, i.text)
  }

  /** No message is put twice, into one channel or two. */
  predicate NoRepeat(s: State) {
    forall c, k, d, l | 0 <= c < |s.clients| && 0 <= d < |s.clients|
                        && 0 <= k < |s.clients[c].put| && 0 <= l < |s.clients[d].put|
                        && s.clients[c].put[k].Routed? && s.clients[d].put[l].Routed?
                        && s.clients[c].put[k].n == s.clients[d].put[l].n ::
      c == d && k == l
  }

  ghost predicate Inv(s: State) {
    && BI.Inv(s.broker) && s.heard == s.broker.received
    && HubOk(s) && ListenerOk(s)
    && (forall c | 0 <= c < |s.clients| :: ClientOk(s.clients[c]))
    && (forall c | 0 <= c < |s.clients| :: RoutedOk(s, c))
    && NoRepeat(s)
  }

  lemma InitOk(sub: string)
    ensures Inv(Init(sub))
  {
  }

  lemma BrokerKeeps(s: State, b: B.Step)
    requires Inv(s) && Enabled(s, Broker(b))
    ensures Inv(Apply(s, Broker(b)))
  {
    var t := Apply(s, Broker(b));
    BI.StepKeeps(s.broker, b);
    assert t.broker.received == s.broker.received;
    forall c | 0 <= c < |t.clients| ensures RoutedOk(t, c) {
      assert RoutedOk(s, c);
    }
  }

  lemma HearKeeps(s: State)
    requires Inv(s) && Enabled(s, Hear)
    ensures Inv(Apply(s, Hear))
  {
    var t := Apply(s, Hear);
    BI.StepKeeps(s.broker, B.Receive);
    forall c | 0 <= c < |t.clients| ensures RoutedOk(t, c) {
      assert RoutedOk(s, c);
    }
  }

  lemma ListenKeeps(s: State, listener: Listener)
    requires Inv(s) && !s.listener.Waiting?
    requires listener.Waiting? ||
             (listener.Sending? && s.heard != [] && Current(s).Transcription?
              && Matching(s, listener.c, Current(s).deviceID))
    ensures Inv(s.(listener := listener))
  {
    var t := s.(listener := listener);
    forall c | 0 <= c < |t.clients| ensures RoutedOk(t, c) {
      assert RoutedOk(s, c);
    }
  }

  /** A client changes without its put log or device being touched. */
  lemma ClientKeeps(s: State, c: nat, cl: Client)
    requires Inv(s) && c < |s.clients| && ClientOk(cl)
    requires cl.put == s.clients[c].put && cl.device == s.clients[c].device && cl.stage == s.clients[c].stage
    ensures Inv(With(s, c, cl))
  {
    var t := With(s, c, cl);
    forall d | 0 <= d < |t.clients| ensures RoutedOk(t, d) {
      assert RoutedOk(s, d);
    }
    NoRepeatSame(s, t);
  }

  lemma NoRepeatSame(s: State, t: State)
    requires NoRepeat(s) && |t.clients| == |s.clients|
    requires forall c | 0 <= c < |s.clients| :: t.clients[c].put == s.clients[c].put
    ensures NoRepeat(t)
  {
  }

  lemma StageKeeps(s: State, t: State, c: nat)
    requires Inv(s) && c < |s.clients| && |t.clients| == |s.clients|
    requires t == With(s.(hub := t.hub), c, s.clients[c].(stage := t.clients[c].stage))
    requires HubOk(t) && ClientOk(t.clients[c])
    ensures Inv(t)
  {
    forall d | 0 <= d < |t.clients| ensures RoutedOk(t, d) {
      assert RoutedOk(s, d);
    }
    NoRepeatSame(s, t);
  }

  lemma PutOk(cl: Client, i: Input)
    requires ClientOk(cl) && |cl.input| < INPUT_CAPACITY
    ensures ClientOk(Put(cl, i))
  {
    assert cl.put + [i] == cl.consumed + (cl.input + [i]);
  }

  /** One more entry in one put log repeats nothing if its number is new. */
  lemma NoRepeatPut(s: State, t: State, c: nat, i: Input)
    requires NoRepeat(s) && c < |s.clients| && |t.clients| == |s.clients|
    requires t.clients[c].put == s.clients[c].put + [i]
    requires forall d | 0 <= d < |s.clients| && d != c :: t.clients[d].put == s.clients[d].put
    requires i.Routed? ==>
               forall d, l | 0 <= d < |s.clients| && 0 <= l < |s.clients[d].put| && s.clients[d].put[l].Routed? ::
                 s.clients[d].put[l].n < i.n
    ensures NoRepeat(t)
  {
    forall d, k, e, l | 0 <= d < |t.clients| && 0 <= e < |t.clients|
                        && 0 <= k < |t.clients[d].put| && 0 <= l < |t.clients[e].put|
                        && t.clients[d].put[k].Routed? && t.clients[e].put[l].Routed?
                        && t.clients[d].put[k].n == t.clients[e].put[l].n
      ensures d == e && k == l
    {
      var oldK := k < |s.clients[d].put|;
      var oldL := l < |s.clients[e].put|;
      if oldK { assert t.clients[d].put[k] == s.clients[d].put[k]; }
      if oldL { assert t.clients[e].put[l] == s.clients[e].put[l]; }
    }
  }

  lemma RoutedBelow(s: State)
    requires Inv(s)
    ensures forall d, l | 0 <= d < |s.clients| && 0 <= l < |s.clients[d].put| && s.clients[d].put[l].Routed? ::
              s.clients[d].put[l].n < Handled(s)
  {
    forall d, l | 0 <= d < |s.clients| && 0 <= l < |s.clients[d].put| && s.clients[d].put[l].Routed?
      ensures s.clients[d].put[l].n < Handled(s)
    {
      assert RoutedOk(s, d);
    }
  }

  lemma TypeKeeps(s: State, c: nat, text: string)
    requires Inv(s) && Enabled(s, Type(c, text))
    ensures Inv(Apply(s, Type(c, text)))
  {
    PutOk(s.clients[c], Typed(text));
    TypeKeepsRouted(s, c, text);
    NoRepeatPut(s, Apply(s, Type(c, text)), c, Typed(text));
  }

  lemma TypeKeepsRouted(s: State, c: nat, text: string)
    requires Inv(s) && Enabled(s, Type(c, text))
    ensures var t := Apply(s, Type(c, text));
            forall d | 0 <= d < |t.clients| :: RoutedOk(t, d)
  {
    var t := Apply(s, Type(c, text));
    forall d | 0 <= d < |t.clients| ensures RoutedOk(t, d) {
      assert RoutedOk(s, d);
    }
  }

  lemma DeliverKeeps(s: State)
    requires Inv(s) && Enabled(s, Deliver)
    ensures Inv(Apply(s, Deliver))
  {
    var c := s.listener.c;
    var i := Routed(|s.heard| - 1, Current(s).text);
    PutOk(s.clients[c], i);
    DeliverKeepsRouted(s);
    RoutedBelow(s);
    NoRepeatPut(s, Apply(s, Deliver), c, i);
  }

  lemma DeliverKeepsRouted(s: State)
    requires Inv(s) && Enabled(s, Deliver)
    ensures var t := Apply(s, Deliver);
            forall d | 0 <= d < |t.clients| :: RoutedOk(t, d)
  {
    var t := Apply(s, Deliver);
    forall d | 0 <= d < |t.clients| ensures RoutedOk(t, d) {
      assert RoutedOk(s, d);
    }
  }

  lemma ConsumeOk(cl: Client, answer: Answer)
    requires ClientOk(cl) && cl.chat.Listening? && cl.input != []
    ensures ClientOk(Answered(cl, answer))
  {
    var t := Answered(cl, answer);
    assert cl.input == [cl.input[0]] + cl.input[1..];
    assert t.put == t.consumed + t.input;
    assert Rendered(t.answers) == Rendered(cl.answers) + [answer.Render()];
  }

  lemma EmitOk(cl: Client)
    requires ClientOk(cl) && cl.chat.Replying? && |cl.output| < OUTPUT_CAPACITY
    ensures ClientOk(Emitted(cl))
  {
    var line := Said(cl.chat.reply);
    assert cl.spoken + (cl.output + [line]) == cl.spoken + cl.output + [line];
    RepliesSnoc(cl.spoken + cl.output, line);
  }

  lemma GreetOk(cl: Client)
    requires ClientOk(cl) && !cl.greeted && |cl.output| < OUTPUT_CAPACITY
    ensures ClientOk(Greeted(cl))
  {
    assert cl.spoken + (cl.output + [Greeting]) == cl.spoken + cl.output + [Greeting];
    RepliesSnoc(cl.spoken + cl.output, Greeting);
  }

  lemma SpeakOk(cl: Client)
    requires ClientOk(cl) && cl.output != []
    ensures ClientOk(Spoke(cl))
  {
    assert cl.spoken + [cl.output[0]] + cl.output[1..] == cl.spoken + cl.output;
  }

  lemma CheckKeeps(s: State, device: string)
    requires Inv(s)
    ensures Inv(Apply(s, Check(device)))
  {
    var t := Apply(s, Check(device));
    CheckKeepsNoRepeat(s, device);
    forall d | 0 <= d < |t.clients| ensures RoutedOk(t, d) {
      if d < |s.clients| { assert RoutedOk(s, d); }
    }
    assert forall d | 0 <= d < |s.clients| :: t.clients[d] == s.clients[d];
  }

  lemma CheckKeepsNoRepeat(s: State, device: string)
    requires NoRepeat(s)
    ensures NoRepeat(Apply(s, Check(device)))
  {
    var t := Apply(s, Check(device));
    assert forall d | |s.clients| <= d < |t.clients| :: t.clients[d].put == [];
  }

  lemma RemoveKeeps(s: State)
    requires Inv(s) && Enabled(s, Remove)
    ensures Inv(Apply(s, Remove))
  {
    var t := Apply(s, Remove);
    forall d | 0 <= d < |t.clients| ensures RoutedOk(t, d) {
      assert RoutedOk(s, d);
    }
    NoRepeatSame(s, t);
  }

  lemma ChatKeeps(s: State, step: Step)
    requires Inv(s) && Enabled(s, step) && (step.Consume? || step.Emit? || step.Greet? || step.Speak?)
    ensures Inv(Apply(s, step))
  {
    match step
    case Consume(c, answer) =>
      ConsumeOk(s.clients[c], answer);
      ClientKeeps(s, c, Answered(s.clients[c], answer));
    case Emit(c) =>
      EmitOk(s.clients[c]);
      ClientKeeps(s, c, Emitted(s.clients[c]));
    case Greet(c) =>
      GreetOk(s.clients[c]);
      ClientKeeps(s, c, Greeted(s.clients[c]));
    case Speak(c) =>
      SpeakOk(s.clients[c]);
      ClientKeeps(s, c, Spoke(s.clients[c]));
  }

  predicate IsListening(step: Step) {
    step.Hear? || step.Drop? || step.Lookup? || step.Deliver? || step.Refuse?
  }

  lemma ListenerKeeps(s: State, step: Step)
    requires Inv(s) && Enabled(s, step) && IsListening(step)
    ensures Inv(Apply(s, step))
  {
    match step
    case Hear => HearKeeps(s);
    case Drop => ListenKeeps(s, Waiting);
    case Lookup(found) => ListenKeeps(s, if found.Some? then Sending(found.value) else Waiting);
    case Deliver => DeliverKeeps(s);
    case Refuse => ListenKeeps(s, Waiting);
  }

  predicate IsHub(step: Step) {
    step.Check? || step.HandRegister? || step.Insert? || step.HandUnregister? || step.Remove?
  }

  lemma HubKeeps(s: State, step: Step)
    requires Inv(s) && Enabled(s, step) && IsHub(step)
    ensures Inv(Apply(s, step))
  {
    match step
    case Check(device) => CheckKeeps(s, device);
    case HandRegister(c) => StageKeeps(s, Apply(s, step), c);
    case Insert => StageKeeps(s, Apply(s, step), s.hub.c);
    case HandUnregister(c) => StageKeeps(s, Apply(s, step), c);
    case Remove => RemoveKeeps(s);
  }

  lemma StepKeeps(s: State, step: Step)
    requires Inv(s) && Enabled(s, step)
    ensures Inv(Apply(s, step))
  {
    if IsListening(step) {
      ListenerKeeps(s, step);
    } else if IsHub(step) {
      HubKeeps(s, step);
    } else if step.Broker? {
      BrokerKeeps(s, step.step);
    } else if step.Type? {
      TypeKeeps(s, step.c, step.text);
    } else if step.Close? {
      ClientKeeps(s, step.c, Closed(s.clients[step.c]));
    } else {
      ChatKeeps(s, step);
    }
  }

  lemma {:induction false} RunKeeps(s: State, steps: seq<Step>)
    requires Inv(s) && Possible(s, steps)
    ensures Inv(Run(s, steps))
    decreases |steps|
  {
    if steps != [] {
      StepKeeps(s, steps[0]);
      RunKeeps(Apply(s, steps[0]), steps[1..]);
    }
  }
}
