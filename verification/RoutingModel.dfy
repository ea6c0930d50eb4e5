/** The server around the broker: the hub goroutine, the websocket handlers and their clients,
    the transcription listener and each client's chat loop, as one step system. */
module RoutingModel {
  import B = BrokerModel

  const INPUT_CAPACITY: nat := 10
  const OUTPUT_CAPACITY: nat := 10
  const GREETING: string := "Halo Yaya, apa kabar?"

  datatype Option<T> = None | Some(value: T)

  /** What sits in a client's input channel: the `n`-th message the listener heard, or text
      from the client's own socket. */
  datatype Input = Routed(n: nat, text: string) | Typed(text: string)

  /** What the language model returns for one input. */
  datatype Answer = Reply(text: string) | Failure(error: string) {
    function Render(): string { if Reply? then text else "ERROR: " + error }
  }

  datatype Chat = Listening | Replying(reply: string)

  /** What sits in a client's output channel. */
  datatype Line = Greeting | Said(text: string) {
    function Text(): string { if Greeting? then GREETING else text }
  }

  /** From the admission check to leaving the hub's map. */
  datatype Stage = Checked | Handed | Inside | Leaving | Gone

  /** `put` logs everything ever sent to the input channel, `consumed`, `answers` and `emitted`
      what the chat loop took, was answered and sent on, `spoken` what the response handler took
      from the output channel; the three counters count how often `Close` cancelled the context,
      closed the connection and closed the send channel. */
  datatype Client = Client(
    device: string, stage: Stage, closed: bool,
    cancels: nat, connCloses: nat, sendCloses: nat,
    input: seq<Input>, put: seq<Input>, consumed: seq<Input>,
    chat: Chat, answers: seq<Answer>, emitted: seq<string>,
    greeted: bool, output: seq<Line>, spoken: seq<Line>)

  function NewClient(device: string): Client {
    Client(device, Checked, false, 0, 0, 0, [], [], [], Listening, [], [], false, [], [])
  }

  datatype Hub = Idle | Inserting(c: nat) | Removing(c: nat)

  datatype Listener = Waiting | Handling | Sending(c: nat)

  /** `heard` is the listener's log; its last entry is the one in hand unless it is waiting. */
  datatype State = State(
    broker: B.State, clients: seq<Client>, hub: Hub, listener: Listener, heard: seq<B.Entry>)

  function Init(sub: string): State {
    State(B.Init(sub), [], Idle, Waiting, [])
  }

  datatype Step =
    | Broker(step: B.Step)
    | Hear
    | Drop
    | Lookup(found: Option<nat>)
    | Deliver
    | Refuse
    | Type(c: nat, text: string)
    | Consume(c: nat, answer: Answer)
    | Emit(c: nat)
    | Greet(c: nat)
    | Speak(c: nat)
    | Check(device: string)
    | HandRegister(c: nat)
    | Insert
    | HandUnregister(c: nat)
    | Remove
    | Close(c: nat)

  predicate InHub(cl: Client) { cl.stage.Inside? || cl.stage.Leaving? }

  /** The client's goroutines have been started. */
  predicate Running(cl: Client) { !cl.stage.Checked? }

  /** One client `GetClientByDevice` may return; the map's order decides which. */
  predicate Matching(s: State, c: nat, device: string) {
    c < |s.clients| && InHub(s.clients[c]) && s.clients[c].device == device && !s.clients[c].closed
  }

  predicate NoMatch(s: State, device: string) {
    forall c | 0 <= c < |s.clients| :: !Matching(s, c, device)
  }

  predicate InHand(s: State) { !s.listener.Waiting? && s.heard != [] }

  function Current(s: State): B.Payload
    requires InHand(s)
  {
    s.heard[|s.heard| - 1].msg.payload
  }

  predicate Enabled(s: State, step: Step) {
    match step
    case Broker(b) => !b.Receive? && B.Enabled(s.broker, b)
    case Hear => s.listener.Waiting? && B.Enabled(s.broker, B.Receive)
    case Drop => s.listener.Handling? && InHand(s) && Current(s).Undecodable?
    case Lookup(found) =>
      s.listener.Handling? && InHand(s) && Current(s).Transcription? &&
      (match found
       case None => NoMatch(s, Current(s).deviceID)
       case Some(c) => Matching(s, c, Current(s).deviceID))
    case Deliver => HasRoom(s)
    case Refuse => s.listener.Sending? && s.listener.c < |s.clients| && InHand(s) &&
      (s.clients[s.listener.c].closed || |s.clients[s.listener.c].input| >= INPUT_CAPACITY)
    case Type(c, _) => c < |s.clients| && Running(s.clients[c]) && |s.clients[c].input| < INPUT_CAPACITY
    case Consume(c, _) => c < |s.clients| && Running(s.clients[c]) && s.clients[c].chat.Listening?
      && s.clients[c].input != []
    case Emit(c) => c < |s.clients| && s.clients[c].chat.Replying? && |s.clients[c].output| < OUTPUT_CAPACITY
    case Greet(c) => c < |s.clients| && Running(s.clients[c]) && !s.clients[c].greeted
      && |s.clients[c].output| < OUTPUT_CAPACITY
    case Speak(c) => c < |s.clients| && s.clients[c].output != []
    case Check(_) => true
    case HandRegister(c) => c < |s.clients| && s.clients[c].stage.Checked? && s.hub.Idle?
    case Insert => s.hub.Inserting? && s.hub.c < |s.clients|
    case HandUnregister(c) => c < |s.clients| && s.clients[c].stage.Inside? && s.clients[c].closed && s.hub.Idle?
    case Remove => s.hub.Removing? && s.hub.c < |s.clients|
    case Close(c) => c < |s.clients| && Running(s.clients[c])
  }

  predicate HasRoom(s: State) {
    && s.listener.Sending? && s.listener.c < |s.clients| && InHand(s) && Current(s).Transcription?
    && |s.clients[s.listener.c].input| < INPUT_CAPACITY
  }

  function With(s: State, c: nat, cl: Client): State
    requires c < |s.clients|
  {
    s.(clients := s.clients[c := cl])
  }

  function Put(cl: Client, i: Input): Client {
    cl.(input := cl.input + [i], put := cl.put + [i])
  }

  /** `Client.Close` */
  function Closed(cl: Client): Client {
    if cl.closed then cl
    else cl.(closed := true, cancels := cl.cancels + 1, connCloses := cl.connCloses + 1,
                 sendCloses := cl.sendCloses + 1)
  }

  /** One round of the chat loop up to the reply. */
  function Answered(cl: Client, answer: Answer): Client
    requires cl.input != []
  {
    cl.(input := cl.input[1..], consumed := cl.consumed + [cl.input[0]],
        answers := cl.answers + [answer], chat := Replying(answer.Render()))
  }

  function Emitted(cl: Client): Client
    requires cl.chat.Replying?
  {
    cl.(chat := Listening, emitted := cl.emitted + [cl.chat.reply], output := cl.output + [Said(cl.chat.reply)])
  }

  /** The goroutine that greets the child once. */
  function Greeted(cl: Client): Client {
    cl.(greeted := true, output := cl.output + [Greeting])
  }

  /** The response handler takes a line. */
  function Spoke(cl: Client): Client
    requires cl.output != []
  {
    cl.(output := cl.output[1..], spoken := cl.spoken + [cl.output[0]])
  }

  /** The hub's unregister branch. */
  function Removed(s: State, c: nat): State
    requires c < |s.clients|
  {
    With(s.(hub := Idle), c, Closed(s.clients[c]).(stage := Gone))
  }

  function Apply(s: State, step: Step): State
    requires Enabled(s, step)
  {
    match step
    case Broker(b) => s.(broker := B.Apply(s.broker, b))
    case Hear => s.(broker := B.Apply(s.broker, B.Receive), heard := s.heard + [s.broker.wild[0]], listener := Handling)
    case Drop => s.(listener := Waiting)
    case Lookup(found) => s.(listener := if found.Some? then Sending(found.value) else Waiting)
    case Deliver =>
      With(s, s.listener.c, Put(s.clients[s.listener.c], Routed(|s.heard| - 1, Current(s).text))).(listener := Waiting)
    case Refuse => s.(listener := Waiting)
    case Type(c, text) => With(s, c, Put(s.clients[c], Typed(text)))
    case Consume(c, answer) => With(s, c, Answered(s.clients[c], answer))
    case Emit(c) => With(s, c, Emitted(s.clients[c]))
    case Greet(c) => With(s, c, Greeted(s.clients[c]))
    case Speak(c) => With(s, c, Spoke(s.clients[c]))
    case Check(device) =>
      if NoMatch(s, device) then s.(clients := s.clients + [NewClient(device)]) else s
    case HandRegister(c) => With(s.(hub := Inserting(c)), c, s.clients[c].(stage := Handed))
    case Insert => With(s.(hub := Idle), s.hub.c, s.clients[s.hub.c].(stage := Inside))
    case HandUnregister(c) => With(s.(hub := Removing(c)), c, s.clients[c].(stage := Leaving))
    case Remove => Removed(s, s.hub.c)
    case Close(c) => With(s, c, Closed(s.clients[c]))
  }

  predicate Possible(s: State, steps: seq<Step>)
    decreases |steps|
  {
    steps == [] || (Enabled(s, steps[0]) && Possible(Apply(s, steps[0]), steps[1..]))
  }

  function Run(s: State, steps: seq<Step>): State
    requires Possible(s, steps)
    decreases |steps|
  {
    if steps == [] then s else Run(Apply(s, steps[0]), steps[1..])
  }
}
