/** The channel-based message broker as a step system.

    A step is one stretch of the Go code that no other goroutine can split: a critical
    section of the broker's lock, one channel operation, or one hand-over. A run is any
    sequence of enabled steps, so a statement about all runs covers every interleaving of
    publishers, the polling goroutine, its forwarders, the listener and `Close`. */
module BrokerModel {

  const CAPACITY: nat := 100

  /** What a publisher hands over, as the listener will decode it. */
  datatype Payload = Transcription(deviceID: string, text: string) | Undecodable

  /** A broker message; `id` numbers the Publish call that built it. */
  datatype Message = Message(topic: string, routingKey: string, payload: Payload, id: nat)

  function MakeKey(topic: string, routingKey: string): string {
    topic + ":" + routingKey
  }

  /** `strings.HasPrefix(key, topic + ":")` */
  predicate Matches(key: string, topic: string) {
    topic + ":" <= key
  }

  /** The forwarder goroutine of one channel: not started, receiving from its channel, blocked
      sending one message to the wildcard channel, or returned. */
  datatype Forwarder = Undiscovered | Idle | Holding(msg: Message) | Exited

  /** One Go channel and its history: `accepted` logs every message ever sent into it. */
  datatype Channel = Channel(key: string, buf: seq<Message>, open: bool, fwd: Forwarder, accepted: seq<Message>)

  /** A message in or past the wildcard channel, with the channel it was forwarded from. */
  datatype Entry = Entry(from: nat, msg: Message)

  datatype Outcome =
    | Accepted(ch: nat, at: nat)
    | Refused
    | Full
    | Cancelled
    | Panicked

  /** Where a Publish call stands.
      `Missing` and `Created` hold no lock; `Ready` holds the read lock. */
  datatype Phase =
    | Missing
    | Created(ch: nat)
    | Ready(ch: nat, creator: bool)
    | Returned(outcome: Outcome)

  datatype Call = Call(topic: string, routingKey: string, payload: Payload, phase: Phase) {
    function Key(): string { MakeKey(topic, routingKey) }
    function Msg(id: nat): Message { Message(topic, routingKey, payload, id) }
  }

  /** `sub` is the topic of the one wildcard subscription and `found` its `topicChannels` map;
      channels are numbered in order of creation. */
  datatype State = State(
    sub: string,
    topics: map<string, nat>,
    closed: bool,
    chans: seq<Channel>,
    found: map<string, nat>,
    wild: seq<Entry>,
    received: seq<Entry>,
    calls: seq<Call>)

  function Init(sub: string): State {
    State(sub, map[], false, [], map[], [], [], [])
  }

  datatype Step =
    | Begin(topic: string, routingKey: string, payload: Payload)
    | Create(call: nat)
    | Relock(call: nat)
    | Select(call: nat)
    | Cancel(call: nat)
    | SubscribeKey(topic: string, routingKey: string)
    | Close
    | Discover(key: string)
    | Take(ch: nat)
    | Put(ch: nat)
    | Exit(ch: nat)
    | Receive

  /** Nobody holds the read lock, so the write lock is free to take. */
  predicate NoReaders(s: State) {
    forall i | 0 <= i < |s.calls| :: !s.calls[i].phase.Ready?
  }

  predicate Enabled(s: State, step: Step) {
    match step
    case Begin(_, _, _) => true
    case Create(i) => i < |s.calls| && s.calls[i].phase.Missing? && NoReaders(s)
    case Relock(i) => i < |s.calls| && s.calls[i].phase.Created?
    case Select(i) => i < |s.calls| && s.calls[i].phase.Ready? && s.calls[i].phase.ch < |s.chans|
    case Cancel(i) => i < |s.calls| && s.calls[i].phase.Ready?
    case SubscribeKey(_, routingKey) => routingKey != "" && NoReaders(s)
    case Close => NoReaders(s)
    case Discover(k) => k in s.topics && s.topics[k] < |s.chans| && Matches(k, s.sub) && k !in s.found
    case Take(c) => c < |s.chans| && s.chans[c].fwd.Idle? && s.chans[c].buf != []
    case Put(c) => c < |s.chans| && s.chans[c].fwd.Holding? && |s.wild| < CAPACITY
    case Exit(c) => c < |s.chans| && s.chans[c].fwd.Idle? && s.chans[c].buf == [] && !s.chans[c].open
    case Receive => s.wild != []
  }

  function WithPhase(s: State, i: nat, phase: Phase): State
    requires i < |s.calls|
  {
    s.(calls := s.calls[i := s.calls[i].(phase := phase)])
  }

  function WithForwarder(s: State, c: nat, fwd: Forwarder): State
    requires c < |s.chans|
  {
    s.(chans := s.chans[c := s.chans[c].(fwd := fwd)])
  }

  function FreshChannel(key: string): Channel {
    Channel(key, [], true, Undiscovered, [])
  }

  /** `make(chan domain.Message, 100)` stored under `key`, replacing whatever was there. */
  function Store(s: State, key: string): State {
    s.(chans := s.chans + [FreshChannel(key)], topics := s.topics[key := |s.chans|])
  }

  predicate Listed(s: State, c: nat) {
    c < |s.chans| && s.chans[c].key in s.topics && s.topics[s.chans[c].key] == c
  }

  function Begun(s: State, topic: string, routingKey: string, payload: Payload): State {
    var key := MakeKey(topic, routingKey);
    var phase :=
      if s.closed then Returned(Refused)
      else if key in s.topics then Ready(s.topics[key], false)
      else Missing;
    s.(calls := s.calls + [Call(topic, routingKey, payload, phase)])
  }

  /** The three-way select of Publish once its context is still alive. */
  function Selected(s: State, i: nat): State
    requires Enabled(s, Select(i))
  {
    var c := s.calls[i].phase.ch;
    var ch := s.chans[c];
    if !ch.open then WithPhase(s, i, Returned(Panicked))
    else if |ch.buf| < CAPACITY then
      var m := s.calls[i].Msg(i);
      WithPhase(s.(chans := s.chans[c := ch.(buf := ch.buf + [m], accepted := ch.accepted + [m])]),
                i, Returned(Accepted(c, |ch.accepted|)))
    else WithPhase(s, i, Returned(Full))
  }

  function AfterClose(s: State, c: nat): Channel
    requires c < |s.chans|
  {
    if Listed(s, c) then s.chans[c].(open := false) else s.chans[c]
  }

  function Closed(s: State): State {
    if s.closed then s
    else s.(closed := true,
            chans := seq(|s.chans|, c requires 0 <= c < |s.chans| => AfterClose(s, c)),
            topics := map[])
  }

  function Taken(s: State, c: nat): State
    requires Enabled(s, Take(c))
  {
    var ch := s.chans[c];
    s.(chans := s.chans[c := ch.(buf := ch.buf[1..], fwd := Holding(ch.buf[0]))])
  }

  function PutDown(s: State, c: nat): State
    requires Enabled(s, Put(c))
  {
    WithForwarder(s.(wild := s.wild + [Entry(c, s.chans[c].fwd.msg)]), c, Idle)
  }

  function Apply(s: State, step: Step): State
    requires Enabled(s, step)
  {
    match step
    case Begin(topic, routingKey, payload) => Begun(s, topic, routingKey, payload)
    case Create(i) => WithPhase(Store(s, s.calls[i].Key()), i, Created(|s.chans|))
    case Relock(i) => WithPhase(s, i, Ready(s.calls[i].phase.ch, true))
    case Select(i) => Selected(s, i)
    case Cancel(i) => WithPhase(s, i, Returned(Cancelled))
    case SubscribeKey(topic, routingKey) =>
      var key := MakeKey(topic, routingKey);
      if s.closed || key in s.topics then s else Store(s, key)
    case Close => Closed(s)
    case Discover(k) => WithForwarder(s.(found := s.found[k := s.topics[k]]), s.topics[k], Idle)
    case Take(c) => Taken(s, c)
    case Put(c) => PutDown(s, c)
    case Exit(c) => WithForwarder(s, c, Exited)
    case Receive => s.(received := s.received + [s.wild[0]], wild := s.wild[1..])
  }

  /** Every step of the sequence is enabled when its turn comes. */
  predicate Possible(s: State, steps: seq<Step>)
    decreases |steps|
  {
    steps == [] || (Enabled(s, steps[0]) && Possible(Apply(s, steps[0]), steps[1..]))
  }

  function Run(s: State, steps: seq<Step>): State
    requires Possible(s, steps)
    decreases |steps|
  {
    if steps == [] then s else Run(Apply(s, steps[0]), steps[1..])
  }

  /** The messages of `log` that were forwarded from channel `c`, in order. */
  function From(log: seq<Entry>, c: nat): seq<Message> {
    if log == [] then []
    else
      var e := log[|log| - 1];
      From(log[..|log| - 1], c) + (if e.from == c then [e.msg] else [])
  }

  function Hand(fwd: Forwarder): seq<Message> {
    if fwd.Holding? then [fwd.msg] else []
  }
}
