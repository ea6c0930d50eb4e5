/** The broker object itself: each method is one uninterrupted stretch of the Go code, and its
    contract ties the new fields to the step (or the run of steps) it performs. */
module Broker {
  import opened BrokerModel
  import opened BrokerInvariant
  import opened BrokerRuns

  /** The steps of a Publish call that nothing interrupts. */
  function PublishSteps(s: State, topic: string, routingKey: string, payload: Payload, alive: bool): seq<Step> {
    var i := |s.calls|;
    [Begin(topic, routingKey, payload)]
    + (if s.closed then []
       else (if MakeKey(topic, routingKey) in s.topics then [] else [Create(i), Relock(i)])
            + [if alive then Select(i) else Cancel(i)])
  }

  /** The two lock phases that store a channel for a missing key. */
  function Provided(s: State, i: nat): State
    requires Enabled(s, Create(i))
  {
    Apply(Apply(s, Create(i)), Relock(i))
  }

  function LastStep(i: nat, alive: bool): Step {
    if alive then Select(i) else Cancel(i)
  }

  lemma RunOne(s: State, a: Step)
    requires Enabled(s, a)
    ensures Possible(s, [a]) && Run(s, [a]) == Apply(s, a)
  {
    RunSnoc(s, [], a);
  }

  lemma RunTwo(s: State, a: Step, b: Step)
    requires Enabled(s, a) && Enabled(Apply(s, a), b)
    ensures Possible(s, [a, b]) && Run(s, [a, b]) == Apply(Apply(s, a), b)
  {
    RunOne(s, a);
    RunSnoc(s, [a], b);
    assert [a] + [b] == [a, b];
  }

  lemma RunFour(s: State, a: Step, b: Step, c: Step, d: Step)
    requires Enabled(s, a) && Enabled(Apply(s, a), b) && Enabled(Apply(Apply(s, a), b), c)
    requires Enabled(Apply(Apply(Apply(s, a), b), c), d)
    ensures Possible(s, [a, b, c, d])
    ensures Run(s, [a, b, c, d]) == Apply(Apply(Apply(Apply(s, a), b), c), d)
  {
    RunTwo(s, a, b);
    RunSnoc(s, [a, b], c);
    RunSnoc(s, [a, b] + [c], d);
    assert [a, b] + [c] + [d] == [a, b, c, d];
  }

  lemma PublishIsRun(s: State, topic: string, routingKey: string, payload: Payload, alive: bool)
    requires Inv(s) && NoReaders(s) && !s.closed
    ensures var i, first := |s.calls|, Begin(topic, routingKey, payload); var looked := Apply(s, first);
            && (MakeKey(topic, routingKey) in s.topics ==>
                  Enabled(looked, LastStep(i, alive))
                  && Possible(s, PublishSteps(s, topic, routingKey, payload, alive))
                  && Run(s, PublishSteps(s, topic, routingKey, payload, alive)) == Apply(looked, LastStep(i, alive)))
            && (MakeKey(topic, routingKey) !in s.topics ==>
                  Enabled(looked, Create(i)) && Enabled(Provided(looked, i), LastStep(i, alive))
                  && Possible(s, PublishSteps(s, topic, routingKey, payload, alive))
                  && Run(s, PublishSteps(s, topic, routingKey, payload, alive))
                     == Apply(Provided(looked, i), LastStep(i, alive)))
  {
    var i, first := |s.calls|, Begin(topic, routingKey, payload);
    if MakeKey(topic, routingKey) in s.topics {
      assert PublishSteps(s, topic, routingKey, payload, alive) == [first, LastStep(i, alive)];
      RunTwo(s, first, LastStep(i, alive));
    } else {
      assert PublishSteps(s, topic, routingKey, payload, alive)
             == [first, Create(i), Relock(i), LastStep(i, alive)];
      RunFour(s, first, Create(i), Relock(i), LastStep(i, alive));
    }
  }

  /** Channel `c` has taken in `m` behind everything else; no other channel has changed. */
  predicate Grows(before: seq<Channel>, after: seq<Channel>, c: nat, m: Message) {
    && |after| == |before| && c < |after|
    && after[c].buf == before[c].buf + [m] && after[c].accepted == before[c].accepted + [m]
    && after[c].open && after[c].key == before[c].key && after[c].fwd == before[c].fwd
    && forall d | 0 <= d < |after| && d != c :: after[d] == before[d]
  }

  /** What sending `m` on channel `c` of an open broker comes to: with a live context it is refused
      exactly if the channel holds 100 messages. */
  predicate Settles(before: seq<Channel>, after: seq<Channel>, c: nat, m: Message, alive: bool, outcome: Outcome) {
    && c < |before|
    && outcome == (if !alive then Cancelled
                   else if |before[c].buf| < 100 then Accepted(c, |before[c].accepted|)
                   else Full)
    && (if outcome.Accepted? then Grows(before, after, c, m) else after == before)
  }

  class ChannelMessageBroker {
    const sub: string
    var topics: map<string, nat>
    var closed: bool
    var chans: seq<Channel>
    var found: map<string, nat>
    var wild: seq<Entry>
    var received: seq<Entry>
    var calls: seq<Call>

    ghost function View(): State
      reads this
    {
      State(sub, topics, closed, chans, found, wild, received, calls)
    }

    constructor (sub: string)
      ensures View() == Init(sub) && Inv(View())
    {
      this.sub := sub;
      topics, closed, chans, found, wild, received, calls := map[], false, [], map[], [], [], [];
    }

    method SetPhase(i: nat, phase: Phase)
      requires i < |calls|
      modifies this`calls
      ensures View() == WithPhase(old(View()), i, phase)
    {
      calls := calls[i := calls[i].(phase := phase)];
    }

    method MakeChannel(key: string)
      modifies this`chans, this`topics
      ensures View() == Store(old(View()), key)
    {
      topics := topics[key := |chans|];
      chans := chans + [Channel(key, [], true, Undiscovered, [])];
    }

    method Lookup(topic: string, routingKey: string, payload: Payload) returns (i: nat)
      requires Inv(View())
      modifies this`calls
      ensures i == old(|calls|)
      ensures View() == Apply(old(View()), Begin(topic, routingKey, payload)) && Inv(View())
      ensures var key := topic + ":" + routingKey;
              calls == old(calls) + [Call(topic, routingKey, payload,
                                          if closed then Returned(Refused)
                                          else if key in topics then Ready(topics[key], false) else Missing)]
    {
      BeginKeeps(View(), topic, routingKey, payload);
      i := |calls|;
      calls := calls + [Call(topic, routingKey, payload, Missing)];
      if closed {
        SetPhase(i, Returned(Refused));
      } else if MakeKey(topic, routingKey) in topics {
        SetPhase(i, Ready(topics[MakeKey(topic, routingKey)], false));
      }
    }

    method CreateChannel(i: nat)
      requires Inv(View()) && Enabled(View(), Create(i))
      modifies this`calls, this`chans, this`topics
      ensures View() == Apply(old(View()), Create(i)) && Inv(View())
      ensures var key := old(calls)[i].topic + ":" + old(calls)[i].routingKey;
              && chans == old(chans) + [Channel(key, [], true, Undiscovered, [])]
              && topics == old(topics)[key := old(|chans|)]
      ensures calls == old(calls)[i := old(calls)[i].(phase := Created(old(|chans|)))]
    {
      StepKeeps(View(), Create(i));
      var c := |chans|;
      MakeChannel(calls[i].Key());
      SetPhase(i, Created(c));
    }

    method Send(i: nat, alive: bool) returns (outcome: Outcome)
      requires Inv(View()) && Enabled(View(), Select(i))
      modifies this`calls, this`chans
      ensures View() == Apply(old(View()), if alive then Select(i) else Cancel(i)) && Inv(View())
      ensures i < |calls| && calls[i].phase == Returned(outcome)
      ensures var ch := old(chans[calls[i].phase.ch]);
              && (outcome.Cancelled? <==> !alive) && (outcome.Panicked? <==> alive && !ch.open)
              && (outcome.Accepted? <==> alive && ch.open && |ch.buf| < 100)
              && (outcome.Full? <==> alive && ch.open && 100 <= |ch.buf|)
      ensures !outcome.Accepted? ==> chans == old(chans)
      ensures outcome.Accepted? ==>
                var c, call := old(calls[i].phase.ch), old(calls[i]);
                outcome == Accepted(c, |old(chans[c].accepted)|)
                && Grows(old(chans), chans, c, Message(call.topic, call.routingKey, call.payload, i))
    {
      StepKeeps(View(), if alive then Select(i) else Cancel(i));
      var c := calls[i].phase.ch;
      if !alive {
        outcome := Cancelled;
      } else if !chans[c].open {
        outcome := Panicked;
      } else if |chans[c].buf| < CAPACITY {
        outcome := Accepted(c, |chans[c].accepted|);
        var m := calls[i].Msg(i);
        chans := chans[c := chans[c].(buf := chans[c].buf + [m], accepted := chans[c].accepted + [m])];
      } else {
        outcome := Full;
      }
      SetPhase(i, Returned(outcome));
    }

    /** Give up the read lock, store a channel for the key, take the read lock again. */
    method Provide(i: nat)
      requires Inv(View()) && Enabled(View(), Create(i))
      modifies this`calls, this`chans, this`topics
      ensures View() == Provided(old(View()), i) && Inv(View())
      ensures i < |old(calls)| && calls == old(calls)[i := old(calls)[i].(phase := Ready(old(|chans|), true))]
      ensures chans == old(chans) + [Channel(old(calls)[i].Key(), [], true, Undiscovered, [])]
      ensures topics == old(topics)[old(calls)[i].Key() := old(|chans|)]
    {
      CreateChannel(i);
      StepKeeps(View(), Relock(i));
      SetPhase(i, Ready(calls[i].phase.ch, true));
    }

    /** What is left of a call once it has looked its key up. */
    method Complete(i: nat, alive: bool) returns (outcome: Outcome)
      requires Inv(View()) && i < |calls|
      requires calls[i].phase.Missing? ==> Enabled(View(), Create(i))
      requires !calls[i].phase.Missing? ==> calls[i].phase.Ready? && !calls[i].phase.creator
      requires forall j | 0 <= j < |calls| && j != i :: !calls[j].phase.Ready?
      modifies this`calls, this`chans, this`topics
      ensures Enabled(if old(calls[i].phase).Missing? then Provided(old(View()), i) else old(View()),
                      LastStep(i, alive))
      ensures View() == Apply(if old(calls[i].phase).Missing? then Provided(old(View()), i) else old(View()),
                              LastStep(i, alive))
      ensures Inv(View()) && |calls| == old(|calls|) && calls[i].phase == Returned(outcome)
      ensures NoReaders(View()) && outcome != Refused
      ensures var call := old(calls)[i]; var m := Message(call.topic, call.routingKey, call.payload, i);
              if call.phase.Missing? then
                && Settles(old(chans) + [Channel(call.Key(), [], true, Undiscovered, [])], chans,
                           old(|chans|), m, alive, outcome)
                && topics == old(topics)[call.Key() := old(|chans|)]
              else Settles(old(chans), chans, call.phase.ch, m, alive, outcome) && topics == old(topics)
      ensures calls == old(calls)[i := old(calls)[i].(phase := Returned(outcome))]
    {
      if calls[i].phase.Missing? {
        Provide(i);
      }
      assert CallOk(View(), i);
      outcome := Send(i, alive);
    }

    /** The whole call, when no other goroutine holds the read lock it must give up. */
    method Publish(topic: string, routingKey: string, payload: Payload, alive: bool) returns (outcome: Outcome)
      requires Inv(View()) && NoReaders(View())
      modifies this`calls, this`chans, this`topics
      ensures Possible(old(View()), PublishSteps(old(View()), topic, routingKey, payload, alive))
      ensures View() == Run(old(View()), PublishSteps(old(View()), topic, routingKey, payload, alive))
      ensures Inv(View()) && NoReaders(View())
      ensures outcome.Refused? <==> old(closed)
      ensures var key := topic + ":" + routingKey;
              && (key in old(topics) ==> old(topics)[key] < old(|chans|))
              && (outcome.Accepted? <==>
                    alive && !old(closed) && (key !in old(topics) || |old(chans)[old(topics)[key]].buf| < 100))
      ensures var key, m := topic + ":" + routingKey, Message(topic, routingKey, payload, old(|calls|));
              if old(closed) then chans == old(chans) && topics == old(topics)
              else if key in old(topics) then
                Settles(old(chans), chans, old(topics)[key], m, alive, outcome) && topics == old(topics)
              else
                && Settles(old(chans) + [Channel(key, [], true, Undiscovered, [])], chans,
                           old(|chans|), m, alive, outcome)
                && topics == old(topics)[key := old(|chans|)]
      ensures calls == old(calls) + [Call(topic, routingKey, payload, Returned(outcome))]
    {
      ghost var start := View();
      ghost var first := Begin(topic, routingKey, payload);
      var i := Lookup(topic, routingKey, payload);
      if calls[i].phase.Returned? {
        RunOne(start, first);
        return Refused;
      }
      PublishIsRun(start, topic, routingKey, payload, alive);
      outcome := Complete(i, alive);
    }

    /** Subscribe with a routing key; without one it starts the wildcard subscription. */
    method SubscribeSpecific(topic: string, routingKey: string) returns (c: nat, ok: bool)
      requires Inv(View()) && NoReaders(View()) && routingKey != ""
      modifies this`chans, this`topics
      ensures View() == Apply(old(View()), SubscribeKey(topic, routingKey)) && Inv(View())
      ensures ok <==> !old(closed)
      ensures ok ==>
                var key := topic + ":" + routingKey;
                && key in topics && topics[key] == c && c < |chans| && chans[c].key == key
                && (key in old(topics) ==> chans == old(chans) && topics == old(topics))
                && (key !in old(topics) ==> c == old(|chans|) && topics == old(topics)[key := c]
                                            && chans == old(chans) + [Channel(key, [], true, Undiscovered, [])])
      ensures !ok ==> chans == old(chans) && topics == old(topics)
    {
      StepKeeps(View(), SubscribeKey(topic, routingKey));
      if closed {
        return 0, false;
      }
      var key := MakeKey(topic, routingKey);
      if key !in topics {
        MakeChannel(key);
      }
      return topics[key], true;
    }

    method Close()
      requires Inv(View()) && NoReaders(View())
      modifies this`closed, this`chans, this`topics
      ensures View() == Apply(old(View()), BrokerModel.Close) && Inv(View())
      ensures closed && |chans| == old(|chans|)
      ensures old(closed) ==> chans == old(chans) && topics == old(topics)
      ensures !old(closed) ==> topics == map[]
      ensures !old(closed) ==> forall c | 0 <= c < |chans| ::
                chans[c] == old(chans)[c].(open := old(chans)[c].open && c !in old(topics).Values)
    {
      CloseKeeps(View());
      if closed {
        return;
      }
      closed := true;
      var left := topics.Keys;
      while left != {}
        invariant closed && left <= topics.Keys && topics == old(topics) && |chans| == old(|chans|)
        invariant forall c | 0 <= c < |chans| ::
                    chans[c] == if Listed(old(View()), c) && chans[c].key !in left
                                then old(chans)[c].(open := false) else old(chans)[c]
        decreases |left|
      {
        var key :| key in left;
        left := left - {key};
        var c := topics[key];
        assert chans[c].open;
        chans := chans[c := chans[c].(open := false)];
      }
      assert chans == Closed(old(View())).chans;
      topics := map[];
    }

    method StartForwarder(key: string)
      requires Inv(View()) && Enabled(View(), Discover(key))
      modifies this`found, this`chans
      ensures View() == Apply(old(View()), Discover(key)) && Inv(View())
      ensures key in topics && topics[key] < old(|chans|) && found == old(found)[key := topics[key]]
      ensures chans == old(chans)[topics[key] := old(chans)[topics[key]].(fwd := Idle)]
    {
      DiscoverKeeps(View(), key);
      var c := topics[key];
      found := found[key := c];
      chans := chans[c := chans[c].(fwd := Idle)];
    }

    /** One pass of the polling loop over the map: afterwards nothing is left to discover. */
    method Poll() returns (ghost steps: seq<Step>)
      requires Inv(View())
      modifies this`found, this`chans
      ensures forall step | step in steps :: step.Discover?
      ensures Possible(old(View()), steps) && View() == Run(old(View()), steps) && Inv(View())
      ensures forall k :: !Enabled(View(), Discover(k))
    {
      steps := [];
      var left := topics.Keys;
      while left != {}
        invariant left <= topics.Keys && Inv(View())
        invariant forall step | step in steps :: step.Discover?
        invariant Possible(old(View()), steps) && View() == Run(old(View()), steps)
        invariant forall k | k in topics.Keys - left && Matches(k, sub) :: k in found
        decreases |left|
      {
        var key :| key in left;
        left := left - {key};
        if Matches(key, sub) && key !in found {
          RunSnoc(old(View()), steps, Discover(key));
          StartForwarder(key);
          steps := steps + [Discover(key)];
        }
      }
    }

    method ForwarderTakes(c: nat)
      requires Inv(View()) && Enabled(View(), Take(c))
      modifies this`chans
      ensures View() == Apply(old(View()), Take(c)) && Inv(View())
      ensures var was := old(chans)[c];
              chans == old(chans)[c := was.(buf := was.buf[1..], fwd := Holding(was.buf[0]))]
    {
      TakeKeeps(View(), c);
      var buf := chans[c].buf;
      chans := chans[c := chans[c].(fwd := Holding(buf[0]), buf := buf[1..])];
    }

    method ForwarderPuts(c: nat)
      requires Inv(View()) && Enabled(View(), Put(c))
      modifies this`chans, this`wild
      ensures View() == Apply(old(View()), Put(c)) && Inv(View())
      ensures old(|wild|) < 100 && wild == old(wild) + [Entry(c, old(chans)[c].fwd.msg)]
      ensures chans == old(chans)[c := old(chans)[c].(fwd := Idle)]
    {
      PutKeeps(View(), c);
      wild := wild + [Entry(c, chans[c].fwd.msg)];
      chans := chans[c := chans[c].(fwd := Idle)];
    }

    /** The range loop ends once its channel is closed and empty. */
    method ForwarderExits(c: nat)
      requires Inv(View()) && Enabled(View(), Exit(c))
      modifies this`chans
      ensures View() == Apply(old(View()), Exit(c)) && Inv(View())
      ensures !old(chans)[c].open && old(chans)[c].buf == []
      ensures chans == old(chans)[c := old(chans)[c].(fwd := Exited)]
    {
      ExitKeeps(View(), c);
      chans := chans[c := chans[c].(fwd := Exited)];
    }

    method Next() returns (e: Entry)
      requires Inv(View()) && Enabled(View(), Receive)
      modifies this`wild, this`received
      ensures View() == Apply(old(View()), Receive) && Inv(View())
      ensures old(wild) == [e] + wild && received == old(received) + [e]
    {
      ReceiveKeeps(View());
      e := wild[0];
      received, wild := received + [e], wild[1..];
    }
  }
}
