/** From a published transcription to the one client it is for, and who may be connected. */
module Routing {
  import opened RoutingModel
  import opened RoutingInvariant
  import B = BrokerModel
  import BI = BrokerInvariant

  lemma Reached(sub: string, steps: seq<Step>)
    requires Possible(Init(sub), steps)
    ensures Inv(Run(Init(sub), steps))
  {
    InitOk(sub);
    RunKeeps(Init(sub), steps);
  }

  // ---- End to end --------------------------------------------------------------------

  /** The `n`-th entry of a log sits in its channel's part of the log after the earlier ones. */
  lemma {:induction false} EntryPosition(log: seq<B.Entry>, n: nat)
    requires n < |log|
    ensures var c := log[n].from; var at := |B.From(log[..n], c)|;
            at < |B.From(log, c)| && B.From(log, c)[at] == log[n].msg
  {
    var c := log[n].from;
    var front := log[..|log| - 1];
    if n < |log| - 1 {
      EntryPosition(front, n);
      assert front[..n] == log[..n];
    }
  }

  lemma FromStep(log: seq<B.Entry>, m: nat, n: nat)
    requires m < n <= |log|
    ensures |B.From(log[..m], log[m].from)| < |B.From(log[..n], log[m].from)|
  {
    var c := log[m].from;
    assert log[..m + 1][..m] == log[..m];
    assert log[..n] == log[..m + 1] + log[m + 1..n];
    BI.FromConcat(log[..m + 1], log[m + 1..n], c);
  }

  /** Where the `n`-th received message sits in the accepted log of its channel. */
  lemma ReceivedAt(s: B.State, n: nat) returns (at: nat)
    requires BI.Inv(s) && n < |s.received|
    ensures var c := s.received[n].from; var id := s.received[n].msg.id;
            && at == |B.From(s.received[..n], c)|
            && c < |s.chans| && at < |s.chans[c].accepted| && s.chans[c].accepted[at] == s.received[n].msg
            && id < |s.calls| && s.calls[id].phase == B.Returned(B.Accepted(c, at))
            && s.received[n].msg == s.calls[id].Msg(id)
  {
    var c := s.received[n].from;
    at := |B.From(s.received[..n], c)|;
    assert s.received[n] in s.received + s.wild;
    EntryPosition(s.received, n);
    BI.FromConcat(s.received, s.wild, c);
    assert BI.Conserved(s, c) && BI.LogOk(s, c);
    assert s.chans[c].accepted[at] == s.received[n].msg;
    assert BI.CallOk(s, s.received[n].msg.id);
  }

  /** The listener hears no message twice. */
  lemma HeardOnce(s: B.State, m: nat, n: nat)
    requires BI.Inv(s) && m < n < |s.received|
    ensures s.received[m].msg.id != s.received[n].msg.id
  {
    var i := ReceivedAt(s, m);
    var j := ReceivedAt(s, n);
    if s.received[m].from == s.received[n].from {
      FromStep(s.received, m, n);
    }
  }

  /** A transcription reaches the input channel of at most one client, at most once. */
  lemma RoutedAtMostOnce(sub: string, steps: seq<Step>, c: nat, k: nat, d: nat, l: nat)
    requires Possible(Init(sub), steps)
    requires var s := Run(Init(sub), steps);
             && c < |s.clients| && k < |s.clients[c].put| && s.clients[c].put[k].Routed?
             && d < |s.clients| && l < |s.clients[d].put| && s.clients[d].put[l].Routed?
             && s.clients[c].put[k].n < |s.heard| && s.clients[d].put[l].n < |s.heard|
             && s.heard[s.clients[c].put[k].n].msg.id == s.heard[s.clients[d].put[l].n].msg.id
    ensures c == d && k == l
  {
    var s := Run(Init(sub), steps);
    Reached(sub, steps);
    var m, n := s.clients[c].put[k].n, s.clients[d].put[l].n;
    if m < n {
      HeardOnce(s.broker, m, n);
    } else if n < m {
      HeardOnce(s.broker, n, m);
    }
  }

  /** What sits in a client's input channel came from a Publish that returned nil, and names
      that client's own device and the text put. */
  lemma RoutedToItsDevice(sub: string, steps: seq<Step>, c: nat, k: nat)
    requires Possible(Init(sub), steps)
    requires var s := Run(Init(sub), steps);
             c < |s.clients| && k < |s.clients[c].put| && s.clients[c].put[k].Routed?
    ensures var s := Run(Init(sub), steps); var i := s.clients[c].put[k];
            && i.n < |s.heard|
            && var id := s.heard[i.n].msg.id;
               && id < |s.broker.calls|
               && s.broker.calls[id].payload == B.Transcription(s.clients[c].device, i.text)
               && s.broker.calls[id].phase.Returned? && s.broker.calls[id].phase.outcome.Accepted?
  {
    var s := Run(Init(sub), steps);
    Reached(sub, steps);
    assert RoutedOk(s, c);
    var at := ReceivedAt(s.broker, s.clients[c].put[k].n);
  }

  /** The chat loop answers its inputs in the order they were put, one reply each: the answer's
      text, or its error marked as one. */
  lemma RepliesInOrder(sub: string, steps: seq<Step>, c: nat)
    requires Possible(Init(sub), steps) && c < |Run(Init(sub), steps).clients|
    ensures var cl := Run(Init(sub), steps).clients[c];
            && cl.put == cl.consumed + cl.input
            && |cl.answers| == |cl.consumed|
            && |cl.consumed| - 1 <= |cl.emitted| <= |cl.consumed|
            && (forall i | 0 <= i < |cl.emitted| ::
                  cl.emitted[i] == match cl.answers[i]
                                   case Reply(text) => text
                                   case Failure(error) => "ERROR: " + error)
            && (|cl.emitted| < |cl.consumed| <==> cl.chat.Replying?)
  {
    var s := Run(Init(sub), steps);
    Reached(sub, steps);
    var cl := s.clients[c];
    assert ClientOk(cl);
    forall i | 0 <= i < |cl.emitted| ensures cl.emitted[i] == cl.answers[i].Render() {
      assert Rendered(cl.answers)[i] == cl.emitted[i];
    }
  }

  /** What was taken from the output channel and what waits in it are, greetings left out, the
      replies sent on, in order and without loss; there is one greeting at most. */
  lemma RepliesAreSpoken(sub: string, steps: seq<Step>, c: nat)
    requires Possible(Init(sub), steps) && c < |Run(Init(sub), steps).clients|
    ensures var cl := Run(Init(sub), steps).clients[c];
            && RepliesIn(cl.spoken) + RepliesIn(cl.output) == cl.emitted
            && |cl.output| <= 10
            && |cl.emitted| <= |cl.spoken| + |cl.output| <= |cl.emitted| + 1
  {
    var s := Run(Init(sub), steps);
    Reached(sub, steps);
    assert ClientOk(s.clients[c]);
    RepliesConcat(s.clients[c].spoken, s.clients[c].output);
  }

  function Rank(stage: Stage): nat {
    match stage
    case Checked => 0
    case Handed => 1
    case Inside => 2
    case Leaving => 3
    case Gone => 4
  }

  /** However the goroutines that call it interleave, `Close` cancels, closes the connection and
      closes the send channel once each, exactly when `closed` becomes true; a client is put in
      the map before it is taken out, and is closed once it is on its way out. */
  lemma ClosedOnce(sub: string, steps: seq<Step>, c: nat)
    requires Possible(Init(sub), steps) && c < |Run(Init(sub), steps).clients|
    ensures var cl := Run(Init(sub), steps).clients[c]; var once := if cl.closed then 1 else 0;
            && cl.cancels == once && cl.connCloses == once && cl.sendCloses == once
            && (Rank(cl.stage) >= 3 ==> cl.closed)
  {
    Reached(sub, steps);
    var s := Run(Init(sub), steps);
    assert ClientOk(s.clients[c]);
  }

  lemma StageOther(s: State, step: Step, c: nat)
    requires Enabled(s, step) && !IsHub(step) && c < |s.clients|
    ensures |Apply(s, step).clients| == |s.clients|
    ensures var was := s.clients[c]; var now := Apply(s, step).clients[c];
            now.stage == was.stage && (was.closed ==> now.closed) && now.device == was.device
  {
  }

  lemma ClosesExactly(s: State, step: Step, c: nat)
    requires Inv(s) && Enabled(s, step) && c < |s.clients|
    ensures c < |Apply(s, step).clients|
    ensures Apply(s, step).clients[c].closed <==> s.clients[c].closed || step == Close(c)
  {
    if s.hub == Removing(c) { assert s.clients[c].stage.Leaving? && ClientOk(s.clients[c]); }
  }

  /** Which step moves a client on, and to where. */
  lemma StageExactly(s: State, step: Step, c: nat)
    requires Inv(s) && Enabled(s, step) && c < |s.clients|
    ensures c < |Apply(s, step).clients|
    ensures Apply(s, step).clients[c].stage ==
            if step == HandRegister(c) then Handed
            else if step == Insert && s.hub == Inserting(c) then Inside
            else if step == HandUnregister(c) then Leaving
            else if step == Remove && s.hub == Removing(c) then Gone
            else s.clients[c].stage
  {
    if !IsHub(step) { StageOther(s, step, c); }
  }

  lemma StageStep(s: State, step: Step, c: nat)
    requires Inv(s) && Enabled(s, step) && c < |s.clients|
    ensures c < |Apply(s, step).clients|
    ensures var was := s.clients[c]; var now := Apply(s, step).clients[c];
            && Rank(was.stage) <= Rank(now.stage) <= Rank(was.stage) + 1
            && (was.closed ==> now.closed) && now.device == was.device
  {
    StageExactly(s, step, c);
    ClosesExactly(s, step, c);
    DeviceFixed(s, step, c);
  }

  lemma DeviceFixed(s: State, step: Step, c: nat)
    requires Enabled(s, step) && c < |s.clients|
    ensures c < |Apply(s, step).clients| && Apply(s, step).clients[c].device == s.clients[c].device
  {
  }

  /** Stages only go forward, so a client removed from the hub never returns to it and stays
      closed. */
  lemma {:induction false} NeverReturns(s: State, steps: seq<Step>, c: nat)
    requires Inv(s) && Possible(s, steps) && c < |s.clients|
    ensures c < |Run(s, steps).clients|
    ensures Rank(s.clients[c].stage) <= Rank(Run(s, steps).clients[c].stage)
    ensures s.clients[c].closed ==> Run(s, steps).clients[c].closed
    decreases |steps|
  {
    if steps != [] {
      StageStep(s, steps[0], c);
      StepKeeps(s, steps[0]);
      NeverReturns(Apply(s, steps[0]), steps[1..], c);
    }
  }

  // ---- One open client per device ----------------------------------------------------

  predicate Live(cl: Client) { InHub(cl) && !cl.closed }

  predicate UniqueDevices(s: State) {
    forall c, d | 0 <= c < d < |s.clients| && Live(s.clients[c]) && Live(s.clients[d]) ::
      s.clients[c].device != s.clients[d].device
  }

  /** The check the hub leaves out: nobody open in the map has the device it is inserting. */
  predicate GuardedInsert(s: State, step: Step)
    requires Enabled(s, step)
  {
    step.Insert? && !s.clients[s.hub.c].closed ==> NoMatch(s, s.clients[s.hub.c].device)
  }

  lemma UniqueStep(s: State, step: Step)
    requires Inv(s) && Enabled(s, step) && UniqueDevices(s)
    ensures UniqueDevices(Apply(s, step)) <==> GuardedInsert(s, step)
  {
    var t := Apply(s, step);
    if step.Insert? {
      InsertStep(s);
    } else {
      forall c, d | 0 <= c < d < |t.clients| && Live(t.clients[c]) && Live(t.clients[d])
        ensures t.clients[c].device != t.clients[d].device
      {
        LiveBefore(s, step, c);
        LiveBefore(s, step, d);
      }
    }
  }

  lemma LiveBefore(s: State, step: Step, c: nat)
    requires Inv(s) && Enabled(s, step) && !step.Insert?
    requires c < |Apply(s, step).clients| && Live(Apply(s, step).clients[c])
    ensures c < |s.clients| && Live(s.clients[c]) && s.clients[c].device == Apply(s, step).clients[c].device
  {
  }

  lemma InsertStep(s: State)
    requires Inv(s) && Enabled(s, Insert) && UniqueDevices(s)
    ensures UniqueDevices(Apply(s, Insert)) <==> GuardedInsert(s, Insert)
  {
    var t := Apply(s, Insert);
    var n := s.hub.c;
    assert s.clients[n].stage.Handed?;
    if !s.clients[n].closed && !NoMatch(s, s.clients[n].device) {
      var c: nat :| c < |s.clients| && Matching(s, c, s.clients[n].device);
      assert Live(t.clients[c]) && Live(t.clients[n]) && c != n;
      if c < n {
        assert t.clients[c].device == t.clients[n].device;
      } else {
        assert t.clients[n].device == t.clients[c].device;
      }
    } else {
      forall c, d | 0 <= c < d < |t.clients| && Live(t.clients[c]) && Live(t.clients[d])
        ensures t.clients[c].device != t.clients[d].device
      {
        assert c == n ==> !Matching(s, d, s.clients[n].device);
        assert d == n ==> !Matching(s, c, s.clients[n].device);
      }
    }
  }

  predicate AlwaysUnique(s: State, steps: seq<Step>)
    requires Possible(s, steps)
    decreases |steps|
  {
    UniqueDevices(s) && (steps != [] ==> AlwaysUnique(Apply(s, steps[0]), steps[1..]))
  }

  predicate GuardedRun(s: State, steps: seq<Step>)
    requires Possible(s, steps)
    decreases |steps|
  {
    steps != [] ==> GuardedInsert(s, steps[0]) && GuardedRun(Apply(s, steps[0]), steps[1..])
  }

  /** A run never has two open clients of one device in the hub if and only if each insertion
      finds the device free. */
  lemma {:induction false} UniqueExactly(s: State, steps: seq<Step>)
    requires Inv(s) && Possible(s, steps) && UniqueDevices(s)
    ensures AlwaysUnique(s, steps) <==> GuardedRun(s, steps)
    decreases |steps|
  {
    if steps != [] {
      UniqueStep(s, steps[0]);
      StepKeeps(s, steps[0]);
      if GuardedInsert(s, steps[0]) {
        UniqueExactly(Apply(s, steps[0]), steps[1..]);
      } else {
        assert !UniqueDevices(Apply(s, steps[0]));
      }
    }
  }

  /** Between its admission check and its insertion. */
  predicate Arriving(cl: Client) { cl.stage.Checked? || cl.stage.Handed? }

  /** No check is made for a device that is still arriving. */
  predicate Serialised(s: State, steps: seq<Step>)
    requires Possible(s, steps)
    decreases |steps|
  {
    steps != [] ==>
      && (steps[0].Check? ==> forall c | 0 <= c < |s.clients| ::
                              Arriving(s.clients[c]) ==> s.clients[c].device != steps[0].device)
      && Serialised(Apply(s, steps[0]), steps[1..])
  }

  predicate Occupying(cl: Client) { Arriving(cl) || Live(cl) }

  predicate OneOccupant(s: State) {
    forall c, d | 0 <= c < d < |s.clients| && Occupying(s.clients[c]) && Occupying(s.clients[d]) ::
      s.clients[c].device != s.clients[d].device
  }

  lemma OccupiedBefore(s: State, step: Step, c: nat)
    requires Inv(s) && Enabled(s, step) && c < |s.clients|
    requires c < |Apply(s, step).clients| && Occupying(Apply(s, step).clients[c])
    ensures Occupying(s.clients[c]) && s.clients[c].device == Apply(s, step).clients[c].device
  {
    StageStep(s, step, c);
  }

  lemma {:induction false} SerialisedIsGuarded(s: State, steps: seq<Step>)
    requires Inv(s) && Possible(s, steps) && OneOccupant(s) && Serialised(s, steps)
    ensures GuardedRun(s, steps)
    decreases |steps|
  {
    if steps != [] {
      var step := steps[0];
      var t := Apply(s, step);
      forall c, d | 0 <= c < d < |t.clients| && Occupying(t.clients[c]) && Occupying(t.clients[d])
        ensures t.clients[c].device != t.clients[d].device
      {
        if c < |s.clients| { OccupiedBefore(s, step, c); }
        if d < |s.clients| {
          OccupiedBefore(s, step, d);
        } else {
          assert !Matching(s, c, step.device);
        }
      }
      assert GuardedInsert(s, step) by {
        if step.Insert? {
          assert s.clients[s.hub.c].stage.Handed?;
        }
      }
      StepKeeps(s, step);
      SerialisedIsGuarded(t, steps[1..]);
    }
  }

  /** With admission serialised per device, there is at most one open client per device in
      every state, so a lookup has one answer whatever order the map is walked in. */
  lemma SerialisedIsUnique(sub: string, steps: seq<Step>, device: string, c: nat, d: nat)
    requires Possible(Init(sub), steps) && Serialised(Init(sub), steps)
    requires Matching(Run(Init(sub), steps), c, device) && Matching(Run(Init(sub), steps), d, device)
    ensures AlwaysUnique(Init(sub), steps) && c == d
  {
    InitOk(sub);
    SerialisedIsGuarded(Init(sub), steps);
    UniqueExactly(Init(sub), steps);
    LastUnique(Init(sub), steps);
  }

  lemma {:induction false} LastUnique(s: State, steps: seq<Step>)
    requires Possible(s, steps) && AlwaysUnique(s, steps)
    ensures UniqueDevices(Run(s, steps))
    decreases |steps|
  {
    if steps != [] { LastUnique(Apply(s, steps[0]), steps[1..]); }
  }

  lemma {:induction false} RunSnoc(s: State, steps: seq<Step>, step: Step)
    requires Possible(s, steps) && Enabled(Run(s, steps), step)
    ensures Possible(s, steps + [step])
    ensures Run(s, steps + [step]) == Apply(Run(s, steps), step)
    decreases |steps|
  {
    if steps == [] {
      assert steps + [step] == [step];
    } else {
      assert (steps + [step])[1..] == steps[1..] + [step];
      RunSnoc(Apply(s, steps[0]), steps[1..], step);
    }
  }

  /** The handler as written does not serialise: two connections of one device can both pass
      the check before either is in the map. */
  lemma TwoOpenClients(sub: string, device: string) returns (steps: seq<Step>)
    ensures Possible(Init(sub), steps)
    ensures !UniqueDevices(Run(Init(sub), steps))
  {
    var i := Init(sub);
    steps := [];
    RunSnoc(i, steps, Check(device)); steps := steps + [Check(device)];
    RunSnoc(i, steps, Check(device)); steps := steps + [Check(device)];
    RunSnoc(i, steps, HandRegister(0)); steps := steps + [HandRegister(0)];
    RunSnoc(i, steps, Insert); steps := steps + [Insert];
    RunSnoc(i, steps, HandRegister(1)); steps := steps + [HandRegister(1)];
    RunSnoc(i, steps, Insert); steps := steps + [Insert];
    var s := Run(i, steps);
    assert Live(s.clients[0]) && Live(s.clients[1]);
  }
}
