/** Runs in which no channel is ever replaced, the reason the server's own runs are of that kind,
    and when a Publish panics. */
module BrokerRuns {
  import opened BrokerModel
  import opened BrokerInvariant
  import opened BrokerTopics
  import opened BrokerDelivery

  // ---- Runs that replace no channel --------------------------------------------------

  /** The check Publish leaves out at channel.go:49: the key is still missing. */
  predicate Guarded(s: State, step: Step)
    requires Enabled(s, step)
  {
    step.Create? ==> s.calls[step.call].Key() !in s.topics
  }

  predicate GuardedRun(s: State, steps: seq<Step>)
    requires Possible(s, steps)
    decreases |steps|
  {
    steps != [] ==> Guarded(s, steps[0]) && GuardedRun(Apply(s, steps[0]), steps[1..])
  }

  /** A channel is in the map exactly as long as it is open. */
  predicate ListedWhileOpen(s: State) {
    forall c | 0 <= c < |s.chans| :: s.chans[c].open <==> Listed(s, c)
  }

  lemma GuardedStepKeepsListed(s: State, step: Step)
    requires Inv(s) && ListedWhileOpen(s) && Enabled(s, step) && GuardedRun(s, [step])
    ensures ListedWhileOpen(Apply(s, step))
  {
    var t := Apply(s, step);
    forall c | 0 <= c < |t.chans| ensures t.chans[c].open <==> Listed(t, c) {
      if c < |s.chans| { assert s.chans[c].open <==> Listed(s, c); }
    }
  }

  lemma {:induction false} GuardedKeepsListed(s: State, steps: seq<Step>)
    requires Inv(s) && ListedWhileOpen(s) && Possible(s, steps) && GuardedRun(s, steps)
    ensures ListedWhileOpen(Run(s, steps))
    decreases |steps|
  {
    if steps != [] {
      StepKeeps(s, steps[0]);
      GuardedStepKeepsListed(s, steps[0]);
      GuardedKeepsListed(Apply(s, steps[0]), steps[1..]);
    }
  }

  /** In a guarded run, a Publish panics exactly when the map no longer holds the channel it is
      about to send on, which the read lock it already holds would let it check. */
  lemma PanicsExactly(sub: string, steps: seq<Step>, i: nat)
    requires Possible(Init(sub), steps) && GuardedRun(Init(sub), steps)
    requires Enabled(Run(Init(sub), steps), Select(i))
    ensures var s := Run(Init(sub), steps);
            Apply(s, Select(i)).calls[i].phase == Returned(Panicked)
            <==> !Listed(s, s.calls[i].phase.ch)
  {
    GuardedKeepsListed(Init(sub), steps);
  }

  /** Some `Close` of the run found the broker open and channel `c` in its map. */
  predicate ClosedBy(s: State, steps: seq<Step>, c: nat)
    requires Possible(s, steps)
    decreases |steps|
  {
    steps != [] &&
    ((steps[0] == Close && !s.closed && Listed(s, c)) || ClosedBy(Apply(s, steps[0]), steps[1..], c))
  }

  lemma {:induction false} ClosedExactly(s: State, steps: seq<Step>, c: nat)
    requires Inv(s) && Possible(s, steps) && c < |Run(s, steps).chans|
    ensures !Run(s, steps).chans[c].open <==> (c < |s.chans| && !s.chans[c].open) || ClosedBy(s, steps, c)
    decreases |steps|
  {
    if steps != [] {
      if c < |s.chans| {
        LifecycleStep(s, steps[0], c);
      } else if c < |Apply(s, steps[0]).chans| {
        BornOpen(s, steps[0], c);
      }
      StepKeeps(s, steps[0]);
      ClosedExactly(Apply(s, steps[0]), steps[1..], c);
    }
  }

  lemma BornOpen(s: State, step: Step, c: nat)
    requires Enabled(s, step) && |s.chans| <= c < |Apply(s, step).chans|
    ensures Apply(s, step).chans[c].open
  {
  }

  /** In every run, guarded or not, a Publish panics exactly when a first `Close` has met the
      channel it is about to send on in the map. */
  lemma PanicsInAnyRun(sub: string, steps: seq<Step>, i: nat)
    requires Possible(Init(sub), steps)
    requires Enabled(Run(Init(sub), steps), Select(i))
    ensures var s := Run(Init(sub), steps);
            Apply(s, Select(i)).calls[i].phase == Returned(Panicked)
            <==> ClosedBy(Init(sub), steps, s.calls[i].phase.ch)
  {
    ClosedExactly(Init(sub), steps, Run(Init(sub), steps).calls[i].phase.ch);
  }

  /** In every run, a Publish that found its channel in the map never sends on a closed one. */
  lemma FoundNeverPanics(sub: string, steps: seq<Step>, i: nat)
    requires Possible(Init(sub), steps)
    requires Enabled(Run(Init(sub), steps), Select(i))
    requires !Run(Init(sub), steps).calls[i].phase.creator
    ensures var phase := Apply(Run(Init(sub), steps), Select(i)).calls[i].phase;
            phase.Returned? && (phase.outcome.Accepted? || phase.outcome.Full?)
  {
    var s := Run(Init(sub), steps);
    Reached(sub, steps);
    assert CallOk(s, i);
  }

  /** Lifecycle of every run: mapped channels are open, so `Close` closes each channel once;
      `closed` is never reset, a closed channel never reopens, and a channel that closes was
      open and mapped until a first `Close`. */
  lemma Lifecycle(sub: string, steps: seq<Step>, step: Step, c: nat)
    requires Possible(Init(sub), steps) && Enabled(Run(Init(sub), steps), step)
    requires c < |Run(Init(sub), steps).chans|
    ensures var s := Run(Init(sub), steps); var t := Apply(s, step);
            && (forall k | k in s.topics :: s.topics[k] < |s.chans| && s.chans[s.topics[k]].open)
            && (s.closed ==> t.closed)
            && (!s.chans[c].open ==> !t.chans[c].open)
            && (s.chans[c].open && !t.chans[c].open <==> step == Close && !s.closed && Listed(s, c))
  {
    Reached(sub, steps);
    LifecycleStep(Run(Init(sub), steps), step, c);
  }

  lemma LifecycleStep(s: State, step: Step, c: nat)
    requires Inv(s) && Enabled(s, step) && c < |s.chans|
    ensures var t := Apply(s, step);
            && c < |t.chans| && (s.closed ==> t.closed)
            && (!s.chans[c].open ==> !t.chans[c].open)
            && (s.chans[c].open && !t.chans[c].open <==> step == Close && !s.closed && Listed(s, c))
  {
    if Listed(s, c) { assert s.chans[s.topics[s.chans[c].key]].open; }
  }

  // ---- Session ids that are published once -------------------------------------------

  /** No two Publish calls of the run share a key. */
  predicate DistinctKeys(s: State) {
    forall i, j | 0 <= i < j < |s.calls| :: s.calls[i].Key() != s.calls[j].Key()
  }

  predicate OnlyPublishers(steps: seq<Step>) {
    forall step | step in steps :: !step.SubscribeKey?
  }

  /** Call `i` has stored the channel for its key. */
  predicate HasCreated(s: State, i: nat) {
    i < |s.calls| && !s.calls[i].phase.Missing? && s.calls[i].phase != Returned(Refused)
  }

  ghost predicate CreatorsKnown(s: State) {
    forall k | k in s.topics :: exists i: nat :: HasCreated(s, i) && s.calls[i].Key() == k
  }

  lemma CreatorStays(s: State, step: Step, i: nat)
    requires Enabled(s, step) && HasCreated(s, i)
    ensures HasCreated(Apply(s, step), i) && Apply(s, step).calls[i].Key() == s.calls[i].Key()
  {
  }

  lemma KeysAreCreated(s: State, step: Step, k: string)
    requires Enabled(s, step) && !step.SubscribeKey?
    requires k in Apply(s, step).topics && k !in s.topics
    ensures step.Create? && HasCreated(Apply(s, step), step.call)
    ensures Apply(s, step).calls[step.call].Key() == k
  {
  }

  lemma CreatorsStep(s: State, step: Step)
    requires Inv(s) && CreatorsKnown(s) && Enabled(s, step) && !step.SubscribeKey?
    ensures CreatorsKnown(Apply(s, step))
  {
    var t := Apply(s, step);
    forall k | k in t.topics ensures exists i: nat :: HasCreated(t, i) && t.calls[i].Key() == k {
      if k in s.topics {
        var i: nat :| HasCreated(s, i) && s.calls[i].Key() == k;
        CreatorStays(s, step, i);
      } else {
        KeysAreCreated(s, step, k);
      }
    }
  }

  lemma {:induction false} CallsOnlyGrow(s: State, steps: seq<Step>)
    requires Possible(s, steps)
    ensures |s.calls| <= |Run(s, steps).calls|
    ensures forall i | 0 <= i < |s.calls| :: Run(s, steps).calls[i].Key() == s.calls[i].Key()
    decreases |steps|
  {
    if steps != [] {
      CallsOnlyGrow(Apply(s, steps[0]), steps[1..]);
    }
  }

  lemma {:induction false} DistinctIsGuarded(s: State, steps: seq<Step>)
    requires Inv(s) && CreatorsKnown(s) && Possible(s, steps) && OnlyPublishers(steps)
    requires DistinctKeys(Run(s, steps))
    ensures GuardedRun(s, steps)
    decreases |steps|
  {
    if steps != [] {
      var step := steps[0];
      CallsOnlyGrow(s, steps);
      if step.Create? {
        var end := Run(s, steps);
        forall i: nat | HasCreated(s, i) ensures s.calls[i].Key() != s.calls[step.call].Key() {
          assert end.calls[i].Key() != end.calls[step.call].Key();
        }
      }
      StepKeeps(s, step);
      CreatorsStep(s, step);
      DistinctIsGuarded(Apply(s, step), steps[1..]);
    }
  }

  lemma AcceptedKey(s: State, c: nat, at: nat)
    requires Inv(s) && c < |s.chans| && at < |s.chans[c].accepted|
    ensures var j := s.chans[c].accepted[at].id;
            j < |s.calls| && s.calls[j].phase.Returned? && s.calls[j].Key() == s.chans[c].key
  {
    assert LogOk(s, c) && CallOk(s, s.chans[c].accepted[at].id);
  }

  lemma FreshIsEmpty(s: State, i: nat)
    requires Inv(s) && DistinctKeys(s) && Enabled(s, Select(i))
    ensures var ch := s.chans[s.calls[i].phase.ch];
            ch.accepted == [] && ch.buf == []
  {
    var c := s.calls[i].phase.ch;
    assert CallOk(s, i) && Conserved(s, c);
    if s.chans[c].accepted != [] {
      AcceptedKey(s, c, 0);
      assert false;
    }
  }

  /** With session ids that are published once, a Publish is never told that its channel is full:
      its message is the only one there, unless a first `Close` met the channel in the map. */
  lemma FreshPublishesSucceed(sub: string, steps: seq<Step>, i: nat)
    requires Possible(Init(sub), steps) && DistinctKeys(Run(Init(sub), steps))
    requires Enabled(Run(Init(sub), steps), Select(i))
    ensures var s := Run(Init(sub), steps); var t := Apply(s, Select(i)); var c := s.calls[i].phase.ch;
            if ClosedBy(Init(sub), steps, c) then t.calls[i].phase == Returned(Panicked) && t.chans == s.chans
            else t.calls[i].phase == Returned(Accepted(c, 0)) && c < |t.chans| && t.chans[c].buf == [t.calls[i].Msg(i)]
    ensures NeverCloses(steps) ==> Apply(Run(Init(sub), steps), Select(i)).calls[i].phase.outcome.Accepted?
  {
    var s := Run(Init(sub), steps);
    var c := s.calls[i].phase.ch;
    Reached(sub, steps);
    ClosedExactly(Init(sub), steps, c);
    FreshIsEmpty(s, i);
    if NeverCloses(steps) {
      StaysOpen(Init(sub), steps);
      assert ChannelOk(s, c);
    }
  }

  /** The messages of one key, told by what the listener can see. */
  function ForKey(log: seq<Entry>, key: string): seq<Message> {
    if log == [] then []
    else
      var m := log[|log| - 1].msg;
      ForKey(log[..|log| - 1], key) + (if MakeKey(m.topic, m.routingKey) == key then [m] else [])
  }

  lemma {:induction false} ForKeyIsFrom(s: State, log: seq<Entry>, c: nat)
    requires Inv(s) && c < |s.chans|
    requires forall e | e in log :: e in s.received + s.wild
    requires forall d | 0 <= d < |s.chans| && d != c :: s.chans[d].key != s.chans[c].key
    ensures ForKey(log, s.chans[c].key) == From(log, c)
  {
    if log != [] {
      var e := log[|log| - 1];
      assert e in log;
      EntryWasAccepted(s, e);
      ForKeyIsFrom(s, log[..|log| - 1], c);
    }
  }

  predicate NeverCloses(steps: seq<Step>) {
    Close !in steps
  }

  lemma {:induction false} StaysOpen(s: State, steps: seq<Step>)
    requires Possible(s, steps) && NeverCloses(steps) && !s.closed
    ensures !Run(s, steps).closed
    decreases |steps|
  {
    if steps != [] {
      StaysOpen(Apply(s, steps[0]), steps[1..]);
    }
  }

  /** Per-key conservation for guarded runs of an open broker: one channel per key, and its
      accepted messages are the received ones followed by those still inside. */
  lemma KeyConservation(sub: string, steps: seq<Step>, key: string)
    requires Possible(Init(sub), steps) && GuardedRun(Init(sub), steps) && NeverCloses(steps)
    requires key in Run(Init(sub), steps).topics
    ensures var s := Run(Init(sub), steps);
            s.topics[key] < |s.chans| &&
            var ch := s.chans[s.topics[key]];
            && (forall c | 0 <= c < |s.chans| && s.chans[c].key == key :: c == s.topics[key])
            && ch.accepted == ForKey(s.received, key) + ForKey(s.wild, key) + Hand(ch.fwd) + ch.buf
            && (!Stranded(s, s.topics[key]) <==> Matches(key, sub))
  {
    var s := Run(Init(sub), steps);
    Reached(sub, steps);
    GuardedKeepsListed(Init(sub), steps);
    StaysOpen(Init(sub), steps);
    SubscriptionFixed(Init(sub), steps);
    var c := s.topics[key];
    forall d | 0 <= d < |s.chans| && s.chans[d].key == key ensures d == c {
      assert ChannelOk(s, d);
      assert Listed(s, d);
    }
    ChannelConservation(sub, steps, c);
    ForKeyIsFrom(s, s.received, c);
    ForKeyIsFrom(s, s.wild, c);
    assert ChannelOk(s, c);
    if key in s.found {
      assert Listed(s, s.found[key]) by { assert ChannelOk(s, s.found[key]); }
    }
  }

  /** What the server relies on: when every session id is published once and the broker is
      not closed, each call that returned nil has its message handed to the listener once the
      goroutines have nothing left to do. */
  lemma FreshSessionsAreDelivered(sub: string, steps: seq<Step>, i: nat)
    requires Possible(Init(sub), steps) && OnlyPublishers(steps) && NeverCloses(steps)
    requires DistinctKeys(Run(Init(sub), steps)) && Quiescent(Run(Init(sub), steps))
    requires i < |Run(Init(sub), steps).calls|
    requires Run(Init(sub), steps).calls[i].topic == sub
    requires Run(Init(sub), steps).calls[i].phase.Returned?
    requires Run(Init(sub), steps).calls[i].phase.outcome.Accepted?
    ensures var s := Run(Init(sub), steps); var call := s.calls[i];
            && call.phase.outcome.ch < |s.chans|
            && ForKey(s.received, call.Key()) == s.chans[call.phase.outcome.ch].accepted
            && call.Msg(i) in ForKey(s.received, call.Key())
  {
    var s := Run(Init(sub), steps);
    var call := s.calls[i];
    Reached(sub, steps);
    DistinctIsGuarded(Init(sub), steps);
    GuardedKeepsListed(Init(sub), steps);
    StaysOpen(Init(sub), steps);
    assert CallOk(s, i);
    var c := call.phase.outcome.ch;
    assert ChannelOk(s, c);
    KeyConservation(sub, steps, call.Key());
    assert Matches(call.Key(), sub) by {
      assert call.Key()[..|sub + ":"|] == sub + ":";
    }
    QuiescentExactly(s, c);
    assert c == s.topics[call.Key()];
    ForKeyIsFrom(s, s.received, c);
  }

  // ---- Two first publishers on one key -----------------------------------------------

  lemma {:induction false} RunSnoc(s: State, steps: seq<Step>, step: Step)
    requires Possible(s, steps) && Enabled(Run(s, steps), step)
    ensures Possible(s, steps + [step])
    ensures Run(s, steps + [step]) == Apply(Run(s, steps), step)
    ensures GuardedRun(s, steps + [step]) <==> GuardedRun(s, steps) && Guarded(Run(s, steps), step)
    decreases |steps|
  {
    if steps == [] {
      assert steps + [step] == [step];
    } else {
      assert (steps + [step])[1..] == steps[1..] + [step];
      RunSnoc(Apply(s, steps[0]), steps[1..], step);
    }
  }

  /** One of two racing calls has sent its message, the other has yet to store its channel. */
  function HalfWay(sub: string, routingKey: string, p: Payload, q: Payload): State {
    var key := MakeKey(sub, routingKey);
    var m := Message(sub, routingKey, p, 0);
    State(sub, map[key := 0], false, [Channel(key, [m], true, Undiscovered, [m])], map[], [], [],
          [Call(sub, routingKey, p, Returned(Accepted(0, 0))), Call(sub, routingKey, q, Missing)])
  }

  lemma ReachHalfWay(sub: string, routingKey: string, p: Payload, q: Payload) returns (steps: seq<Step>)
    ensures Possible(Init(sub), steps)
    ensures Run(Init(sub), steps) == HalfWay(sub, routingKey, p, q) && GuardedRun(Init(sub), steps)
  {
    var i := Init(sub);
    steps := [];
    RunSnoc(i, steps, Begin(sub, routingKey, p)); steps := steps + [Begin(sub, routingKey, p)];
    RunSnoc(i, steps, Begin(sub, routingKey, q)); steps := steps + [Begin(sub, routingKey, q)];
    RunSnoc(i, steps, Create(0)); steps := steps + [Create(0)];
    RunSnoc(i, steps, Relock(0)); steps := steps + [Relock(0)];
    RunSnoc(i, steps, Select(0)); steps := steps + [Select(0)];
    var s, t := Run(i, steps), HalfWay(sub, routingKey, p, q);
    assert s.calls == t.calls && s.topics == t.topics;
    assert s.chans[0].buf == t.chans[0].buf && s.chans[0].accepted == t.chans[0].accepted;
    assert s.chans == t.chans;
  }

  /** The other call stores its channel and sends. */
  lemma FinishSecond(sub: string, before: seq<Step>) returns (steps: seq<Step>)
    requires Possible(Init(sub), before)
    requires var s := Run(Init(sub), before);
             |s.calls| == 2 && |s.chans| == 1 && s.calls[1].phase.Missing? && !s.calls[0].phase.Ready?
    ensures steps == before + [Create(1)] + [Relock(1)] + [Select(1)]
    ensures Possible(Init(sub), steps)
    ensures GuardedRun(Init(sub), steps)
            <==> GuardedRun(Init(sub), before)
                 && Run(Init(sub), before).calls[1].Key() !in Run(Init(sub), before).topics
    ensures var s := Run(Init(sub), before); var t := Run(Init(sub), steps); var key := s.calls[1].Key();
            && t.chans == [s.chans[0], FreshChannel(key).(buf := [s.calls[1].Msg(1)], accepted := [s.calls[1].Msg(1)])]
            && t.topics == s.topics[key := 1] && t.found == s.found && t.sub == s.sub && t.received == s.received
            && t.calls == [s.calls[0], s.calls[1].(phase := Returned(Accepted(1, 0)))]
  {
    var i := Init(sub);
    steps := before;
    RunSnoc(i, steps, Create(1)); steps := steps + [Create(1)];
    RunSnoc(i, steps, Relock(1)); steps := steps + [Relock(1)];
    RunSnoc(i, steps, Select(1)); steps := steps + [Select(1)];
    var s, t := Run(i, before), Run(i, steps);
    assert t.calls == [s.calls[0], s.calls[1].(phase := Returned(Accepted(1, 0)))];
    assert t.chans[1].buf == [s.calls[1].Msg(1)];
  }

  /** `Close` between a creator's unlock and its re-lock: the send panics. */
  lemma ClosedCreatorPanics(sub: string, routingKey: string, p: Payload) returns (steps: seq<Step>)
    ensures Possible(Init(sub), steps)
    ensures Run(Init(sub), steps).calls[0..] == [Call(sub, routingKey, p, Returned(Panicked))]
  {
    var i := Init(sub);
    steps := [];
    RunSnoc(i, steps, Begin(sub, routingKey, p)); steps := steps + [Begin(sub, routingKey, p)];
    RunSnoc(i, steps, Create(0)); steps := steps + [Create(0)];
    RunSnoc(i, steps, Close); steps := steps + [Close];
    RunSnoc(i, steps, Relock(0)); steps := steps + [Relock(0)];
    RunSnoc(i, steps, Select(0)); steps := steps + [Select(0)];
  }

  /** One message all the way into the wildcard channel. */
  lemma OneForwarded(sub: string, routingKey: string, p: Payload) returns (steps: seq<Step>)
    ensures Possible(Init(sub), steps) && Receive !in steps
    ensures var s := Run(Init(sub), steps);
            s.wild == [Entry(0, Message(sub, routingKey, p, 0))] && s.received == []
  {
    var i, key := Init(sub), MakeKey(sub, routingKey);
    assert Matches(key, sub) by { assert key[..|sub| + 1] == sub + ":"; }
    steps := ReachSent(sub, routingKey, p);
    RunSnoc(i, steps, Discover(key)); steps := steps + [Discover(key)];
    RunSnoc(i, steps, Take(0)); steps := steps + [Take(0)];
    RunSnoc(i, steps, Put(0)); steps := steps + [Put(0)];
  }

  lemma ReachSent(sub: string, routingKey: string, p: Payload) returns (steps: seq<Step>)
    ensures Possible(Init(sub), steps) && Receive !in steps
    ensures var s := Run(Init(sub), steps); var m := Message(sub, routingKey, p, 0);
            && s.sub == sub && s.topics == map[MakeKey(sub, routingKey) := 0] && s.found == map[]
            && s.chans == [Channel(MakeKey(sub, routingKey), [m], true, Undiscovered, [m])]
            && s.wild == [] && s.received == []
  {
    var i := Init(sub);
    steps := [];
    RunSnoc(i, steps, Begin(sub, routingKey, p)); steps := steps + [Begin(sub, routingKey, p)];
    RunSnoc(i, steps, Create(0)); steps := steps + [Create(0)];
    RunSnoc(i, steps, Relock(0)); steps := steps + [Relock(0)];
    RunSnoc(i, steps, Select(0)); steps := steps + [Select(0)];
    var ch := Run(i, steps).chans[0];
    assert ch.buf == [Message(sub, routingKey, p, 0)] && ch.accepted == ch.buf;
  }
}
