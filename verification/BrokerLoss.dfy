/** Exactly which accepted messages are lost, over all runs. */
module BrokerLoss {
  import opened BrokerModel
  import opened BrokerInvariant
  import opened BrokerDelivery
  import opened BrokerRuns

  /** Some step of the run strands channel `c`. */
  predicate StrandedBy(s: State, steps: seq<Step>, c: nat)
    requires Possible(s, steps)
    decreases |steps|
  {
    steps != [] && (Strands(s, steps[0], c) || StrandedBy(Apply(s, steps[0]), steps[1..], c))
  }

  lemma {:induction false} StrandedExactly(s: State, steps: seq<Step>, c: nat)
    requires Inv(s) && Possible(s, steps)
    ensures Stranded(Run(s, steps), c) <==> Stranded(s, c) || StrandedBy(s, steps, c)
    decreases |steps|
  {
    if steps != [] {
      StepKeeps(s, steps[0]);
      StrandingSteps(s, steps[0], c);
      StrandedExactly(Apply(s, steps[0]), steps[1..], c);
    }
  }

  /** No continuation of the run brings the listener the message at place `at` of channel `c`. */
  ghost predicate NeverReceived(s: State, c: nat, at: nat) {
    forall more | Possible(s, more) :: |From(Run(s, more).received, c)| <= at
  }

  lemma InternalStepSpares(s: State, step: Step, c: nat)
    requires Inv(s) && Enabled(s, step) && Internal(step) && c < |s.chans|
    ensures !Strands(s, step, c) && c < |Apply(s, step).chans|
    ensures Apply(s, step).chans[c].accepted == s.chans[c].accepted
  {
  }

  lemma {:induction false} InternalRunSpares(s: State, steps: seq<Step>, c: nat)
    requires Inv(s) && Possible(s, steps) && (forall step | step in steps :: Internal(step))
    requires c < |s.chans| && !Stranded(s, c)
    ensures c < |Run(s, steps).chans| && !Stranded(Run(s, steps), c) && Inv(Run(s, steps))
    ensures Run(s, steps).chans[c].accepted == s.chans[c].accepted
    decreases |steps|
  {
    if steps != [] {
      assert steps[0] in steps;
      InternalStepSpares(s, steps[0], c);
      StepKeeps(s, steps[0]);
      StrandingSteps(s, steps[0], c);
      InternalRunSpares(Apply(s, steps[0]), steps[1..], c);
    }
  }

  lemma NeverReceivedExactly(s: State, c: nat, at: nat)
    requires Inv(s) && c < |s.chans| && at < |s.chans[c].accepted|
    ensures NeverReceived(s, c, at) <==> Stranded(s, c)
  {
    if Stranded(s, c) {
      forall more | Possible(s, more) ensures |From(Run(s, more).received, c)| <= at {
        StrandedForever(s, more, c);
      }
    } else {
      var more := Drain(s);
      InternalRunSpares(s, more, c);
      QuiescentExactly(Run(s, more), c);
      assert |From(Run(s, more).received, c)| > at;
    }
  }

  /** A message whose Publish returned nil can never be received if and only if some step of the
      run stranded its channel. */
  lemma LostExactly(sub: string, steps: seq<Step>, i: nat, c: nat, at: nat)
    requires Possible(Init(sub), steps) && i < |Run(Init(sub), steps).calls|
    requires Run(Init(sub), steps).calls[i].phase == Returned(Accepted(c, at))
    ensures NeverReceived(Run(Init(sub), steps), c, at) <==> StrandedBy(Init(sub), steps, c)
  {
    var s := Run(Init(sub), steps);
    Reached(sub, steps);
    assert CallOk(s, i);
    StrandedExactly(Init(sub), steps, c);
    NeverReceivedExactly(s, c, at);
  }

  /** What the server relies on: while every session id is published once and the broker is not
      closed, no message of the subscriber's topic whose Publish returned nil is ever lost. */
  lemma FreshSessionsAreNeverLost(sub: string, steps: seq<Step>, i: nat, c: nat, at: nat)
    requires Possible(Init(sub), steps) && OnlyPublishers(steps) && NeverCloses(steps)
    requires DistinctKeys(Run(Init(sub), steps)) && i < |Run(Init(sub), steps).calls|
    requires Run(Init(sub), steps).calls[i].phase == Returned(Accepted(c, at))
    ensures var s := Run(Init(sub), steps);
            NeverReceived(s, c, at) <==> !Matches(s.calls[i].Key(), sub)
    ensures Run(Init(sub), steps).calls[i].topic == sub ==> !NeverReceived(Run(Init(sub), steps), c, at)
  {
    var s := Run(Init(sub), steps);
    var call := s.calls[i];
    Reached(sub, steps);
    DistinctIsGuarded(Init(sub), steps);
    GuardedKeepsListed(Init(sub), steps);
    StaysOpen(Init(sub), steps);
    assert CallOk(s, i) && ChannelOk(s, c);
    KeyConservation(sub, steps, call.Key());
    NeverReceivedExactly(s, c, at);
    KeyMatches(sub, call.routingKey);
  }

  // ---- The three ways, by example ----------------------------------------------------

  /** Both calls look the key up before either stores a channel. If the first channel has not been
      discovered, the second store replaces it and the first message is lost. */
  lemma RacingCreatorsLoseAMessage(sub: string, routingKey: string, p: Payload, q: Payload)
    returns (steps: seq<Step>)
    ensures Possible(Init(sub), steps)
    ensures !GuardedRun(Init(sub), steps)
    ensures var s := Run(Init(sub), steps);
            && s.calls == [Call(sub, routingKey, p, Returned(Accepted(0, 0))),
                           Call(sub, routingKey, q, Returned(Accepted(1, 0)))]
            && NeverReceived(s, 0, 0) && !NeverReceived(s, 1, 0)
  {
    var before := ReachHalfWay(sub, routingKey, p, q);
    steps := FinishSecond(sub, before);
    KeyMatches(sub, routingKey);
    Outcome(sub, steps);
  }

  /** If it has been discovered, its key is taken in the polling goroutine's map, and it is the
      second message that is lost. */
  lemma LateCreatorLosesItsMessage(sub: string, routingKey: string, p: Payload, q: Payload)
    returns (steps: seq<Step>)
    ensures Possible(Init(sub), steps)
    ensures !GuardedRun(Init(sub), steps)
    ensures var s := Run(Init(sub), steps);
            && s.calls == [Call(sub, routingKey, p, Returned(Accepted(0, 0))),
                           Call(sub, routingKey, q, Returned(Accepted(1, 0)))]
            && NeverReceived(s, 1, 0) && !NeverReceived(s, 0, 0)
  {
    var key := MakeKey(sub, routingKey);
    var before := ReachHalfWay(sub, routingKey, p, q);
    KeyMatches(sub, routingKey);
    RunSnoc(Init(sub), before, Discover(key));
    steps := FinishSecond(sub, before + [Discover(key)]);
    Outcome(sub, steps);
  }

  /** The key stays taken when `Close` empties the broker's map, so a creator that comes late
      enough loses its message although it replaces nothing. */
  lemma CreatorAfterCloseLosesItsMessage(sub: string, routingKey: string, p: Payload, q: Payload)
    returns (steps: seq<Step>)
    ensures Possible(Init(sub), steps)
    ensures GuardedRun(Init(sub), steps)
    ensures var s := Run(Init(sub), steps);
            && s.calls == [Call(sub, routingKey, p, Returned(Accepted(0, 0))),
                           Call(sub, routingKey, q, Returned(Accepted(1, 0)))]
            && NeverReceived(s, 1, 0) && !NeverReceived(s, 0, 0)
  {
    var key := MakeKey(sub, routingKey);
    var before := ReachHalfWay(sub, routingKey, p, q);
    KeyMatches(sub, routingKey);
    RunSnoc(Init(sub), before, Discover(key));
    RunSnoc(Init(sub), before + [Discover(key)], Close);
    steps := FinishSecond(sub, before + [Discover(key)] + [Close]);
    Outcome(sub, steps);
  }

  /** `Close` over a channel not yet discovered. */
  lemma EarlyCloseLosesAMessage(sub: string, routingKey: string, p: Payload, q: Payload)
    returns (steps: seq<Step>)
    ensures Possible(Init(sub), steps)
    ensures var s := Run(Init(sub), steps);
            |s.calls| == 2 && s.calls[0] == Call(sub, routingKey, p, Returned(Accepted(0, 0)))
            && NeverReceived(s, 0, 0)
  {
    var before := ReachHalfWay(sub, routingKey, p, q);
    KeyMatches(sub, routingKey);
    RunSnoc(Init(sub), before, Close);
    steps := before + [Close];
    Outcome(sub, steps);
  }

  lemma KeyMatches(sub: string, routingKey: string)
    ensures Matches(MakeKey(sub, routingKey), sub)
  {
    assert MakeKey(sub, routingKey)[..|sub| + 1] == sub + ":";
  }

  lemma Outcome(sub: string, steps: seq<Step>)
    requires Possible(Init(sub), steps)
    ensures var s := Run(Init(sub), steps);
            Inv(s) && forall c: nat | c < |s.chans| && |s.chans[c].accepted| > 0 ::
              NeverReceived(s, c, 0) <==> Stranded(s, c)
  {
    var s := Run(Init(sub), steps);
    Reached(sub, steps);
    forall c: nat | c < |s.chans| && |s.chans[c].accepted| > 0
      ensures NeverReceived(s, c, 0) <==> Stranded(s, c)
    {
      NeverReceivedExactly(s, c, 0);
    }
  }
}
