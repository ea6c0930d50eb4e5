/** Conservation, order, draining and loss: what happens to an accepted message. */
module BrokerDelivery {
  import opened BrokerModel
  import opened BrokerInvariant

  // ---- Conservation ------------------------------------------------------------------

  /** In every reachable state a channel's accepted messages are, in order and without loss
      or repetition, the ones the listener has, those in the wildcard channel, the one in the
      forwarder's hand, and those still buffered. */
  lemma ChannelConservation(sub: string, steps: seq<Step>, c: nat)
    requires Possible(Init(sub), steps)
    requires c < |Run(Init(sub), steps).chans|
    ensures var s := Run(Init(sub), steps);
            var ch := s.chans[c];
            ch.accepted == From(s.received, c) + From(s.wild, c) + Hand(ch.fwd) + ch.buf
  {
    var s := Run(Init(sub), steps);
    Reached(sub, steps);
    assert Conserved(s, c);
    FromConcat(s.received, s.wild, c);
  }

  /** The accepted logs hold exactly the messages of the calls that returned nil, each once. */
  lemma AcceptedMeansReturnedNil(sub: string, steps: seq<Step>, i: nat, c: nat, at: nat)
    requires Possible(Init(sub), steps)
    ensures var s := Run(Init(sub), steps);
            (c < |s.chans| && at < |s.chans[c].accepted| && s.chans[c].accepted[at].id == i)
            <==> (i < |s.calls| && s.calls[i].phase == Returned(Accepted(c, at)))
    ensures var s := Run(Init(sub), steps);
            i < |s.calls| && s.calls[i].phase == Returned(Accepted(c, at)) ==>
              && c < |s.chans| && at < |s.chans[c].accepted|
              && s.chans[c].accepted[at] == s.calls[i].Msg(i)
              && s.chans[c].key == s.calls[i].Key()
  {
    var s := Run(Init(sub), steps);
    Reached(sub, steps);
    if c < |s.chans| { assert LogOk(s, c); }
    if i < |s.calls| { assert CallOk(s, i); }
  }

  // ---- The bound on unreceived messages ----------------------------------------------

  /** Messages still inside the first `n` channels: buffered or in a forwarder's hand. */
  function Inside(s: State, n: nat): nat
    requires n <= |s.chans|
  {
    if n == 0 then 0
    else Inside(s, n - 1) + |Hand(s.chans[n - 1].fwd)| + |s.chans[n - 1].buf|
  }

  function AcceptedCount(s: State, n: nat): nat
    requires n <= |s.chans|
  {
    if n == 0 then 0 else AcceptedCount(s, n - 1) + |s.chans[n - 1].accepted|
  }

  function FromCount(log: seq<Entry>, n: nat): nat {
    if n == 0 then 0 else FromCount(log, n - 1) + |From(log, n - 1)|
  }

  lemma {:induction false} FromCountSnoc(log: seq<Entry>, e: Entry, n: nat)
    ensures FromCount(log + [e], n) == FromCount(log, n) + (if e.from < n then 1 else 0)
  {
    if n != 0 {
      FromCountSnoc(log, e, n - 1);
      FromSnoc(log, e, n - 1);
    }
  }

  lemma {:induction false} FromCountEmpty(n: nat)
    ensures FromCount([], n) == 0
  {
    if n != 0 { FromCountEmpty(n - 1); }
  }

  lemma {:induction false} FromCountIsLength(log: seq<Entry>, n: nat)
    requires forall e | e in log :: e.from < n
    ensures FromCount(log, n) == |log|
  {
    if log == [] {
      FromCountEmpty(n);
    } else {
      var front := log[..|log| - 1];
      var last := log[|log| - 1];
      assert log == front + [last];
      FromCountIsLength(front, n);
      FromCountSnoc(front, last, n);
    }
  }

  lemma {:induction false} AcceptedSplits(s: State, n: nat)
    requires Inv(s) && n <= |s.chans|
    ensures AcceptedCount(s, n) == FromCount(s.received + s.wild, n) + Inside(s, n)
  {
    if n != 0 {
      AcceptedSplits(s, n - 1);
      assert Conserved(s, n - 1);
    }
  }

  lemma {:induction false} InsideBound(s: State, n: nat)
    requires Inv(s) && n <= |s.chans|
    ensures Inside(s, n) <= 101 * n
  {
    if n != 0 {
      InsideBound(s, n - 1);
      assert ChannelOk(s, n - 1);
    }
  }

  /** With `n` channels ever made, at most 101 n + 100 accepted messages are unreceived. */
  lemma UnreceivedBound(sub: string, steps: seq<Step>)
    requires Possible(Init(sub), steps)
    ensures var s := Run(Init(sub), steps);
            |s.received| <= AcceptedCount(s, |s.chans|) <= |s.received| + 101 * |s.chans| + 100
  {
    var s := Run(Init(sub), steps);
    Reached(sub, steps);
    AcceptedSplits(s, |s.chans|);
    InsideBound(s, |s.chans|);
    FromCountIsLength(s.received + s.wild, |s.chans|);
  }

  /** When a channel does not take a message: a send finds a topic channel full exactly if it is
      open and holds 100 messages, and a forwarder with a message in hand has to wait exactly while
      the wildcard channel holds 100. */
  lemma RefusedExactly(sub: string, steps: seq<Step>)
    requires Possible(Init(sub), steps)
    ensures var s := Run(Init(sub), steps);
            && (forall i: nat | Enabled(s, Select(i)) ::
                  var ch, phase := s.chans[s.calls[i].phase.ch], Apply(s, Select(i)).calls[i].phase;
                  && (phase == Returned(Full) <==> ch.open && |ch.buf| == 100)
                  && (phase.Returned? && phase.outcome.Accepted? <==> ch.open && |ch.buf| < 100))
            && (forall c: nat | c < |s.chans| && s.chans[c].fwd.Holding? ::
                  !Enabled(s, Put(c)) <==> |s.wild| == 100)
  {
    var s := Run(Init(sub), steps);
    Reached(sub, steps);
    forall i: nat | Enabled(s, Select(i))
      ensures var ch, phase := s.chans[s.calls[i].phase.ch], Apply(s, Select(i)).calls[i].phase;
              && (phase == Returned(Full) <==> ch.open && |ch.buf| == 100)
              && (phase.Returned? && phase.outcome.Accepted? <==> ch.open && |ch.buf| < 100)
    {
      assert ChannelOk(s, s.calls[i].phase.ch);
    }
  }

  // ---- Draining ----------------------------------------------------------------------

  /** The steps the broker's own goroutines and the listener take without any publisher. */
  predicate Internal(step: Step) {
    step.Discover? || step.Take? || step.Put? || step.Exit? || step.Receive?
  }

  ghost predicate Quiescent(s: State) {
    forall step: Step | Internal(step) :: !Enabled(s, step)
  }

  function Weight(ch: Channel): nat {
    3 * |ch.buf| + 2 * |Hand(ch.fwd)| +
    (if ch.fwd.Undiscovered? then 2 else if ch.fwd.Exited? then 0 else 1)
  }

  function Weights(chans: seq<Channel>): nat {
    if chans == [] then 0 else Weights(chans[..|chans| - 1]) + Weight(chans[|chans| - 1])
  }

  function Measure(s: State): nat {
    Weights(s.chans) + |s.wild|
  }

  lemma {:induction false} WeightsUpdate(chans: seq<Channel>, c: nat, ch: Channel)
    requires c < |chans|
    ensures Weights(chans[c := ch]) == Weights(chans) - Weight(chans[c]) + Weight(ch)
  {
    var front := chans[..|chans| - 1];
    if c == |chans| - 1 {
      assert chans[c := ch][..|chans| - 1] == front;
    } else {
      WeightsUpdate(front, c, ch);
      assert chans[c := ch][..|chans| - 1] == front[c := ch];
    }
  }

  /** Every internal step strictly decreases the measure, in every reachable state. */
  lemma InternalStepDecreases(s: State, step: Step)
    requires Inv(s) && Internal(step) && Enabled(s, step)
    ensures Measure(Apply(s, step)) < Measure(s)
  {
    match step
    case Discover(k) =>
      assert ChannelOk(s, s.topics[k]);
      WeightsUpdate(s.chans, s.topics[k], s.chans[s.topics[k]].(fwd := Idle));
    case Take(c) =>
      var ch := s.chans[c];
      WeightsUpdate(s.chans, c, ch.(buf := ch.buf[1..], fwd := Holding(ch.buf[0])));
    case Put(c) => WeightsUpdate(s.chans, c, s.chans[c].(fwd := Idle));
    case Exit(c) => WeightsUpdate(s.chans, c, s.chans[c].(fwd := Exited));
    case Receive =>
  }

  // ---- Stranded channels -------------------------------------------------------------

  predicate Discoverable(s: State, c: nat) {
    && Listed(s, c) && s.chans[c].fwd.Undiscovered?
    && Matches(s.chans[c].key, s.sub) && s.chans[c].key !in s.found
  }

  /** The polling goroutine has not found this channel and never will. */
  predicate Stranded(s: State, c: nat) {
    c < |s.chans| && s.chans[c].fwd.Undiscovered? && !Discoverable(s, c)
  }

  lemma StrandedForever(s: State, steps: seq<Step>, c: nat)
    requires Inv(s) && Possible(s, steps) && Stranded(s, c)
    ensures Stranded(Run(s, steps), c)
    ensures From(Run(s, steps).received, c) == []
    decreases |steps|
  {
    if steps == [] {
      assert ChannelOk(s, c) && Conserved(s, c);
      FromConcat(s.received, s.wild, c);
    } else {
      StepKeeps(s, steps[0]);
      StrandingSteps(s, steps[0], c);
      StrandedForever(Apply(s, steps[0]), steps[1..], c);
    }
  }

  /** The ways a step strands channel `c`: it makes the channel under a key the polling goroutine
      already has (or that is not the subscriber's), it stores another channel over this one before
      it was discovered, or it is the first `Close` and finds it undiscovered. */
  predicate Strands(s: State, step: Step, c: nat)
    requires Enabled(s, step)
  {
    var t := Apply(s, step);
    || (c == |s.chans| < |t.chans| && !(Matches(t.chans[c].key, s.sub) && t.chans[c].key !in s.found))
    || (Discoverable(s, c) && step.Create? && s.calls[step.call].Key() == s.chans[c].key)
    || (Discoverable(s, c) && step == Close && !s.closed)
  }

  /** Those are all, and no step ever rescues a channel. */
  lemma StrandingSteps(s: State, step: Step, c: nat)
    requires Inv(s) && Enabled(s, step)
    ensures Stranded(Apply(s, step), c) <==> Stranded(s, c) || Strands(s, step, c)
  {
    if c < |s.chans| {
      StrandingOld(s, step, c);
    } else if |s.chans| < |Apply(s, step).chans| {
      StrandingNew(s, step);
    }
  }

  lemma StrandingOld(s: State, step: Step, c: nat)
    requires Inv(s) && Enabled(s, step) && c < |s.chans|
    ensures Stranded(Apply(s, step), c) <==>
              Stranded(s, c)
              || (Discoverable(s, c)
                  && ((step.Create? && s.calls[step.call].Key() == s.chans[c].key) || (step == Close && !s.closed)))
  {
    match step
    case Discover(k) => StrandingDiscover(s, k, c);
    case Create(i) => StrandingStore(s, s.calls[i].Key(), c);
    case SubscribeKey(topic, routingKey) =>
      if MakeKey(topic, routingKey) !in s.topics { StrandingStore(s, MakeKey(topic, routingKey), c); }
    case Close => assert Closed(s).chans[c].fwd == s.chans[c].fwd;
    case _ => StrandingOther(s, step, c);
  }

  lemma StrandingDiscover(s: State, k: string, c: nat)
    requires Inv(s) && Enabled(s, Discover(k)) && c < |s.chans|
    ensures Stranded(Apply(s, Discover(k)), c) <==> Stranded(s, c)
  {
    assert ChannelOk(s, c) && s.chans[s.topics[k]].key == k;
  }

  lemma StrandingOther(s: State, step: Step, c: nat)
    requires Inv(s) && Enabled(s, step) && c < |s.chans|
    requires !step.Discover? && !step.Create? && !step.SubscribeKey? && step != Close
    ensures Stranded(Apply(s, step), c) <==> Stranded(s, c)
  {
    var t := Apply(s, step);
    assert t.topics == s.topics && t.found == s.found && t.sub == s.sub && t.chans[c].key == s.chans[c].key;
    assert t.chans[c].fwd.Undiscovered? <==> s.chans[c].fwd.Undiscovered?;
  }

  lemma StrandingStore(s: State, key: string, c: nat)
    requires Inv(s) && c < |s.chans|
    ensures Stranded(Store(s, key), c) <==> Stranded(s, c) || (Discoverable(s, c) && key == s.chans[c].key)
  {
  }

  lemma StrandingNew(s: State, step: Step)
    requires Enabled(s, step) && |s.chans| < |Apply(s, step).chans|
    ensures |Apply(s, step).chans| == |s.chans| + 1
    ensures var ch := Apply(s, step).chans[|s.chans|];
            Stranded(Apply(s, step), |s.chans|) <==> !(Matches(ch.key, s.sub) && ch.key !in s.found)
  {
  }

  /** When no internal step is left, a channel has been received completely unless it is
      stranded, and a stranded one not at all. This holds with or without `Close`: channels the
      polling goroutine found before `Close` are still forwarded to the last message. */
  lemma QuiescentExactly(s: State, c: nat)
    requires Inv(s) && Quiescent(s) && c < |s.chans|
    ensures s.wild == []
    ensures From(s.received, c) == if Stranded(s, c) then [] else s.chans[c].accepted
  {
    assert !Enabled(s, Receive);
    assert s.received + s.wild == s.received;
    assert Conserved(s, c) && ChannelOk(s, c);
    QuietChannel(s, c);
    if Stranded(s, c) {
      assert |s.chans[c].accepted| == |From(s.received, c)| + |s.chans[c].buf|;
    }
  }

  /** A quiet channel is stranded, or its forwarder has emptied it. */
  lemma QuietChannel(s: State, c: nat)
    requires Inv(s) && Quiescent(s) && c < |s.chans|
    ensures Stranded(s, c) <==> s.chans[c].fwd.Undiscovered?
    ensures Hand(s.chans[c].fwd) == [] && (s.chans[c].fwd.Undiscovered? || s.chans[c].buf == [])
  {
    assert !Enabled(s, Receive) && !Enabled(s, Discover(s.chans[c].key));
    assert !Enabled(s, Take(c)) && !Enabled(s, Put(c));
    assert ChannelOk(s, c);
  }

  /** The pipeline never sticks: from every reachable state a finite run of internal steps
      leads to quiescence. */
  lemma {:induction false} Drain(s: State) returns (steps: seq<Step>)
    requires Inv(s)
    ensures Possible(s, steps) && (forall step | step in steps :: Internal(step))
    ensures |steps| <= Measure(s)
    ensures Quiescent(Run(s, steps))
    decreases Measure(s)
  {
    if Quiescent(s) {
      steps := [];
    } else {
      var step: Step :| Internal(step) && Enabled(s, step);
      StepKeeps(s, step);
      InternalStepDecreases(s, step);
      var rest := Drain(Apply(s, step));
      steps := [step] + rest;
    }
  }
}
