/** What every reachable state of the broker satisfies, proved step by step. */
module BrokerInvariant {
  import opened BrokerModel

  /** Conservation for one channel: what was accepted is what left through the wildcard
      channel, then the message in the forwarder's hand, then the buffer. */
  predicate Conserved(s: State, c: nat)
    requires c < |s.chans|
  {
    var ch := s.chans[c];
    ch.accepted == From(s.received + s.wild, c) + Hand(ch.fwd) + ch.buf
  }

  predicate ChannelOk(s: State, c: nat)
    requires c < |s.chans|
  {
    var ch := s.chans[c];
    && |ch.buf| <= CAPACITY
    && (ch.fwd.Undiscovered? <==> !(ch.key in s.found && s.found[ch.key] == c))
    && (ch.fwd.Undiscovered? ==> ch.accepted == ch.buf)
    && (ch.fwd.Exited? ==> ch.buf == [] && !ch.open)
    && (!ch.open ==> s.closed)
  }

  /** Every entry of the accepted log belongs to the call that got nil back for it. */
  predicate LogOk(s: State, c: nat)
    requires c < |s.chans|
  {
    var log := s.chans[c].accepted;
    forall at | 0 <= at < |log| ::
      log[at].id < |s.calls| && s.calls[log[at].id].phase == Returned(Accepted(c, at))
  }

  predicate CallOk(s: State, i: nat)
    requires i < |s.calls|
  {
    var call := s.calls[i];
    match call.phase
    case Missing => true
    case Created(c) => c < |s.chans| && s.chans[c].key == call.Key()
    case Ready(c, creator) =>
      && c < |s.chans| && s.chans[c].key == call.Key()
      && (!creator ==> Listed(s, c))
    case Returned(Accepted(c, at)) =>
      && c < |s.chans| && s.chans[c].key == call.Key()
      && at < |s.chans[c].accepted| && s.chans[c].accepted[at] == call.Msg(i)
    case Returned(_) => true
  }

  predicate TopicsOk(s: State) {
    forall k | k in s.topics ::
      s.topics[k] < |s.chans| && s.chans[s.topics[k]].key == k && s.chans[s.topics[k]].open
  }

  predicate FoundOk(s: State) {
    forall k | k in s.found ::
      s.found[k] < |s.chans| && s.chans[s.found[k]].key == k && Matches(k, s.sub)
  }

  predicate EntriesOk(s: State) {
    && |s.wild| <= CAPACITY
    && forall e | e in s.received + s.wild :: e.from < |s.chans|
  }

  ghost predicate Inv(s: State) {
    && TopicsOk(s) && FoundOk(s) && EntriesOk(s)
    && (forall c | 0 <= c < |s.chans| :: ChannelOk(s, c))
    && (forall c | 0 <= c < |s.chans| :: Conserved(s, c))
    && (forall c | 0 <= c < |s.chans| :: LogOk(s, c))
    && (forall i | 0 <= i < |s.calls| :: CallOk(s, i))
  }

  lemma {:induction false} FromConcat(a: seq<Entry>, b: seq<Entry>, c: nat)
    ensures From(a + b, c) == From(a, c) + From(b, c)
  {
    if b == [] {
      assert a + b == a;
    } else {
      FromConcat(a, b[..|b| - 1], c);
      assert (a + b)[..|a + b| - 1] == a + b[..|b| - 1];
    }
  }

  lemma {:induction false} FromNone(log: seq<Entry>, c: nat)
    requires forall e | e in log :: e.from != c
    ensures From(log, c) == []
  {
    if log != [] {
      FromNone(log[..|log| - 1], c);
    }
  }

  lemma FromSnoc(log: seq<Entry>, e: Entry, c: nat)
    ensures From(log + [e], c) == From(log, c) + (if e.from == c then [e.msg] else [])
  {
    assert (log + [e])[..|log|] == log;
  }

  lemma BeginKeeps(s: State, topic: string, routingKey: string, payload: Payload)
    requires Inv(s)
    ensures Inv(Apply(s, Begin(topic, routingKey, payload)))
  {
    var t := Apply(s, Begin(topic, routingKey, payload));
    forall c | 0 <= c < |t.chans| ensures ChannelOk(t, c) && Conserved(t, c) && LogOk(t, c) {
      assert ChannelOk(s, c) && Conserved(s, c) && LogOk(s, c);
    }
    forall i | 0 <= i < |t.calls| ensures CallOk(t, i) {
      if i < |s.calls| { assert CallOk(s, i); }
    }
  }

  /** A channel nobody has used yet, stored under `key`, breaks nothing while no reader waits. */
  lemma StoreKeeps(s: State, key: string)
    requires Inv(s) && NoReaders(s)
    ensures Inv(Store(s, key)) && NoReaders(Store(s, key))
  {
    var t := Store(s, key);
    forall c | 0 <= c < |t.chans| ensures ChannelOk(t, c) && Conserved(t, c) && LogOk(t, c) {
      if c < |s.chans| {
        assert ChannelOk(s, c) && Conserved(s, c) && LogOk(s, c);
      } else {
        FromNone(s.received + s.wild, c);
      }
    }
    forall i | 0 <= i < |t.calls| ensures CallOk(t, i) {
      assert CallOk(s, i);
    }
  }

  lemma PhaseKeepsLogs(s: State, i: nat, phase: Phase)
    requires Inv(s) && i < |s.calls| && !s.calls[i].phase.Returned?
    ensures var t := WithPhase(s, i, phase);
            forall c | 0 <= c < |t.chans| :: LogOk(t, c)
  {
    var t := WithPhase(s, i, phase);
    forall c | 0 <= c < |t.chans| ensures LogOk(t, c) {
      assert LogOk(s, c);
    }
  }

  /** A call that has not returned moves on without touching any channel. */
  lemma PhaseKeeps(s: State, i: nat, phase: Phase)
    requires Inv(s) && i < |s.calls| && !s.calls[i].phase.Returned?
    requires !(phase.Returned? && phase.outcome.Accepted?)
    requires phase.Created? || phase.Ready? ==>
               phase.ch < |s.chans| && s.chans[phase.ch].key == s.calls[i].Key()
    requires phase.Ready? ==> phase.creator
    ensures Inv(WithPhase(s, i, phase))
  {
    var t := WithPhase(s, i, phase);
    PhaseKeepsLogs(s, i, phase);
    forall c | 0 <= c < |t.chans| ensures ChannelOk(t, c) && Conserved(t, c) {
      assert ChannelOk(s, c) && Conserved(s, c);
    }
    forall j | 0 <= j < |t.calls| ensures CallOk(t, j) {
      assert CallOk(s, j);
    }
  }

  predicate Accepting(s: State, i: nat) {
    && Enabled(s, Select(i))
    && s.chans[s.calls[i].phase.ch].open && |s.chans[s.calls[i].phase.ch].buf| < CAPACITY
  }

  lemma AcceptKeepsCalls(s: State, i: nat)
    requires Inv(s) && Accepting(s, i)
    ensures var t := Apply(s, Select(i));
            forall j | 0 <= j < |t.calls| :: CallOk(t, j)
  {
    var t := Apply(s, Select(i));
    assert CallOk(s, i);
    forall j | 0 <= j < |t.calls| ensures CallOk(t, j) {
      assert CallOk(s, j);
    }
  }

  lemma AcceptKeepsLogs(s: State, i: nat)
    requires Inv(s) && Accepting(s, i)
    ensures var t := Apply(s, Select(i));
            forall c | 0 <= c < |t.chans| :: LogOk(t, c)
  {
    var t := Apply(s, Select(i));
    assert CallOk(s, i);
    forall c | 0 <= c < |t.chans| ensures LogOk(t, c) {
      assert LogOk(s, c);
    }
  }

  lemma AcceptKeeps(s: State, i: nat)
    requires Inv(s) && Accepting(s, i)
    ensures Inv(Apply(s, Select(i)))
  {
    var t := Apply(s, Select(i));
    AcceptKeepsCalls(s, i);
    AcceptKeepsLogs(s, i);
    forall c | 0 <= c < |t.chans| ensures ChannelOk(t, c) && Conserved(t, c) {
      assert ChannelOk(s, c) && Conserved(s, c);
    }
  }

  lemma SelectKeeps(s: State, i: nat)
    requires Inv(s) && Enabled(s, Select(i))
    ensures Inv(Apply(s, Select(i)))
  {
    var ch := s.chans[s.calls[i].phase.ch];
    if !ch.open {
      PhaseKeeps(s, i, Returned(Panicked));
    } else if |ch.buf| >= CAPACITY {
      PhaseKeeps(s, i, Returned(Full));
    } else {
      AcceptKeeps(s, i);
    }
  }

  lemma CloseKeeps(s: State)
    requires Inv(s) && Enabled(s, Close)
    ensures Inv(Apply(s, Close))
  {
    var t := Apply(s, Close);
    forall c | 0 <= c < |t.chans| ensures ChannelOk(t, c) && Conserved(t, c) && LogOk(t, c) {
      assert ChannelOk(s, c) && Conserved(s, c) && LogOk(s, c);
    }
    forall i | 0 <= i < |t.calls| ensures CallOk(t, i) {
      assert CallOk(s, i);
    }
  }

  lemma DiscoverKeeps(s: State, k: string)
    requires Inv(s) && Enabled(s, Discover(k))
    ensures Inv(Apply(s, Discover(k)))
  {
    var t := Apply(s, Discover(k));
    forall c | 0 <= c < |t.chans| ensures ChannelOk(t, c) && Conserved(t, c) && LogOk(t, c) {
      assert ChannelOk(s, c) && Conserved(s, c) && LogOk(s, c);
    }
    forall i | 0 <= i < |t.calls| ensures CallOk(t, i) {
      assert CallOk(s, i);
    }
  }

  /** Steps that only move messages on leave the logs and the calls as they were. */
  lemma CallsKept(s: State, t: State)
    requires Inv(s) && t.calls == s.calls && t.topics == s.topics && |t.chans| == |s.chans|
    requires forall c | 0 <= c < |s.chans| ::
               t.chans[c].key == s.chans[c].key && t.chans[c].accepted == s.chans[c].accepted
    ensures forall c | 0 <= c < |t.chans| :: LogOk(t, c)
    ensures forall i | 0 <= i < |t.calls| :: CallOk(t, i)
  {
    forall c | 0 <= c < |t.chans| ensures LogOk(t, c) {
      assert LogOk(s, c);
    }
    forall i | 0 <= i < |t.calls| ensures CallOk(t, i) {
      assert CallOk(s, i);
    }
  }

  lemma TakeKeeps(s: State, c: nat)
    requires Inv(s) && Enabled(s, Take(c))
    ensures Inv(Apply(s, Take(c)))
  {
    var t := Apply(s, Take(c));
    CallsKept(s, t);
    assert s.chans[c].buf == [s.chans[c].buf[0]] + s.chans[c].buf[1..];
    forall d | 0 <= d < |t.chans| ensures ChannelOk(t, d) && Conserved(t, d) {
      assert ChannelOk(s, d) && Conserved(s, d);
    }
  }

  lemma PutKeeps(s: State, c: nat)
    requires Inv(s) && Enabled(s, Put(c))
    ensures Inv(Apply(s, Put(c)))
  {
    var t := Apply(s, Put(c));
    CallsKept(s, t);
    var e := Entry(c, s.chans[c].fwd.msg);
    assert t.received + t.wild == (s.received + s.wild) + [e];
    forall d | 0 <= d < |t.chans| ensures ChannelOk(t, d) && Conserved(t, d) {
      assert ChannelOk(s, d) && Conserved(s, d);
      FromSnoc(s.received + s.wild, e, d);
    }
  }

  lemma ExitKeeps(s: State, c: nat)
    requires Inv(s) && Enabled(s, Exit(c))
    ensures Inv(Apply(s, Exit(c)))
  {
    var t := Apply(s, Exit(c));
    CallsKept(s, t);
    forall d | 0 <= d < |t.chans| ensures ChannelOk(t, d) && Conserved(t, d) {
      assert ChannelOk(s, d) && Conserved(s, d);
    }
  }

  lemma ReceiveKeeps(s: State)
    requires Inv(s) && Enabled(s, Receive)
    ensures Inv(Apply(s, Receive))
  {
    var t := Apply(s, Receive);
    assert t.received + t.wild == s.received + s.wild;
    CallsKept(s, t);
    forall c | 0 <= c < |t.chans| ensures ChannelOk(t, c) && Conserved(t, c) {
      assert ChannelOk(s, c) && Conserved(s, c);
    }
  }

  lemma StepKeeps(s: State, step: Step)
    requires Inv(s) && Enabled(s, step)
    ensures Inv(Apply(s, step))
  {
    match step
    case Begin(topic, routingKey, payload) => BeginKeeps(s, topic, routingKey, payload);
    case Create(i) =>
      StoreKeeps(s, s.calls[i].Key());
      PhaseKeeps(Store(s, s.calls[i].Key()), i, Created(|s.chans|));
    case Relock(i) =>
      assert CallOk(s, i);
      PhaseKeeps(s, i, Ready(s.calls[i].phase.ch, true));
    case Select(i) => SelectKeeps(s, i);
    case Cancel(i) => PhaseKeeps(s, i, Returned(Cancelled));
    case SubscribeKey(topic, routingKey) =>
      if !s.closed && MakeKey(topic, routingKey) !in s.topics {
        StoreKeeps(s, MakeKey(topic, routingKey));
      }
    case Close => CloseKeeps(s);
    case Discover(k) => DiscoverKeeps(s, k);
    case Take(c) => TakeKeeps(s, c);
    case Put(c) => PutKeeps(s, c);
    case Exit(c) => ExitKeeps(s, c);
    case Receive => ReceiveKeeps(s);
  }

  lemma {:induction false} RunKeeps(s: State, steps: seq<Step>)
    requires Inv(s) && Possible(s, steps)
    ensures Inv(Run(s, steps))
    decreases |steps|
  {
    if steps != [] {
      StepKeeps(s, steps[0]);
      RunKeeps(Apply(s, steps[0]), steps[1..]);
    }
  }

  lemma Reached(sub: string, steps: seq<Step>)
    requires Possible(Init(sub), steps)
    ensures Inv(Run(Init(sub), steps))
  {
    RunKeeps(Init(sub), steps);
  }
}
