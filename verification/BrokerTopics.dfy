/** Which keys belong to a topic: the separator makes keys readable back only while topics
    are free of it. */
module BrokerTopics {
  import opened BrokerModel
  import opened BrokerInvariant

  predicate ColonFree(s: string) { ':' !in s }

  /** In a key the first colon ends a colon-free topic. */
  lemma FirstColon(topic: string, routingKey: string)
    requires ColonFree(topic)
    ensures MakeKey(topic, routingKey)[|topic|] == ':'
    ensures forall i | 0 <= i < |topic| :: MakeKey(topic, routingKey)[i] != ':'
  {
    forall i | 0 <= i < |topic| ensures MakeKey(topic, routingKey)[i] != ':' {
      assert topic[i] in topic;
    }
  }

  lemma KeysAreInjective(t1: string, r1: string, t2: string, r2: string)
    requires ColonFree(t1) && ColonFree(t2)
    requires MakeKey(t1, r1) == MakeKey(t2, r2)
    ensures t1 == t2 && r1 == r2
  {
    var k := MakeKey(t1, r1);
    FirstColon(t1, r1);
    FirstColon(t2, r2);
    assert |t1| == |t2|;
    assert t1 == k[..|t1|] == t2;
    assert r1 == k[|t1| + 1..] == r2;
  }

  /** Without the restriction two different publications share a key. */
  lemma KeysCollide(r: string)
    ensures MakeKey("a", "b:" + r) == MakeKey("a:b", r)
  {
    assert "a" + ":" + ("b:" + r) == "a:b" + ":" + r;
  }

  /** Exactly which pairs of topics can share a key: one extends the other past a colon. */
  lemma CollisionsExactly(t1: string, t2: string)
    ensures (exists r1, r2 :: MakeKey(t1, r1) == MakeKey(t2, r2))
            <==> t1 == t2 || Matches(t1, t2) || Matches(t2, t1)
  {
    forall r1, r2 | MakeKey(t1, r1) == MakeKey(t2, r2) ensures t1 == t2 || Matches(t1, t2) || Matches(t2, t1) {
      SharedKey(t1, r1, t2, r2);
    }
    if t1 == t2 {
      assert MakeKey(t1, "") == MakeKey(t2, "");
    } else if Matches(t1, t2) {
      SharesWith(t2, t1);
      assert MakeKey(t1, "") == MakeKey(t2, t1[|t2| + 1..] + ":");
    } else if Matches(t2, t1) {
      SharesWith(t1, t2);
      assert MakeKey(t1, t2[|t1| + 1..] + ":") == MakeKey(t2, "");
    }
  }

  lemma SharedKey(t1: string, r1: string, t2: string, r2: string)
    requires MakeKey(t1, r1) == MakeKey(t2, r2)
    ensures t1 == t2 || Matches(t1, t2) || Matches(t2, t1)
  {
    var k := MakeKey(t1, r1);
    assert t1 == k[..|t1|] && t2 == k[..|t2|] && k[|t1|] == ':' == k[|t2|];
    if |t1| < |t2| {
      assert t2[..|t1| + 1] == t1 + ":";
    } else if |t2| < |t1| {
      assert t1[..|t2| + 1] == t2 + ":";
    }
  }

  lemma SharesWith(short: string, long: string)
    requires Matches(long, short)
    ensures MakeKey(short, long[|short| + 1..] + ":") == MakeKey(long, "")
  {
    assert long == short + ":" + long[|short| + 1..];
    assert long + ":" + "" == short + ":" + (long[|short| + 1..] + ":");
  }

  /** Exactly which topics a wildcard subscription to a colon-free topic picks up. */
  lemma MatchesExactly(sub: string, topic: string, routingKey: string)
    requires ColonFree(sub)
    ensures Matches(MakeKey(topic, routingKey), sub) <==> topic == sub || Matches(topic, sub)
  {
    var k := MakeKey(topic, routingKey);
    var p := sub + ":";
    if p <= k {
      assert k[..|p|] == p;
      FirstColon(sub, k[|p|..]);
      assert MakeKey(sub, k[|p|..]) == k;
      assert k[|topic|] == ':' && |sub| <= |topic|;
      if |topic| == |sub| {
        assert topic == k[..|sub|] == sub;
      } else {
        assert topic[..|p|] == k[..|p|] == p;
      }
    }
    if topic == sub {
      assert k[..|p|] == p;
    }
    if p <= topic {
      assert k[..|p|] == topic[..|p|];
    }
  }

  lemma {:induction false} FromMember(log: seq<Entry>, e: Entry)
    requires e in log
    ensures e.msg in From(log, e.from)
  {
    var last := log[|log| - 1];
    if last != e {
      var i :| 0 <= i < |log| && log[i] == e;
      assert log[..|log| - 1][i] == e;
      FromMember(log[..|log| - 1], e);
    }
  }

  /** Whatever has left through the wildcard channel was accepted on the channel it names,
      under that channel's key. */
  lemma EntryWasAccepted(s: State, e: Entry)
    requires Inv(s) && e in s.received + s.wild
    ensures e.from < |s.chans| && e.msg in s.chans[e.from].accepted
    ensures MakeKey(e.msg.topic, e.msg.routingKey) == s.chans[e.from].key
    ensures !s.chans[e.from].fwd.Undiscovered?
    ensures Matches(s.chans[e.from].key, s.sub)
  {
    var c := e.from;
    assert Conserved(s, c) && ChannelOk(s, c) && LogOk(s, c);
    FromMember(s.received + s.wild, e);
    assert |From(s.received + s.wild, c)| > 0;
    assert e.msg in From(s.received + s.wild, c) + Hand(s.chans[c].fwd) + s.chans[c].buf;
    var at :| 0 <= at < |s.chans[c].accepted| && s.chans[c].accepted[at] == e.msg;
    assert CallOk(s, e.msg.id);
  }

  /** Topic isolation: the wildcard subscriber of a colon-free topic receives messages of its
      own topic, or of a topic that itself extends `sub` past a colon, and nothing else. */
  lemma WildcardIsolation(sub: string, steps: seq<Step>, e: Entry)
    requires ColonFree(sub) && Possible(Init(sub), steps)
    requires e in Run(Init(sub), steps).received
    ensures e.msg.topic == sub || Matches(e.msg.topic, sub)
    ensures ColonFree(e.msg.topic) ==> e.msg.topic == sub
  {
    var s := Run(Init(sub), steps);
    Reached(sub, steps);
    SubscriptionFixed(Init(sub), steps);
    EntryWasAccepted(s, e);
    MatchesExactly(sub, e.msg.topic, e.msg.routingKey);
    if Matches(e.msg.topic, sub) {
      assert e.msg.topic[|sub|] == (sub + ":")[|sub|] == ':';
    }
  }

  lemma {:induction false} SubscriptionFixed(s: State, steps: seq<Step>)
    requires Possible(s, steps)
    ensures Run(s, steps).sub == s.sub
    decreases |steps|
  {
    if steps != [] {
      SubscriptionFixed(Apply(s, steps[0]), steps[1..]);
    }
  }
}
