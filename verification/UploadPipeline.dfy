/** An audio upload on its way to the recogniser: a goroutine reads the request body into a
    channel, another sends the channel's chunks on. Any step may be cut short by the context,
    a read error, a send error or the duration limit. */
module UploadPipeline {

  import opened Sequences

  const CHUNK: nat := 4096
  const CAPACITY: nat := 100

  /** What `Body.Read` returns beside its bytes. */
  datatype ReadStatus = NoError | Eof | Broken

  /** Why the reading goroutine closed its channel; a read that fails has its bytes dropped, a
      chunk still being offered when the context ends is lost. */
  datatype Cause = AtEof(dropped: nat) | AtError(dropped: nat) | TooLong | Abandoned(chunk: seq<byte>)

  datatype Reader = Reading | Offering(chunk: seq<byte>) | Stopped(cause: Cause)

  /** The sending goroutine: its end is normal when the channel was closed and empty. */
  datatype Sender = Receiving | Holding(chunk: seq<byte>) | Finished | Failed(chunk: seq<byte>)

  /** `kept` counts the body bytes accepted for sending. */
  datatype State = State(
    body: seq<byte>, kept: nat, reader: Reader, chan: seq<seq<byte>>,
    sender: Sender, sent: seq<seq<byte>>, done: bool)

  function Init(body: seq<byte>): State {
    State(body, 0, Reading, [], Receiving, [], false)
  }

  datatype Step =
    | Read(n: nat, status: ReadStatus, overdue: bool)
    | Offer(overdue: bool)
    | GiveUp
    | Take
    | Send(ok: bool)
    | EndOfStream
    | Leave
    | Expire

  predicate Enabled(s: State, step: Step) {
    match step
    case Read(n, status, _) =>
      && s.reader.Reading? && n <= CHUNK && s.kept + n <= |s.body|
      && (status.Eof? ==> s.kept + n == |s.body|)
    case Offer(_) => s.reader.Offering? && |s.chan| < CAPACITY
    case GiveUp => s.reader.Offering? && s.done
    case Take => s.sender.Receiving? && s.chan != []
    case Send(_) => s.sender.Holding?
    case EndOfStream => s.sender.Receiving? && s.chan == [] && s.reader.Stopped?
    case Leave => s.sender.Receiving? && s.done
    case Expire => true
  }

  /** The end of a round of the reading loop. */
  function NextRound(overdue: bool): Reader {
    if overdue then Stopped(TooLong) else Reading
  }

  function AfterRead(s: State, n: nat, status: ReadStatus, overdue: bool): State
    requires Enabled(s, Read(n, status, overdue))
  {
    match status
    case Eof => s.(reader := Stopped(AtEof(n)))
    case Broken => s.(reader := Stopped(AtError(n)))
    case NoError =>
      if n > 0 then s.(reader := Offering(s.body[s.kept..s.kept + n]), kept := s.kept + n)
      else s.(reader := NextRound(overdue))
  }

  function Apply(s: State, step: Step): State
    requires Enabled(s, step)
  {
    match step
    case Read(n, status, overdue) => AfterRead(s, n, status, overdue)
    case Offer(overdue) => s.(chan := s.chan + [s.reader.chunk], reader := NextRound(overdue))
    case GiveUp => s.(reader := Stopped(Abandoned(s.reader.chunk)))
    case Take => s.(sender := if s.chan[0] == [] then Receiving else Holding(s.chan[0]), chan := s.chan[1..])
    case Send(ok) =>
      if ok then s.(sent := s.sent + [s.sender.chunk], sender := Receiving)
      else s.(sender := Failed(s.sender.chunk))
    case EndOfStream => s.(sender := Finished)
    case Leave => s.(sender := Failed([]))
    case Expire => s.(done := true)
  }

  predicate Possible(s: State, steps: seq<Step>)
    decreases |steps|
  {
    steps == [] || (Enabled(s, steps[0]) && Possible(Apply(s, steps[0]), steps[1..]))
  }

  function Run(s: State, steps: seq<Step>): State
    requires Possible(s, steps)
    decreases |steps|
  {
    if steps == [] then s else Run(Apply(s, steps[0]), steps[1..])
  }

  function SenderHas(sender: Sender): seq<byte> {
    if sender.Holding? || sender.Failed? then sender.chunk else []
  }

  function ReaderHas(reader: Reader): seq<byte> {
    match reader
    case Offering(chunk) => chunk
    case Stopped(Abandoned(chunk)) => chunk
    case _ => []
  }

  /** Everything kept so far, front to back through the pipeline. */
  function InOrder(s: State): seq<byte> {
    Flatten(s.sent) + SenderHas(s.sender) + Flatten(s.chan) + ReaderHas(s.reader)
  }

  predicate GoodChunk(chunk: seq<byte>) { 1 <= |chunk| <= CHUNK }

  predicate Inv(s: State) {
    && s.kept <= |s.body| && |s.chan| <= CAPACITY
    && InOrder(s) == s.body[..s.kept]
    && (forall c | c in s.sent + s.chan :: GoodChunk(c))
    && (s.reader.Offering? ==> GoodChunk(s.reader.chunk))
    && (s.sender.Holding? ==> GoodChunk(s.sender.chunk))
    && (s.sender.Finished? ==> s.chan == [] && s.reader.Stopped?)
    && (s.reader.Stopped? && s.reader.cause.AtEof? ==> s.kept + s.reader.cause.dropped == |s.body|)
    && (s.reader.Stopped? && s.reader.cause.Abandoned? ==> s.done)
  }

  lemma KeepChunk(s: State, n: nat)
    requires Inv(s) && Enabled(s, Read(n, NoError, false)) && n > 0
    ensures Inv(Apply(s, Read(n, NoError, false)))
  {
    var t := Apply(s, Read(n, NoError, false));
    var chunk, behind := s.body[s.kept..s.kept + n], Flatten(s.sent) + SenderHas(s.sender) + Flatten(s.chan);
    assert InOrder(s) == behind + [] == behind;
    assert s.body[..s.kept] + chunk == s.body[..s.kept + n];
    assert InOrder(t) == behind + chunk == t.body[..t.kept];
  }

  lemma ReadKeeps(s: State, n: nat, status: ReadStatus, overdue: bool)
    requires Inv(s) && Enabled(s, Read(n, status, overdue))
    ensures Inv(Apply(s, Read(n, status, overdue)))
  {
    var t := Apply(s, Read(n, status, overdue));
    if status.NoError? && n > 0 {
      KeepChunk(s, n);
    } else {
      assert InOrder(t) == InOrder(s);
    }
  }

  lemma OfferKeeps(s: State, overdue: bool)
    requires Inv(s) && Enabled(s, Offer(overdue))
    ensures Inv(Apply(s, Offer(overdue)))
  {
    var t := Apply(s, Offer(overdue));
    FlattenSnoc(s.chan, s.reader.chunk);
    Regroup(Flatten(s.sent) + SenderHas(s.sender), Flatten(s.chan), s.reader.chunk);
    assert InOrder(t) == InOrder(s) + [];
  }

  lemma TakeKeeps(s: State)
    requires Inv(s) && Enabled(s, Take)
    ensures Inv(Apply(s, Take))
  {
    var first, rest := s.chan[0], s.chan[1..];
    assert s.chan == [first] + rest;
    assert first in s.sent + s.chan;
    FlattenCons(first, rest);
    assert Flatten(s.sent) + [] == Flatten(s.sent);
    Regroup(Flatten(s.sent), first, Flatten(rest));
    assert forall c | c in s.sent + rest :: c in s.sent + s.chan;
  }

  lemma SendKeeps(s: State, ok: bool)
    requires Inv(s) && Enabled(s, Send(ok))
    ensures Inv(Apply(s, Send(ok)))
  {
    var t := Apply(s, Send(ok));
    if ok {
      FlattenSnoc(s.sent, s.sender.chunk);
      assert Flatten(t.sent) + SenderHas(t.sender) == Flatten(s.sent) + SenderHas(s.sender);
      assert forall c | c in t.sent + t.chan :: c in s.sent + s.chan || c == s.sender.chunk;
    }
  }

  lemma StepKeeps(s: State, step: Step)
    requires Inv(s) && Enabled(s, step)
    ensures Inv(Apply(s, step))
  {
    match step
    case Read(n, status, overdue) => ReadKeeps(s, n, status, overdue);
    case Offer(overdue) => OfferKeeps(s, overdue);
    case GiveUp =>
    case Take => TakeKeeps(s);
    case Send(ok) => SendKeeps(s, ok);
    case EndOfStream =>
    case Leave =>
    case Expire =>
  }

  lemma {:induction false} RunKeeps(s: State, steps: seq<Step>)
    requires Inv(s) && Possible(s, steps)
    ensures Inv(Run(s, steps)) && Run(s, steps).body == s.body
    decreases |steps|
  {
    if steps != [] {
      StepKeeps(s, steps[0]);
      RunKeeps(Apply(s, steps[0]), steps[1..]);
    }
  }

  /** At every moment, whatever was cut short, the bytes sent are a prefix of the body, in
      non-empty chunks of at most 4096. */
  lemma SentIsPrefix(body: seq<byte>, steps: seq<Step>)
    requires Possible(Init(body), steps)
    ensures var s := Run(Init(body), steps);
            && Flatten(s.sent) <= body
            && forall c | c in s.sent :: 1 <= |c| <= 4096
  {
    RunKeeps(Init(body), steps);
    var s := Run(Init(body), steps);
    assert forall c | c in s.sent :: c in s.sent + s.chan;
    assert InOrder(s) == Flatten(s.sent) + (SenderHas(s.sender) + Flatten(s.chan) + ReaderHas(s.reader));
    assert s.body == s.body[..s.kept] + s.body[s.kept..];
  }

  /** When the stream ends normally after end of file, what is missing is exactly what the last
      read returned together with the end-of-file error; so the whole body was sent if and only
      if the reader reports end of file on its own. */
  lemma WholeBodyExactly(body: seq<byte>, steps: seq<Step>)
    requires Possible(Init(body), steps)
    requires var s := Run(Init(body), steps);
             s.sender.Finished? && s.reader.Stopped? && s.reader.cause.AtEof?
    ensures var s := Run(Init(body), steps);
            && s.reader.cause.dropped <= |body|
            && Flatten(s.sent) == body[..|body| - s.reader.cause.dropped]
            && (Flatten(s.sent) == body <==> s.reader.cause.dropped == 0)
  {
    RunKeeps(Init(body), steps);
    var s := Run(Init(body), steps);
    assert InOrder(s) == Flatten(s.sent);
    assert body[..|body|] == body;
  }

  // ---- Stopping ------------------------------------------------------------------------

  /** The steps that make the reading goroutine leave its loop: a read that fails, end of file, the
      duration check after an empty read or a chunk put on the channel, and the select's done case. */
  predicate EndsReading(step: Step) {
    match step
    case Read(n, status, overdue) => status != NoError || (n == 0 && overdue)
    case Offer(overdue) => overdue
    case GiveUp => true
    case _ => false
  }

  predicate EndsReadingIn(steps: seq<Step>) {
    exists i :: 0 <= i < |steps| && EndsReading(steps[i])
  }

  predicate EndsSending(step: Step) {
    step == Send(false) || step == EndOfStream || step == Leave
  }

  predicate EndsSendingIn(steps: seq<Step>) {
    exists i :: 0 <= i < |steps| && EndsSending(steps[i])
  }

  predicate Ended(sender: Sender) { sender.Finished? || sender.Failed? }

  lemma EndsCons(first: Step, rest: seq<Step>)
    ensures EndsReadingIn([first] + rest) <==> EndsReading(first) || EndsReadingIn(rest)
    ensures EndsSendingIn([first] + rest) <==> EndsSending(first) || EndsSendingIn(rest)
  {
    var steps := [first] + rest;
    assert steps[0] == first && forall i | 0 <= i < |rest| :: steps[i + 1] == rest[i];
  }

  lemma StepStops(s: State, step: Step)
    requires Enabled(s, step)
    ensures Apply(s, step).reader.Stopped? <==> s.reader.Stopped? || EndsReading(step)
    ensures Ended(Apply(s, step).sender) <==> Ended(s.sender) || EndsSending(step)
    ensures Apply(s, step).done <==> s.done || step == Expire
    ensures s.reader.Stopped? ==> Apply(s, step).reader == s.reader && Apply(s, step).kept == s.kept
    ensures Ended(s.sender) ==> Apply(s, step).sender == s.sender && Apply(s, step).sent == s.sent
  {
  }

  /** Each goroutine has left its loop if and only if the run has one of the steps that end it, and
      the context is done if and only if it expired. */
  lemma {:induction false} StopsExactly(s: State, steps: seq<Step>)
    requires Possible(s, steps)
    ensures Run(s, steps).reader.Stopped? <==> s.reader.Stopped? || EndsReadingIn(steps)
    ensures Ended(Run(s, steps).sender) <==> Ended(s.sender) || EndsSendingIn(steps)
    ensures Run(s, steps).done <==> s.done || Expire in steps
    decreases |steps|
  {
    if steps != [] {
      assert steps == [steps[0]] + steps[1..];
      EndsCons(steps[0], steps[1..]);
      StepStops(s, steps[0]);
      StopsExactly(Apply(s, steps[0]), steps[1..]);
    }
  }

  lemma {:induction false} StaysStopped(s: State, steps: seq<Step>)
    requires Possible(s, steps)
    ensures s.reader.Stopped? ==> Run(s, steps).reader == s.reader && Run(s, steps).kept == s.kept
    ensures Ended(s.sender) ==> Run(s, steps).sender == s.sender && Run(s, steps).sent == s.sent
    decreases |steps|
  {
    if steps != [] {
      StepStops(s, steps[0]);
      StaysStopped(Apply(s, steps[0]), steps[1..]);
    }
  }

  /** After a read error, end of file, the duration limit or the done case no further byte of the
      body is sent, and after the sender's end nothing is, in every continuation. */
  lemma NothingAfterStop(body: seq<byte>, steps: seq<Step>, more: seq<Step>)
    requires Possible(Init(body), steps) && Possible(Run(Init(body), steps), more)
    ensures var s, t := Run(Init(body), steps), Run(Run(Init(body), steps), more);
            && s.kept <= |body|
            && (EndsReadingIn(steps) ==> t.reader.Stopped? && Flatten(t.sent) <= body[..s.kept])
            && (EndsSendingIn(steps) ==> t.sent == s.sent)
  {
    var s, t := Run(Init(body), steps), Run(Run(Init(body), steps), more);
    StopsExactly(Init(body), steps);
    StaysStopped(s, more);
    RunKeeps(Init(body), steps);
    RunKeeps(s, more);
    assert InOrder(t) == Flatten(t.sent) + (SenderHas(t.sender) + Flatten(t.chan) + ReaderHas(t.reader));
  }

  /** A chunk goes onto the channel exactly while fewer than 100 are there; otherwise the reader
      waits, and only the done case can end that. */
  lemma OffersExactly(body: seq<byte>, steps: seq<Step>)
    requires Possible(Init(body), steps)
    ensures var s := Run(Init(body), steps);
            && |s.chan| <= 100
            && (s.reader.Offering? ==> forall overdue :: Enabled(s, Offer(overdue)) <==> |s.chan| < 100)
            && (s.reader.Offering? ==> (Enabled(s, GiveUp) <==> s.done))
  {
    RunKeeps(Init(body), steps);
  }

  lemma {:induction false} RunSnoc(s: State, steps: seq<Step>, step: Step)
    requires Possible(s, steps) && Enabled(Run(s, steps), step)
    ensures Possible(s, steps + [step])
    ensures Run(s, steps + [step]) == Apply(Run(s, steps), step)
    decreases |steps|
  {
    if steps == [] {
      assert steps + [step] == [step];
    } else {
      assert (steps + [step])[1..] == steps[1..] + [step];
      RunSnoc(Apply(s, steps[0]), steps[1..], step);
    }
  }

  /** A body that fits one read and comes with its end of file is never sent at all. */
  lemma ShortBodyIsDropped(body: seq<byte>) returns (steps: seq<Step>)
    requires 1 <= |body| <= 4096
    ensures Possible(Init(body), steps)
    ensures var s := Run(Init(body), steps);
            s.sender.Finished? && s.reader == Stopped(AtEof(|body|)) && Flatten(s.sent) == []
  {
    RunSnoc(Init(body), [], Read(|body|, Eof, false));
    RunSnoc(Init(body), [Read(|body|, Eof, false)], EndOfStream);
    steps := [Read(|body|, Eof, false)] + [EndOfStream];
  }
}
