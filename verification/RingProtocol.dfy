/** The ring buffer between its two threads: the websocket thread writes, the audio callback
    reads, and each waits on its condition variable. Every mutex section is one step; a run is
    any sequence of enabled steps, spurious wake-ups included. */
module RingProtocol {
  import opened Sequences
  import opened RingBuffer

  /** `Asleep` is inside `pthread_cond_wait` with no signal pending; `Awake` has been signalled
      and has still to take the mutex and look at its loop condition again. */
  datatype Writer = WriterAway | WriterAsleep(data: seq<byte>) | WriterAwake(data: seq<byte>)
  datatype Reader = ReaderAway | ReaderAsleep(n: nat) | ReaderAwake(n: nat)

  /** `written` and `read` log the bytes of all calls that returned 1. */
  datatype State = State(
    ring: Ring, active: bool, writer: Writer, reader: Reader,
    written: seq<byte>, read: seq<byte>)

  datatype Step =
    | CallWrite(data: seq<byte>)
    | CallRead(n: nat)
    | RetryWrite
    | RetryRead
    | SpuriousWriter
    | SpuriousReader
    | Stop

  function Init(size: nat): State
    requires 0 < size
  {
    State(Empty(size), true, WriterAway, ReaderAway, [], [])
  }

  predicate Enabled(s: State, step: Step) {
    match step
    case CallWrite(_) => s.writer.WriterAway?
    case CallRead(_) => s.reader.ReaderAway?
    case RetryWrite => s.writer.WriterAwake?
    case RetryRead => s.reader.ReaderAwake?
    case SpuriousWriter => s.writer.WriterAsleep?
    case SpuriousReader => s.reader.ReaderAsleep?
    case Stop => true
  }

  function WakeWriter(w: Writer): Writer {
    if w.WriterAsleep? then WriterAwake(w.data) else w
  }

  function WakeReader(r: Reader): Reader {
    if r.ReaderAsleep? then ReaderAwake(r.n) else r
  }

  /** From the top of the wait loop in `write_audio_buffer`. */
  function TryWrite(s: State, data: seq<byte>): State
    requires Valid(s.ring)
  {
    if !s.active then s.(writer := WriterAway)
    else if s.ring.used + |data| > |s.ring.buffer| then s.(writer := WriterAsleep(data))
    else s.(ring := Written(s.ring, data), writer := WriterAway, reader := WakeReader(s.reader),
            written := s.written + data)
  }

  /** From the top of the wait loop in `read_audio_buffer`. */
  function TryRead(s: State, n: nat): State
    requires Valid(s.ring)
  {
    if !s.active then s.(reader := ReaderAway)
    else if s.ring.used < n then s.(reader := ReaderAsleep(n))
    else s.(ring := Consumed(s.ring, n), reader := ReaderAway, writer := WakeWriter(s.writer),
            read := s.read + Output(s.ring, n))
  }

  function Apply(s: State, step: Step): State
    requires Valid(s.ring) && Enabled(s, step)
  {
    match step
    case CallWrite(data) => TryWrite(s, data)
    case CallRead(n) => TryRead(s, n)
    case RetryWrite => TryWrite(s, s.writer.data)
    case RetryRead => TryRead(s, s.reader.n)
    case SpuriousWriter => s.(writer := WakeWriter(s.writer))
    case SpuriousReader => s.(reader := WakeReader(s.reader))
    case Stop => s.(active := false, writer := WakeWriter(s.writer), reader := WakeReader(s.reader))
  }

  predicate Possible(s: State, steps: seq<Step>)
    decreases |steps|
  {
    steps == [] ||
    (Valid(s.ring) && Enabled(s, steps[0]) && Possible(Apply(s, steps[0]), steps[1..]))
  }

  function Run(s: State, steps: seq<Step>): State
    requires Possible(s, steps)
    decreases |steps|
  {
    if steps == [] then s else Run(Apply(s, steps[0]), steps[1..])
  }

  predicate Inv(s: State, size: nat) {
    && Valid(s.ring) && |s.ring.buffer| == size
    && s.written == s.read + Contents(s.ring)
    && (s.writer.WriterAsleep? ==> s.active && s.ring.used + |s.writer.data| > size)
    && (s.reader.ReaderAsleep? ==> s.active && s.ring.used < s.reader.n)
  }

  lemma TryWriteKeeps(s: State, size: nat, data: seq<byte>)
    requires Inv(s, size)
    ensures Inv(TryWrite(s, data), size)
  {
    if s.active && s.ring.used + |data| <= |s.ring.buffer| {
      WriteAppends(s.ring, data);
    }
  }

  lemma CutAt(front: seq<byte>, all: seq<byte>, n: nat)
    requires n <= |all|
    ensures front + all == front + all[..n] + all[n..]
  {
    Regroup(front, all[..n], all[n..]);
    assert all == all[..n] + all[n..];
  }

  lemma TryReadKeeps(s: State, size: nat, n: nat)
    requires Inv(s, size)
    ensures Inv(TryRead(s, n), size)
  {
    if s.active && n <= s.ring.used {
      ReadTakesOldest(s.ring, n);
      CutAt(s.read, Contents(s.ring), n);
    }
  }

  lemma StepKeeps(s: State, size: nat, step: Step)
    requires Inv(s, size) && Enabled(s, step)
    ensures Inv(Apply(s, step), size)
  {
    match step
    case CallWrite(data) => TryWriteKeeps(s, size, data);
    case CallRead(n) => TryReadKeeps(s, size, n);
    case RetryWrite => TryWriteKeeps(s, size, s.writer.data);
    case RetryRead => TryReadKeeps(s, size, s.reader.n);
    case SpuriousWriter =>
    case SpuriousReader =>
    case Stop =>
  }

  lemma {:induction false} RunKeeps(s: State, size: nat, steps: seq<Step>)
    requires Inv(s, size) && Possible(s, steps)
    ensures Inv(Run(s, steps), size)
    decreases |steps|
  {
    if steps != [] {
      StepKeeps(s, size, steps[0]);
      RunKeeps(Apply(s, steps[0]), size, steps[1..]);
    }
  }

  lemma InitOk(size: nat)
    requires 0 < size
    ensures Inv(Init(size), size)
  {
    assert Contents(Empty(size)) == [];
  }

  /** Over every run, what was read followed by what the ring holds is what was written,
      however both sides cut it into pieces. */
  lemma ReadsArePrefixOfWrites(size: nat, steps: seq<Step>)
    requires 0 < size && Possible(Init(size), steps)
    ensures var s := Run(Init(size), steps);
            Valid(s.ring) && s.read + Contents(s.ring) == s.written && s.read <= s.written
  {
    InitOk(size);
    RunKeeps(Init(size), size, steps);
  }

  /** No wake-up is lost: a thread asleep without a signal has its wait condition true, on a ring
      that is still active. */
  lemma NoLostWakeup(size: nat, steps: seq<Step>)
    requires 0 < size && Possible(Init(size), steps)
    ensures var s := Run(Init(size), steps);
            && (s.writer.WriterAsleep? ==> s.active && s.ring.used + |s.writer.data| > size)
            && (s.reader.ReaderAsleep? ==> s.active && s.ring.used < s.reader.n)
  {
    InitOk(size);
    RunKeeps(Init(size), size, steps);
  }

  // ---- What a call does ----------------------------------------------------------------

  /** The outcome of a write call, entered or woken up again, in every state of every run: it
      returns without effect on a stopped ring, goes through exactly if its bytes fit, and then
      signals a waiting reader; otherwise it sleeps with its bytes in hand. */
  lemma WritesExactly(size: nat, steps: seq<Step>, step: Step)
    requires 0 < size && Possible(Init(size), steps) && Enabled(Run(Init(size), steps), step)
    requires step.CallWrite? || step.RetryWrite?
    ensures var s := Run(Init(size), steps); var data := if step.CallWrite? then step.data else s.writer.data;
            && Valid(s.ring) && Valid(Apply(s, step).ring)
            && var t := Apply(s, step);
               if !s.active then t == s.(writer := WriterAway)
               else if |Contents(s.ring)| + |data| > size then t == s.(writer := WriterAsleep(data))
               else
                 && Contents(t.ring) == Contents(s.ring) + data
                 && t.written == s.written + data && t.read == s.read && t.active && t.writer == WriterAway
                 && t.reader == if s.reader.ReaderAsleep? then ReaderAwake(s.reader.n) else s.reader
  {
    InitOk(size);
    RunKeeps(Init(size), size, steps);
    var s := Run(Init(size), steps);
    StepKeeps(s, size, step);
    var data := if step.CallWrite? then step.data else s.writer.data;
    if s.ring.used + |data| <= size {
      WriteAppends(s.ring, data);
    }
  }

  /** The same of a read call: it goes through exactly if the ring holds enough, and takes the
      oldest bytes. */
  lemma ReadsExactly(size: nat, steps: seq<Step>, step: Step)
    requires 0 < size && Possible(Init(size), steps) && Enabled(Run(Init(size), steps), step)
    requires step.CallRead? || step.RetryRead?
    ensures var s := Run(Init(size), steps); var n := if step.CallRead? then step.n else s.reader.n;
            && Valid(s.ring) && Valid(Apply(s, step).ring)
            && var t := Apply(s, step);
               if !s.active then t == s.(reader := ReaderAway)
               else if |Contents(s.ring)| < n then t == s.(reader := ReaderAsleep(n))
               else
                 && Contents(t.ring) == Contents(s.ring)[n..]
                 && t.read == s.read + Contents(s.ring)[..n] && t.written == s.written && t.active
                 && t.reader == ReaderAway
                 && t.writer == if s.writer.WriterAsleep? then WriterAwake(s.writer.data) else s.writer
  {
    InitOk(size);
    RunKeeps(Init(size), size, steps);
    var s := Run(Init(size), steps);
    StepKeeps(s, size, step);
    var n := if step.CallRead? then step.n else s.reader.n;
    if n <= s.ring.used {
      ReadTakesOldest(s.ring, n);
    }
  }

  lemma {:induction false} ActiveExactly(s: State, steps: seq<Step>)
    requires Possible(s, steps)
    ensures Run(s, steps).active <==> s.active && Stop !in steps
    decreases |steps|
  {
    if steps != [] {
      assert steps == [steps[0]] + steps[1..];
      ActiveExactly(Apply(s, steps[0]), steps[1..]);
    }
  }

  /** Stopping ends all waiting: after a run with `Stop` in it nobody is asleep, and whatever calls
      follow, entered or woken up, return at once and move no byte. */
  lemma StopEndsWaiting(size: nat, steps: seq<Step>, step: Step)
    requires 0 < size && Possible(Init(size), steps) && Stop in steps
    requires Enabled(Run(Init(size), steps), step)
    ensures var s := Run(Init(size), steps);
            && !s.active && !s.writer.WriterAsleep? && !s.reader.ReaderAsleep?
            && Valid(s.ring)
            && var t := Apply(s, step);
               && !t.active && t.ring == s.ring && t.written == s.written && t.read == s.read
               && (step.CallWrite? || step.RetryWrite? ==> t.writer == WriterAway)
               && (step.CallRead? || step.RetryRead? ==> t.reader == ReaderAway)
  {
    InitOk(size);
    RunKeeps(Init(size), size, steps);
    ActiveExactly(Init(size), steps);
  }

  // ---- When both sides can sleep at once ---------------------------------------------

  /** No call of the run writes more than `w` bytes or reads more than `r`. */
  predicate Within(steps: seq<Step>, w: nat, r: nat) {
    forall step | step in steps ::
      (step.CallWrite? ==> |step.data| <= w) && (step.CallRead? ==> step.n <= r)
  }

  predicate BothAsleep(s: State) {
    s.writer.WriterAsleep? && s.reader.ReaderAsleep?
  }

  predicate Sizes(s: State, w: nat, r: nat) {
    && (!s.writer.WriterAway? ==> |s.writer.data| <= w)
    && (!s.reader.ReaderAway? ==> s.reader.n <= r)
  }

  lemma {:induction false} SizesKept(s: State, size: nat, steps: seq<Step>, w: nat, r: nat)
    requires Inv(s, size) && Sizes(s, w, r) && Possible(s, steps) && Within(steps, w, r)
    ensures Sizes(Run(s, steps), w, r)
    decreases |steps|
  {
    if steps != [] {
      StepKeeps(s, size, steps[0]);
      assert steps[0] in steps;
      assert Within(steps[1..], w, r);
      SizesKept(Apply(s, steps[0]), size, steps[1..], w, r);
    }
  }

  lemma {:induction false} RunSnoc(s: State, steps: seq<Step>, step: Step)
    requires Possible(s, steps) && Valid(Run(s, steps).ring) && Enabled(Run(s, steps), step)
    ensures Possible(s, steps + [step])
    ensures Run(s, steps + [step]) == Apply(Run(s, steps), step)
    decreases |steps|
  {
    if steps == [] {
      assert steps + [step] == [step];
    } else {
      assert (steps + [step])[1..] == steps[1..] + [step];
      RunSnoc(Apply(s, steps[0]), steps[1..], step);
    }
  }

  /** One byte at a time, the writer can bring the ring to any fill level. */
  lemma {:induction false} FillTo(size: nat, level: nat) returns (steps: seq<Step>)
    requires 0 < size && level <= size
    ensures Possible(Init(size), steps) && Within(steps, 1, 0)
    ensures var s := Run(Init(size), steps);
            Inv(s, size) && s.ring.used == level && s.active && s.writer.WriterAway? && s.reader.ReaderAway?
  {
    if level == 0 {
      steps := [];
      InitOk(size);
    } else {
      var before := FillTo(size, level - 1);
      RunSnoc(Init(size), before, CallWrite([0]));
      StepKeeps(Run(Init(size), before), size, CallWrite([0]));
      steps := before + [CallWrite([0])];
    }
  }

  lemma Deadlock(size: nat, w: nat, r: nat) returns (steps: seq<Step>)
    requires 0 < size && 1 <= w && 1 <= r && w + r > size + 1
    ensures Possible(Init(size), steps) && Within(steps, w, r)
    ensures BothAsleep(Run(Init(size), steps))
  {
    var level := if w > size then 0 else size - w + 1;
    var filled := FillTo(size, level);
    var data := seq(w, _ => 0);
    RunSnoc(Init(size), filled, CallWrite(data));
    var one := filled + [CallWrite(data)];
    RunSnoc(Init(size), one, CallRead(r));
    steps := one + [CallRead(r)];
  }

  /** With writes of at most `w` bytes and reads of at most `r`, some run puts both threads to
      sleep at once if and only if w + r > size + 1. */
  lemma DeadlockExactly(size: nat, w: nat, r: nat)
    requires 0 < size && 1 <= w && 1 <= r
    ensures (exists steps :: Possible(Init(size), steps) && Within(steps, w, r)
                             && BothAsleep(Run(Init(size), steps)))
            <==> w + r > size + 1
  {
    if w + r > size + 1 {
      var steps := Deadlock(size, w, r);
    } else {
      forall steps | Possible(Init(size), steps) && Within(steps, w, r)
        ensures !BothAsleep(Run(Init(size), steps))
      {
        NeverBothAsleep(size, w, r, steps);
      }
    }
  }

  lemma NeverBothAsleep(size: nat, w: nat, r: nat, steps: seq<Step>)
    requires 0 < size && w + r <= size + 1
    requires Possible(Init(size), steps) && Within(steps, w, r)
    ensures !BothAsleep(Run(Init(size), steps))
  {
    InitOk(size);
    RunKeeps(Init(size), size, steps);
    SizesKept(Init(size), size, steps, w, r);
  }

  /** In a run that respects the bound, whenever one thread sleeps the other's next call of
      legal size goes through at once and wakes it. */
  lemma SleeperIsWoken(size: nat, w: nat, r: nat, steps: seq<Step>, data: seq<byte>, n: nat)
    requires 0 < size && w + r <= size + 1 && |data| <= w && n <= r
    requires Possible(Init(size), steps) && Within(steps, w, r)
    ensures var s := Run(Init(size), steps);
            Valid(s.ring)
            && (s.writer.WriterAsleep? && s.reader.ReaderAway? ==>
                  var t := Apply(s, CallRead(n));
                  |t.read| == |s.read| + n && t.writer == WriterAwake(s.writer.data))
            && (s.reader.ReaderAsleep? && s.writer.WriterAway? ==>
                  var t := Apply(s, CallWrite(data));
                  t.written == s.written + data && t.reader == ReaderAwake(s.reader.n))
  {
    InitOk(size);
    RunKeeps(Init(size), size, steps);
    SizesKept(Init(size), size, steps, w, r);
    var s := Run(Init(size), steps);
    if s.active && n <= s.ring.used {
      OutputIsOldest(s.ring, n);
    }
  }

  /** The constants of the program: a 1 MiB ring, frames of at most 65536 bytes, 512-byte reads. */
  lemma ProgramNeverDeadlocks(steps: seq<Step>)
    requires Possible(Init(1048576), steps) && Within(steps, 65536, 512)
    ensures !BothAsleep(Run(Init(1048576), steps))
  {
    NeverBothAsleep(1048576, 65536, 512, steps);
  }
}
