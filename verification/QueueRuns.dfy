/** Exactly which runs of the queue deliver what was added: as frames of the right type, as the
    right bytes, and without a buffer straying out of the window; and which schedules do. */
module QueueRuns {
  import opened Sequences
  import opened QueueModel
  import opened QueueInvariant
  import opened QueueSafety
  import opened MessageQueue

  // ---- Frames ------------------------------------------------------------------------

  /** First in, first out, each frame of the type its slot's flag says. */
  ghost predicate Faithful(s: State) {
    && Shape(s) && Counts(s) && KindsOk(s)
    && Payloads(s.accepted) == Payloads(s.delivered) + Waiting(s)
  }

  ghost predicate AlwaysFaithful(s: State, steps: seq<Step>)
    requires Possible(s, steps)
    decreases |steps|
  {
    Faithful(s) && (steps != [] ==> AlwaysFaithful(Apply(s, steps[0]), steps[1..]))
  }

  lemma InvIsFaithful(s: State)
    requires Inv(s)
    ensures Faithful(s)
  {
    WaitingIs(s);
  }

  /** A flagged message leaves as a text frame. */
  lemma UnguardedIsUnfaithful(s: State, stale: seq<byte>)
    requires Inv(s) && s.consumer.Failed? && s.head != s.tail && s.slots[s.head].isBinary
    ensures !Faithful(ProbedText(s, stale))
  {
    var t, d := ProbedText(s, stale), |s.delivered|;
    HeadHeld(s);
    TaintAtDelivery(s.accepted, d);
    if Counts(t) {
      assert t.delivered[d].kind.Text? && Tainted(t.accepted[..d + 1], Place(d));
    }
  }

  /** A run is faithful in every state if and only if its text probes meet no flagged slot, which
      is what the second probe could check. */
  lemma {:induction false} FaithfulExactly(s: State, steps: seq<Step>)
    requires Inv(s) && Possible(s, steps)
    ensures AlwaysFaithful(s, steps) <==> GuardedRun(s, steps)
    decreases |steps|
  {
    InvIsFaithful(s);
    if steps != [] {
      if Guarded(s, steps[0]) {
        StepKeeps(s, steps[0]);
        FaithfulExactly(Apply(s, steps[0]), steps[1..]);
      } else {
        UnguardedIsUnfaithful(s, steps[0].stale);
      }
    }
  }

  // ---- Schedules ---------------------------------------------------------------------

  /** The first addition between the two probes of a callback that found the queue empty, if it is
      binary or lands in a slot that once held a binary message. */
  predicate Torn(s: State, step: Step)
    requires Enabled(s, step)
  {
    && s.consumer == Failed(true) && s.head == s.tail
    && match step
       case AddText(_) => s.slots[s.tail].isBinary
       case AddBinary(data, allocates) => |data| <= MAX_MESSAGE_LENGTH || allocates
       case _ => false
  }

  predicate TornIn(s: State, steps: seq<Step>)
    requires Possible(s, steps)
    decreases |steps|
  {
    steps != [] && (Torn(s, steps[0]) || TornIn(Apply(s, steps[0]), steps[1..]))
  }

  /** The second probe of a torn callback is about to meet a flagged slot. */
  predicate Doomed(s: State) {
    Shape(s) && s.consumer == Failed(true) && s.head != s.tail && s.slots[s.head].isBinary
  }

  lemma DoomedAddition(s: State, step: Step)
    requires Inv(s) && Enabled(s, step) && (step.AddText? || step.AddBinary?)
    ensures Torn(s, step) ==> Doomed(Apply(s, step))
    ensures !Torn(s, step) ==> (Doomed(Apply(s, step)) <==> Doomed(s))
  {
    FullExactly(s);
  }

  lemma DoomedProbe(s: State, step: Step)
    requires Inv(s) && Enabled(s, step) && (step.ProbeText? || step.ProbeBinary?)
    ensures step.ProbeBinary? ==> !Doomed(s) && !Doomed(Apply(s, step))
    ensures step.ProbeText? ==> (Guarded(s, step) <==> !Doomed(s)) && !Doomed(Apply(s, step))
  {
  }

  lemma DoomedStep(s: State, step: Step)
    requires Inv(s) && Enabled(s, step)
    ensures Torn(s, step) ==> Doomed(Apply(s, step))
    ensures !step.ProbeText? && !Torn(s, step) ==> (Doomed(Apply(s, step)) <==> Doomed(s))
    ensures step.ProbeText? ==> (Guarded(s, step) <==> !Doomed(s)) && !Doomed(Apply(s, step))
  {
    if step.AddText? || step.AddBinary? { DoomedAddition(s, step); } else { DoomedProbe(s, step); }
  }

  lemma {:induction false} DoomedRun(s: State, steps: seq<Step>)
    requires Doomed(s) && Possible(s, steps) && Run(s, steps).consumer.Ready?
    ensures !GuardedRun(s, steps)
    decreases |steps|
  {
    if steps[0].AddText? || steps[0].AddBinary? {
      DoomedRun(Apply(s, steps[0]), steps[1..]);
    }
  }

  /** A run that ends outside the callback is guarded if and only if no callback is torn that way. */
  lemma {:induction false} UntornExactly(s: State, steps: seq<Step>)
    requires Inv(s) && Possible(s, steps) && !Doomed(s) && Run(s, steps).consumer.Ready?
    ensures GuardedRun(s, steps) <==> !TornIn(s, steps)
    decreases |steps|
  {
    if steps != [] {
      DoomedStep(s, steps[0]);
      if Torn(s, steps[0]) {
        DoomedRun(Apply(s, steps[0]), steps[1..]);
      } else {
        StepKeeps(s, steps[0]);
        UntornExactly(Apply(s, steps[0]), steps[1..]);
      }
    }
  }

  /** Nothing is added between a first probe that found the queue empty and the second probe. */
  predicate Undisturbed(s: State, steps: seq<Step>)
    requires Possible(s, steps)
    decreases |steps|
  {
    steps != [] ==>
      && (s.consumer == Failed(true) ==> steps[0].ProbeText?)
      && Undisturbed(Apply(s, steps[0]), steps[1..])
  }

  /** Such runs are guarded, whether they end inside a callback or not. */
  lemma {:induction false} UndisturbedIsGuarded(s: State, steps: seq<Step>)
    requires Inv(s) && Possible(s, steps) && !Doomed(s) && Undisturbed(s, steps)
    ensures GuardedRun(s, steps) && !TornIn(s, steps)
    decreases |steps|
  {
    if steps != [] {
      DoomedStep(s, steps[0]);
      StepKeeps(s, steps[0]);
      UndisturbedIsGuarded(Apply(s, steps[0]), steps[1..]);
    }
  }

  /** With every callback one step, or at least undisturbed when the queue is empty: first in,
      first out, and nothing left to free after cleanup. */
  lemma UndisturbedDelivers(steps: seq<Step>)
    requires Possible(Init(), steps) && Undisturbed(Init(), steps)
    ensures AlwaysFaithful(Init(), steps)
    ensures var s := Run(Init(), steps); Shape(s) && FreeAll(s, 0).heap == map[]
  {
    InitOk();
    UndisturbedIsGuarded(Init(), steps);
    FaithfulExactly(Init(), steps);
    GuardedRunIsSparing(Init(), steps);
    SparingNeverOverwrites(Init(), steps);
    CleanupExactly(steps);
  }

  // ---- Bytes -------------------------------------------------------------------------

  /** All of the slot's bytes, for whoever reads it with `strcpy`. */
  predicate Readable(slot: Slot) {
    slot.large.Null? && FirstNul(slot.message) < |slot.message| && slot.length <= FirstNul(slot.message) + 1
  }

  ghost predicate Fifo(s: State) {
    Shape(s) && Payloads(s.accepted) == Payloads(s.delivered) + Waiting(s)
  }

  /** A buffer the callback could have held that gives an unreadable slot's frame away. */
  function Spoiler(slot: Slot, payload: seq<byte>): seq<byte> {
    var n := FirstNul(slot.message);
    if n == |slot.message| then payload + [0]
    else if n + 1 < slot.length <= |slot.message| then
      seq(slot.length - n - 1, i => if slot.message[n + 1] == 0 then 1 else 0)
    else []
  }

  lemma SpoilerSpoils(s: State, slot: Slot, item: Item)
    requires Holds(s, slot, item) && Fits(slot) && !Readable(slot)
    ensures Copied(slot, Spoiler(slot, item.payload)) != item.payload
  {
    var n, stale := FirstNul(slot.message), Spoiler(slot, item.payload);
    if n == |slot.message| {
      assert |stale| == |item.payload| + 1;
    } else if slot.large.To? {
      assert |Copied(slot, stale)| == 0;
    } else {
      assert item.payload[n + 1] == slot.message[n + 1];
      assert Copied(slot, stale)[n + 1] == Leftover(stale, slot.length - n - 1)[0] == stale[0];
    }
  }

  lemma WrongByteIsNotFifo(s: State, t: State)
    requires |s.delivered| < |s.accepted| && t.accepted == s.accepted && |t.delivered| == |s.delivered| + 1
    requires t.delivered[|s.delivered|].payload != s.accepted[|s.delivered|].payload
    ensures !Fifo(t)
  {
    var d := |s.delivered|;
    if Shape(t) {
      assert Payloads(t.accepted)[d] != (Payloads(t.delivered) + Waiting(t))[d];
    }
  }

  lemma ReadableKeeps(s: State, stale: seq<byte>)
    requires Base(s) && Delivered(s) && s.consumer.Failed?
    requires s.head != s.tail ==> Readable(s.slots[s.head])
    ensures Base(ProbedText(s, stale)) && Delivered(ProbedText(s, stale))
    ensures Fifo(ProbedText(s, stale))
  {
    var t, d := ProbedText(s, stale), |s.delivered|;
    ProbeTextKeeps(s, stale);
    if s.head != s.tail {
      HeadHeld(s);
      forall k | 0 <= k < |t.delivered| ensures t.delivered[k].payload == t.accepted[k].payload {
        if k < d { assert t.delivered[k] == s.delivered[k]; }
      }
    }
    WaitingIs(t);
  }

  /** Whatever the callback's buffer held, the text probe delivers the oldest payload if and only
      if its slot is readable: inline, and with a NUL in its buffer but none before its last byte. */
  lemma ReadsExactly(s: State)
    requires Base(s) && Delivered(s) && s.consumer.Failed? && s.head != s.tail
    ensures (forall stale :: Fifo(ProbedText(s, stale))) <==> Readable(s.slots[s.head])
  {
    var slot := s.slots[s.head];
    if Readable(slot) {
      forall stale ensures Fifo(ProbedText(s, stale)) {
        ReadableKeeps(s, stale);
      }
    } else {
      HeadHeld(s);
      var item := s.accepted[|s.delivered|];
      SpoilerSpoils(s, slot, item);
      WrongByteIsNotFifo(s, ProbedText(s, Spoiler(slot, item.payload)));
    }
  }

  /** First in, first out in every state of the run, and after every text probe of it whatever the
      callback's buffer might have held. */
  ghost predicate AlwaysFifo(s: State, steps: seq<Step>)
    requires Possible(s, steps)
    decreases |steps|
  {
    && Fifo(s)
    && (steps != [] ==>
          && (steps[0].ProbeText? ==> forall stale :: Fifo(ProbedText(s, stale)))
          && AlwaysFifo(Apply(s, steps[0]), steps[1..]))
  }

  predicate ReadableRun(s: State, steps: seq<Step>)
    requires Possible(s, steps)
    decreases |steps|
  {
    steps != [] ==>
      && (steps[0].ProbeText? && s.head != s.tail ==> Readable(s.slots[s.head]))
      && ReadableRun(Apply(s, steps[0]), steps[1..])
  }

  lemma AdditionsKeepDelivered(s: State, step: Step)
    requires Base(s) && Delivered(s) && Enabled(s, step) && !step.ProbeText?
    ensures Base(Apply(s, step)) && Delivered(Apply(s, step))
  {
    StepKeepsBase(s, step);
    if step.ProbeBinary? { ProbeKeepsDelivered(s); }
  }

  lemma ProbeKeepsDelivered(s: State)
    requires Base(s) && Delivered(s) && s.consumer.Ready? && Counts(ProbedBinary(s))
    ensures Delivered(ProbedBinary(s))
  {
    var t := ProbedBinary(s);
    if s.head != s.tail { HeadHeld(s); }
    forall k | 0 <= k < |t.delivered| ensures t.delivered[k].payload == t.accepted[k].payload {
      if k < |s.delivered| { assert t.delivered[k] == s.delivered[k]; }
    }
  }

  /** The queue is a FIFO of payloads if and only if its text probes meet only readable slots. */
  lemma {:induction false} FifoExactly(s: State, steps: seq<Step>)
    requires Base(s) && Delivered(s) && Possible(s, steps)
    ensures AlwaysFifo(s, steps) <==> ReadableRun(s, steps)
    decreases |steps|
  {
    WaitingIs(s);
    if steps != [] {
      var step := steps[0];
      if !step.ProbeText? {
        AdditionsKeepDelivered(s, step);
        FifoExactly(Apply(s, step), steps[1..]);
      } else if s.head != s.tail && !Readable(s.slots[s.head]) {
        ReadsExactly(s);
      } else {
        forall stale ensures Fifo(ProbedText(s, stale)) {
          ReadableKeeps(s, stale);
        }
        ReadableKeeps(s, step.stale);
        FifoExactly(Apply(s, step), steps[1..]);
      }
    }
  }

  // ---- Buffers -----------------------------------------------------------------------

  ghost predicate AlwaysWindowed(s: State, steps: seq<Step>)
    requires Possible(s, steps)
    decreases |steps|
  {
    Windowed(s) && (steps != [] ==> AlwaysWindowed(Apply(s, steps[0]), steps[1..]))
  }

  lemma StrayBuffer(s: State, stale: seq<byte>)
    requires Base(s) && s.consumer.Failed? && s.head != s.tail && s.slots[s.head].large.To?
    ensures !Windowed(ProbedText(s, stale))
  {
    assert !InWindow(ProbedText(s, stale), s.head);
  }

  /** Only slots of the window own buffers, in every state, if and only if no text probe meets a
      slot that owns one. */
  lemma {:induction false} WindowedExactly(s: State, steps: seq<Step>)
    requires Base(s) && Possible(s, steps)
    ensures AlwaysWindowed(s, steps) <==> SparingRun(s, steps)
    decreases |steps|
  {
    BaseIsWindowed(s);
    if steps != [] {
      if Sparing(s, steps[0]) {
        StepKeepsBase(s, steps[0]);
        WindowedExactly(Apply(s, steps[0]), steps[1..]);
      } else {
        StrayBuffer(s, steps[0].stale);
      }
    }
  }

  lemma {:induction false} GuardedRunIsSparing(s: State, steps: seq<Step>)
    requires Inv(s) && Possible(s, steps) && GuardedRun(s, steps)
    ensures SparingRun(s, steps)
    decreases |steps|
  {
    if steps != [] {
      GuardedIsSparing(s, steps[0]);
      StepKeeps(s, steps[0]);
      GuardedRunIsSparing(Apply(s, steps[0]), steps[1..]);
    }
  }

  /** While no buffer strays, none is overwritten. */
  lemma {:induction false} SparingNeverOverwrites(s: State, steps: seq<Step>)
    requires Base(s) && Possible(s, steps) && SparingRun(s, steps)
    ensures !OverwritesIn(s, steps)
    decreases |steps|
  {
    if steps != [] {
      FullExactly(s);
      if !IsFull(s) { assert s.slots[Place(|s.accepted|)].large.Null?; }
      StepKeepsBase(s, steps[0]);
      SparingNeverOverwrites(Apply(s, steps[0]), steps[1..]);
    }
  }
}
