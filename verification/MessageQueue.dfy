/** Properties of whole runs of the message queue, and the queue itself as an object. */
module MessageQueue {
  import opened Sequences
  import opened QueueModel
  import opened QueueInvariant
  import opened QueueSafety

  // ---- Runs --------------------------------------------------------------------------

  function Payloads(items: seq<Item>): seq<seq<byte>> {
    seq(|items|, i requires 0 <= i < |items| => items[i].payload)
  }

  function SlotPayload(s: State, slot: Slot): seq<byte> {
    match slot.large
    case To(p) => Pointee(s, p, slot.largeSize)
    case Null => Inline(slot)
  }

  /** The payloads waiting, read from head to tail. */
  function Waiting(s: State): seq<seq<byte>>
    requires Shape(s)
  {
    var count := if s.head <= s.tail then s.tail - s.head else s.tail + MAX_QUEUE_SIZE - s.head;
    seq(count, i requires 0 <= i < count => SlotPayload(s, s.slots[(s.head + i) % MAX_QUEUE_SIZE]))
  }

  lemma PlaceShift(d: nat, i: nat)
    ensures (Place(d) + i) % MAX_QUEUE_SIZE == Place(d + i)
  {
  }

  lemma Distance(d: nat, a: nat)
    requires d <= a < d + MAX_QUEUE_SIZE
    ensures a - d == if Place(d) <= Place(a) then Place(a) - Place(d) else Place(a) + MAX_QUEUE_SIZE - Place(d)
  {
  }

  lemma HeldPayload(s: State, slot: Slot, item: Item)
    requires Holds(s, slot, item)
    ensures SlotPayload(s, slot) == item.payload
  {
    if slot.large.To? {
      assert item.payload[..|item.payload|] == item.payload;
    }
  }

  lemma WaitingAt(s: State, i: nat)
    requires Shape(s) && Counts(s) && LiveHold(s)
    ensures |Waiting(s)| == |s.accepted| - |s.delivered|
    ensures i < |Waiting(s)| ==> Waiting(s)[i] == s.accepted[|s.delivered| + i].payload
  {
    var d := |s.delivered|;
    Distance(d, |s.accepted|);
    if i < |s.accepted| - d {
      PlaceShift(d, i);
      HeldPayload(s, s.slots[Place(d + i)], s.accepted[d + i]);
    }
  }

  lemma WaitingIs(s: State)
    requires Shape(s) && Counts(s) && LiveHold(s) && Delivered(s)
    ensures Payloads(s.accepted) == Payloads(s.delivered) + Waiting(s)
  {
    var w := Waiting(s);
    WaitingAt(s, 0);
    forall i: nat | i < |w| ensures w[i] == Payloads(s.accepted)[|s.delivered| + i] {
      WaitingAt(s, i);
    }
    JoinedBy(Payloads(s.accepted), Payloads(s.delivered), w);
  }

  lemma JoinedBy<T>(all: seq<T>, front: seq<T>, back: seq<T>)
    requires |all| == |front| + |back|
    requires forall k | 0 <= k < |front| :: all[k] == front[k]
    requires forall i | 0 <= i < |back| :: back[i] == all[|front| + i]
    ensures all == front + back
  {
  }

  /** What a step adds, read off its argument: nothing if nine messages wait or the memory for a
      large one is missing, otherwise the message, a text cut to what fits with its NUL. */
  function Argument(s: State, step: Step): seq<Item>
    requires Shape(s)
  {
    match step
    case AddText(text) =>
      if |Waiting(s)| == 9 then [] else [Item(Text, if |text| < 65536 then text else text[..65535])]
    case AddBinary(data, allocates) =>
      if |Waiting(s)| == 9 || (65536 < |data| && !allocates) then [] else [Item(Binary, data)]
    case _ => []
  }

  function Given(s: State, steps: seq<Step>): seq<Item>
    requires Possible(s, steps)
    decreases |steps|
  {
    if steps == [] then [] else Argument(s, steps[0]) + Given(Apply(s, steps[0]), steps[1..])
  }

  lemma FullIsNine(s: State)
    requires Shape(s)
    ensures |Waiting(s)| <= 9 && (IsFull(s) <==> |Waiting(s)| == 9)
  {
  }

  lemma StepGives(s: State, step: Step)
    requires Enabled(s, step)
    ensures Apply(s, step).accepted == s.accepted + Argument(s, step)
  {
    FullIsNine(s);
  }

  /** The log of accepted messages is what the additions were given, in every run. */
  lemma {:induction false} AcceptedIsGiven(s: State, steps: seq<Step>)
    requires Possible(s, steps)
    ensures Run(s, steps).accepted == s.accepted + Given(s, steps)
    decreases |steps|
  {
    if steps != [] {
      StepGives(s, steps[0]);
      AcceptedIsGiven(Apply(s, steps[0]), steps[1..]);
      Regroup(s.accepted, Argument(s, steps[0]), Given(Apply(s, steps[0]), steps[1..]));
    }
  }

  /** The queue is a FIFO of payloads, for any interleaving in which the second probe never
      meets a binary message: what went out, followed by what waits, is what was added. */
  lemma FifoOfPayloads(steps: seq<Step>)
    requires Possible(Init(), steps) && GuardedRun(Init(), steps)
    ensures var s := Run(Init(), steps);
            && Shape(s) && |Waiting(s)| <= 9
            && Payloads(s.accepted) == Payloads(s.delivered) + Waiting(s)
            && Payloads(Given(Init(), steps)) == Payloads(s.delivered) + Waiting(s)
  {
    InitOk();
    RunKeeps(Init(), steps);
    WaitingIs(Run(Init(), steps));
    FullIsNine(Run(Init(), steps));
    AcceptedIsGiven(Init(), steps);
  }

  lemma {:induction false} RunSnoc(s: State, steps: seq<Step>, step: Step)
    requires Possible(s, steps) && Enabled(Run(s, steps), step)
    ensures Possible(s, steps + [step]) && Run(s, steps + [step]) == Apply(Run(s, steps), step)
    decreases |steps|
  {
    if steps == [] {
      assert steps + [step] == [step];
    } else {
      assert (steps + [step])[1..] == steps[1..] + [step];
      RunSnoc(Apply(s, steps[0]), steps[1..], step);
    }
  }

  function Adding(texts: seq<seq<byte>>): seq<Step> {
    if texts == [] then [] else Adding(texts[..|texts| - 1]) + [AddText(texts[|texts| - 1])]
  }

  predicate CanAdd(text: seq<byte>) { 0 !in text && |text| < 65536 }

  predicate AllCanBeAdded(texts: seq<seq<byte>>) {
    texts == [] || (AllCanBeAdded(texts[..|texts| - 1]) && CanAdd(texts[|texts| - 1]))
  }

  /** Nothing has gone out and `w` waits. */
  ghost predicate Holding(s: State, w: seq<seq<byte>>) {
    Inv(s) && s.delivered == [] && Waiting(s) == w
  }

  lemma EmptyHolds()
    ensures Holding(Init(), [])
  {
    InitOk();
  }

  lemma AddAnother(before: seq<Step>, text: seq<byte>, w: seq<seq<byte>>) returns (v: seq<seq<byte>>)
    requires Possible(Init(), before) && CanAdd(text) && Holding(Run(Init(), before), w)
    ensures Possible(Init(), before + [AddText(text)])
    ensures Holding(Run(Init(), before + [AddText(text)]), v)
    ensures v == w + (if |w| == 9 then [] else [text])
  {
    var s := Run(Init(), before);
    RunSnoc(Init(), before, AddText(text));
    OneMore(s, text);
    v := Waiting(AddedText(s, text));
  }

  /** Filling the queue: of any texts added to the empty queue with no callback in between, the
      first nine wait in order and every further one is refused. */
  lemma {:induction false} NineFit(texts: seq<seq<byte>>)
    requires AllCanBeAdded(texts)
    ensures Possible(Init(), Adding(texts))
    ensures Holding(Run(Init(), Adding(texts)), if |texts| <= 9 then texts else texts[..9])
  {
    if texts == [] {
      EmptyHolds();
    } else {
      var front := texts[..|texts| - 1];
      NineFit(front);
      var w := if |front| <= 9 then front else front[..9];
      var v := AddAnother(Adding(front), texts[|texts| - 1], w);
      NineOf(texts, w, v);
    }
  }

  lemma NineOf(texts: seq<seq<byte>>, w: seq<seq<byte>>, v: seq<seq<byte>>)
    requires texts != [] && var n := |texts| - 1; w == if n <= 9 then texts[..n] else texts[..n][..9]
    requires v == w + (if |w| == 9 then [] else [texts[|texts| - 1]])
    ensures v == if |texts| <= 9 then texts else texts[..9]
  {
  }

  lemma OneMore(s: State, text: seq<byte>)
    requires Inv(s) && s.delivered == [] && 0 !in text && |text| < 65536
    ensures Inv(AddedText(s, text)) && AddedText(s, text).delivered == []
    ensures Waiting(AddedText(s, text)) == Waiting(s) + (if |Waiting(s)| == 9 then [] else [text])
  {
    var t := AddedText(s, text);
    StepKeeps(s, AddText(text));
    StepGives(s, AddText(text));
    WaitingIs(s);
    WaitingIs(t);
    WaitingMore(s, t, text);
  }

  lemma WaitingMore(s: State, t: State, text: seq<byte>)
    requires Shape(s) && Shape(t) && Payloads(s.accepted) == Waiting(s) && Payloads(t.accepted) == Waiting(t)
    requires t.accepted == s.accepted + (if |Waiting(s)| == 9 then [] else [Item(Text, text)])
    ensures Waiting(t) == Waiting(s) + (if |Waiting(s)| == 9 then [] else [text])
  {
  }

  predicate SparingRun(s: State, steps: seq<Step>)
    requires Possible(s, steps)
    decreases |steps|
  {
    steps != [] ==> Sparing(s, steps[0]) && SparingRun(Apply(s, steps[0]), steps[1..])
  }

  lemma {:induction false} SparingRunKeeps(s: State, steps: seq<Step>)
    requires Base(s) && Possible(s, steps) && SparingRun(s, steps)
    ensures Base(Run(s, steps))
    decreases |steps|
  {
    if steps != [] {
      StepKeepsBase(s, steps[0]);
      SparingRunKeeps(Apply(s, steps[0]), steps[1..]);
    }
  }

  /** Slots outside the live window own nothing. */
  predicate Windowed(s: State) {
    Shape(s) && forall i | 0 <= i < MAX_QUEUE_SIZE && !InWindow(s, i) :: s.slots[i].large.Null?
  }

  lemma BaseIsWindowed(s: State)
    requires Base(s)
    ensures Windowed(s)
  {
    forall i | 0 <= i < MAX_QUEUE_SIZE && !InWindow(s, i) ensures s.slots[i].large.Null? {
      var k := OutsideWindow(|s.delivered|, |s.accepted|, i);
      assert s.slots[Place(k)].large.Null?;
    }
  }

  /** Every buffer ever allocated is live and owned by exactly one slot of the window, or was freed
      once, in every run whose text probes meet no slot that owns a buffer. */
  lemma BuffersAccountedFor(steps: seq<Step>)
    requires Possible(Init(), steps) && SparingRun(Init(), steps)
    ensures var s := Run(Init(), steps);
            && s.heap.Keys == Owned(s.slots) && OwnersDistinct(s.slots)
            && Ledger(s.heap.Keys, s.freed, s.next) && Windowed(s)
  {
    InitOk();
    SparingRunKeeps(Init(), steps);
    BaseIsWindowed(Run(Init(), steps));
  }

  /** A place outside the window belongs to a message not accepted yet. */
  lemma OutsideWindow(d: nat, a: nat, i: nat) returns (k: nat)
    requires d <= a < d + MAX_QUEUE_SIZE && i < MAX_QUEUE_SIZE
    requires if Place(d) <= Place(a) then !(Place(d) <= i < Place(a)) else Place(a) <= i < Place(d)
    ensures a <= k < d + MAX_QUEUE_SIZE && Place(k) == i
  {
    Distance(d, a);
    k := NextAt(d, i);
    if k < a { Distance(d, k); }
  }

  /** Index `i` lies between head and tail, going round. */
  predicate InWindow(s: State, i: nat) {
    if s.head <= s.tail then s.head <= i < s.tail else i < s.tail || s.head <= i
  }

  /** Which frame type a message goes out with: binary exactly when it or an earlier message in
      the same place was added as binary, since nothing clears the flag. */
  lemma FrameTypeExactly(steps: seq<Step>, k: nat)
    requires Possible(Init(), steps) && GuardedRun(Init(), steps)
    requires k < |Run(Init(), steps).delivered|
    ensures var s := Run(Init(), steps);
            s.delivered[k].kind.Binary?
            <==> exists m: nat :: m <= k < |s.accepted| && Place(m) == Place(k) && s.accepted[m].kind.Binary?
  {
    InitOk();
    RunKeeps(Init(), steps);
    var s := Run(Init(), steps);
    var early := s.accepted[..k + 1];
    if Tainted(early, Place(k)) {
      var m: nat :| m < |early| && Place(m) == Place(k) && early[m].kind.Binary?;
      assert s.accepted[m] == early[m];
    }
    if m: nat :| m <= k && Place(m) == Place(k) && s.accepted[m].kind.Binary? {
      assert early[m] == s.accepted[m];
    }
  }

  // ---- The callback ------------------------------------------------------------------

  /** The callback when nothing comes between its probes. */
  function Callback(s: State, stale: seq<byte>): State
    requires Shape(s) && s.consumer.Ready?
  {
    var t := ProbedBinary(s);
    if t.consumer.Ready? then t else ProbedText(t, stale)
  }

  /** An uninterrupted callback keeps the invariant and delivers the oldest message, if any. */
  lemma CallbackDelivers(s: State, stale: seq<byte>)
    requires Inv(s) && s.consumer.Ready?
    ensures var t := Callback(s, stale);
            && Inv(t) && t.consumer.Ready? && t.accepted == s.accepted
            && (if |s.delivered| == |s.accepted| then t.delivered == s.delivered
                else |t.delivered| == |s.delivered| + 1)
  {
    FullExactly(s);
    ProbeBinaryKeeps(s);
    var t := ProbedBinary(s);
    if !t.consumer.Ready? {
      GuardedIsSparing(t, ProbeText(stale));
      ProbeTextKeeps(t, stale);
    }
  }

  /** Producers between the probes do no harm unless the first probe found the queue empty. */
  lemma NonEmptyProbeIsSafe(s: State, stale: seq<byte>)
    requires Inv(s) && s.consumer == Failed(false)
    ensures Guarded(s, ProbeText(stale))
  {
  }

  /** If it did, a large message added before the second probe does not go out (its slot says
      length 0), and its buffer stays owned by a slot outside the window. */
  lemma TornCallbackLosesLarge(s: State, data: seq<byte>, stale: seq<byte>)
    requires Inv(s) && s.consumer.Ready? && s.head == s.tail && |data| > MAX_MESSAGE_LENGTH
    ensures var t := ProbedText(AddedBinary(ProbedBinary(s), data, true), stale);
            && !Guarded(AddedBinary(ProbedBinary(s), data, true), ProbeText(stale))
            && t.head == t.tail && t.slots[s.head].large == To(s.next) && s.next in t.heap
            && t.accepted == s.accepted + [Item(Binary, data)]
            && t.delivered == s.delivered + [Item(Text, Copied(t.slots[s.head], stale))]
            && t.slots[s.head].length == 0
  {
    FullExactly(s);
    assert After(s.tail) != s.head;
  }

  // ---- The object --------------------------------------------------------------------

  class Queue {
    const slots: array<Slot>
    var head: nat
    var tail: nat
    var consumer: Consumer
    var heap: map<nat, seq<byte>>
    var next: nat
    var freed: seq<nat>
    var accepted: seq<Item>
    var delivered: seq<Item>

    ghost function View(): State
      reads this, slots
    {
      State(slots[..], head, tail, consumer, heap, next, freed, accepted, delivered)
    }

    constructor ()
      ensures fresh(slots) && View() == Init() && Inv(View())
    {
      slots := new Slot[MAX_QUEUE_SIZE](_ => Blank());
      head, tail, consumer, heap, next, freed, accepted, delivered := 0, 0, Ready, map[], 0, [], [], [];
      new;
      assert slots[..] == Init().slots;
      InitOk();
    }

    /** Fill the slot at the tail and move the tail on. */
    method Push(slot: Slot, item: Item)
      requires Shape(View())
      modifies this`tail, this`accepted, slots
      ensures View() == Accept(old(View()), slot, item)
    {
      slots[tail] := slot;
      assert slots[..] == old(slots[..])[tail := slot];
      accepted := accepted + [item];
      tail := (tail + 1) % MAX_QUEUE_SIZE;
    }

    method AddMessage(text: seq<byte>) returns (ok: bool)
      requires Safe(View()) && 0 !in text
      modifies this`tail, this`accepted, slots
      ensures View() == AddedText(old(View()), text) && Safe(View())
      ensures old(Inv(View())) ==> Inv(View())
      ensures ok <==> (old(tail) + 1) % 10 != old(head)
      ensures var kept, at := if |text| < 65536 then text else text[..65535], old(tail);
              if ok then
                && accepted == old(accepted) + [Item(Text, kept)] && tail == (at + 1) % 10
                && slots[at].length == |kept| && slots[at].message[..|kept|] == kept && slots[at].message[|kept|] == 0
                && slots[at].isBinary == old(slots[tail].isBinary) && slots[at].large == old(slots[tail].large)
                && forall j | 0 <= j < 10 && j != at :: slots[j] == old(slots[j])
              else View() == old(View())
    {
      AdditionKept(View(), AddText(text));
      if (tail + 1) % MAX_QUEUE_SIZE == head {
        return false;
      }
      var kept := Cut(text);
      var zeros := seq(MAX_MESSAGE_LENGTH - |kept|, _ => 0);
      Push(slots[tail].(message := kept + zeros, length := |kept|), Item(Text, kept));
      return true;
    }

    method AddBinaryMessage(data: seq<byte>, allocates: bool) returns (ok: bool)
      requires Safe(View())
      modifies this`tail, this`accepted, this`heap, this`next, slots
      ensures View() == AddedBinary(old(View()), data, allocates) && Safe(View())
      ensures old(Inv(View())) ==> Inv(View())
      ensures ok <==> (old(tail) + 1) % 10 != old(head) && (|data| <= 65536 || allocates)
      ensures !ok ==> accepted == old(accepted) && tail == old(tail) && heap == old(heap)
      ensures ok ==> accepted == old(accepted) + [Item(Binary, data)] && tail == (old(tail) + 1) % 10
      ensures ok ==>
                var at := old(tail);
                && slots[at].isBinary
                && (forall j | 0 <= j < 10 && j != at :: slots[j] == old(slots[j]))
                && (if |data| <= 65536 then
                      && slots[at].length == |data| && slots[at].message[..|data|] == data
                      && slots[at].large == Null && heap == old(heap)
                    else
                      && slots[at].length == 0 && slots[at].largeSize == |data|
                      && slots[at].large == To(old(next)) && heap == old(heap)[old(next) := data])
    {
      AdditionKept(View(), AddBinary(data, allocates));
      if (tail + 1) % MAX_QUEUE_SIZE == head {
        return false;
      }
      if |data| > MAX_MESSAGE_LENGTH && !allocates {
        slots[tail] := slots[tail].(large := Null);
        return false;
      }
      AddData(data);
      return true;
    }

    method AddData(data: seq<byte>)
      requires Shape(View()) && !IsFull(View())
      modifies this`tail, this`accepted, this`heap, this`next, slots
      ensures View() == AddedBinary(old(View()), data, true)
    {
      var slot := slots[tail];
      if |data| <= MAX_MESSAGE_LENGTH {
        Push(Slot(data + slot.message[|data|..], |data|, true, Null, 0), Item(Binary, data));
      } else {
        Push(slot.(large := To(next), largeSize := |data|, length := 0, isBinary := true), Item(Binary, data));
        heap, next := heap[next := data], next + 1;
      }
    }

    /** Hand the oldest message's buffer over, write the frame, free the buffer. */
    method SendLarge(p: nat)
      requires Shape(View()) && consumer.Ready? && head != tail
      requires slots[head].isBinary && slots[head].large == To(p)
      requires p in heap && slots[head].largeSize <= |heap[p]|
      modifies this`head, this`heap, this`freed, this`delivered, slots
      ensures View() == ProbedBinary(old(View()))
    {
      var slot := slots[head];
      delivered := delivered + [Item(Binary, heap[p][..slot.largeSize])];
      slots[head] := slot.(large := Null);
      heap, freed := heap - {p}, freed + [p];
      assert slots[..] == old(slots[..])[head := slot.(large := Null)];
      head := (head + 1) % MAX_QUEUE_SIZE;
    }

    method SendSmall()
      requires Shape(View()) && consumer.Ready? && head != tail
      requires slots[head].isBinary && slots[head].large.Null?
      requires slots[head].length <= MAX_MESSAGE_LENGTH
      modifies this`head, this`delivered
      ensures View() == ProbedBinary(old(View()))
    {
      delivered := delivered + [Item(Binary, slots[head].message[..slots[head].length])];
      head := (head + 1) % MAX_QUEUE_SIZE;
    }

    /** `get_binary_message_from_queue`, the frame and the `free` that follow its success. */
    method TryBinary() returns (ok: bool)
      requires Safe(View()) && consumer.Ready?
      modifies this`head, this`consumer, this`heap, this`freed, this`delivered, slots
      ensures View() == ProbedBinary(old(View())) && Safe(View())
      ensures old(Inv(View())) ==> Inv(View())
      ensures ok <==> consumer.Ready?
      ensures ok <==> old(head != tail && slots[head].isBinary)
      ensures !ok ==> delivered == old(delivered) && head == old(head) && consumer == Failed(head == tail)
      ensures ok ==>
                var slot := old(slots[head]);
                && head == (old(head) + 1) % 10
                && (slot.large.Null? ==>
                      && slot.length <= |slot.message| && heap == old(heap) && freed == old(freed)
                      && delivered == old(delivered) + [Item(Binary, slot.message[..slot.length])])
                && (slot.large.To? ==>
                      && slot.large.p in old(heap) && slot.largeSize <= |old(heap)[slot.large.p]|
                      && slots[old(head)].large == Null
                      && heap == old(heap) - {slot.large.p} && freed == old(freed) + [slot.large.p]
                      && delivered == old(delivered) + [Item(Binary, old(heap)[slot.large.p][..slot.largeSize])])
    {
      SafeStep(View(), ProbeBinary);
      if Inv(View()) { ProbeBinaryKeeps(View()); }
      if head == tail {
        consumer := Failed(true);
        return false;
      }
      if !slots[head].isBinary {
        consumer := Failed(false);
        return false;
      }
      match slots[head].large {
        case To(p) => SendLarge(p);
        case Null => SendSmall();
      }
      return true;
    }

    /** `strcpy` out of the slot, then `memcpy` of `length` bytes; `stale` is what the callback's
        buffer held before. */
    method CopyText(stale: seq<byte>) returns (frame: seq<byte>)
      requires Shape(View())
      ensures frame == Copied(slots[head], stale)
      ensures var slot := slots[head]; var n := FirstNul(slot.message);
              n < |slot.message| ==>
                && |frame| == slot.length
                && (forall j | 0 <= j < |frame| && j <= n :: frame[j] == slot.message[j])
                && (forall j | n < j < |frame| && j - n - 1 < |stale| :: frame[j] == stale[j - n - 1])
    {
      var slot := slots[head];
      var n := 0;
      while n < |slot.message| && slot.message[n] != 0
        invariant n <= |slot.message| && forall j | 0 <= j < n :: slot.message[j] != 0
      {
        n := n + 1;
      }
      NulFound(slot.message, n);
      CopiedIs(slot, stale);
      if n == |slot.message| {
        return stale;
      }
      if slot.length <= n + 1 {
        return slot.message[..slot.length];
      }
      return slot.message[..n + 1] + Leftover(stale, slot.length - n - 1);
    }

    /** `get_message_from_queue` and the text frame that follows its success. */
    method TryText(stale: seq<byte>)
      requires Safe(View()) && consumer.Failed?
      modifies this`head, this`consumer, this`delivered
      ensures View() == ProbedText(old(View()), stale) && Safe(View())
      ensures old(Inv(View()) && Guarded(View(), ProbeText(stale))) ==> Inv(View())
      ensures consumer == Ready
      ensures old(head == tail) ==> delivered == old(delivered) && head == old(head)
      ensures old(head != tail) ==>
                && head == (old(head) + 1) % 10
                && delivered == old(delivered) + [Item(Text, Copied(old(slots[head]), stale))]
    {
      ghost var s := View();
      TextKept(s, stale);
      if head == tail {
        consumer := Ready;
        assert View() == ProbedText(s, stale);
        return;
      }
      var frame := CopyText(stale);
      delivered := delivered + [Item(Text, frame)];
      consumer, head := Ready, (head + 1) % MAX_QUEUE_SIZE;
      assert slots[..] == s.slots;
      assert View() == ProbedText(s, stale);
    }

    /** The WRITEABLE case of the callback. */
    method Writeable(stale: seq<byte>)
      requires Inv(View()) && consumer.Ready?
      modifies this`head, this`consumer, this`heap, this`freed, this`delivered, slots
      ensures View() == Callback(old(View()), stale) && Inv(View()) && consumer.Ready?
    {
      InvIsSafe(View());
      var ok := TryBinary();
      if !ok {
        TryText(stale);
      }
    }

    method Release(i: nat, p: nat)
      requires i < MAX_QUEUE_SIZE && Shape(View()) && slots[i].large == To(p)
      modifies this`heap, this`freed, slots
      ensures View() == old(View()).(slots := old(slots[..])[i := old(slots[i]).(large := Null)],
                                     heap := old(heap) - {p}, freed := old(freed) + [p])
    {
      heap, freed := heap - {p}, freed + [p];
      slots[i] := slots[i].(large := Null);
      assert slots[..] == old(slots[..])[i := old(slots[i]).(large := Null)];
    }

    /** Frees what the slots own, which is everything unless something was leaked before. */
    method Cleanup()
      requires Safe(View())
      modifies this`heap, this`freed, slots
      ensures View() == FreeAll(old(View()), 0)
      ensures heap.Keys == old(heap).Keys - old(Owned(slots[..])) && Ledger(heap.Keys, freed, next)
      ensures forall j | 0 <= j < 10 :: slots[j] == old(slots[j]).(large := Null)
    {
      FreeAllFrees(View(), 0);
      FreeAllClears(View(), 0);
      var i := 0;
      while i < MAX_QUEUE_SIZE
        invariant i <= MAX_QUEUE_SIZE && Shape(View())
        invariant FreeAll(View(), i) == FreeAll(old(View()), 0)
      {
        if slots[i].large.To? {
          Release(i, slots[i].large.p);
        }
        i := i + 1;
      }
    }
  }

  lemma AdditionKept(s: State, step: Step)
    requires Safe(s) && Enabled(s, step) && (step.AddText? || step.AddBinary?)
    ensures Safe(Apply(s, step)) && (Inv(s) ==> Inv(Apply(s, step)))
  {
    SafeStep(s, step);
    if Inv(s) { StepKeeps(s, step); }
  }

  lemma TextKept(s: State, stale: seq<byte>)
    requires Safe(s) && s.consumer.Failed?
    ensures Safe(ProbedText(s, stale))
    ensures Inv(s) && Guarded(s, ProbeText(stale)) ==> Inv(ProbedText(s, stale))
  {
    SafeStep(s, ProbeText(stale));
    if Inv(s) && Guarded(s, ProbeText(stale)) { StepKeeps(s, ProbeText(stale)); }
  }

  /** The frame agrees with the slot's buffer through the first NUL, and with what the callback's
      buffer held from there on. */
  lemma CopiedIs(slot: Slot, stale: seq<byte>)
    requires Fits(slot)
    ensures var n, frame := FirstNul(slot.message), Copied(slot, stale);
            n < |slot.message| ==>
              && |frame| == slot.length
              && (forall j | 0 <= j < |frame| && j <= n :: frame[j] == slot.message[j])
              && (forall j | n < j < |frame| && j - n - 1 < |stale| :: frame[j] == stale[j - n - 1])
  {
  }

  lemma NulFound(m: seq<byte>, n: nat)
    requires n <= |m| && (forall j | 0 <= j < n :: m[j] != 0) && (n < |m| ==> m[n] == 0)
    ensures FirstNul(m) == n
  {
  }
}
