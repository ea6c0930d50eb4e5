/** The queue refines a FIFO of payloads and owns exactly the buffers of its live window. */
module QueueInvariant {
  import opened Sequences
  import opened QueueModel

  /** The slot of the `k`-th message ever accepted. */
  function Place(k: nat): nat { k % MAX_QUEUE_SIZE }

  /** The slot holds the item's payload. */
  predicate Holds(s: State, slot: Slot, item: Item) {
    match slot.large
    case To(p) =>
      && slot.isBinary && item.kind.Binary? && |item.payload| > MAX_MESSAGE_LENGTH && slot.length == 0
      && p in s.heap && s.heap[p] == item.payload && slot.largeSize == |item.payload|
    case Null =>
      && slot.length <= |slot.message| && slot.message[..slot.length] == item.payload
      && (item.kind.Text? ==> FirstNul(slot.message) == slot.length < |slot.message|)
  }

  /** Some message accepted so far into place `j` was binary; the flag is never cleared. */
  ghost predicate Tainted(accepted: seq<Item>, j: nat) {
    exists m: nat :: m < |accepted| && Place(m) == j && accepted[m].kind.Binary?
  }

  predicate Counts(s: State) {
    var d, a := |s.delivered|, |s.accepted|;
    d <= a <= d + MAX_QUEUE_SIZE - 1 && s.head == Place(d) && s.tail == Place(a)
  }

  predicate LiveHold(s: State)
    requires Shape(s) && Counts(s)
  {
    forall k | |s.delivered| <= k < |s.accepted| :: Holds(s, s.slots[Place(k)], s.accepted[k])
  }

  /** Slots outside the live window own nothing. */
  predicate RestOwnNothing(s: State)
    requires Shape(s) && Counts(s)
  {
    forall k | |s.accepted| <= k < |s.delivered| + MAX_QUEUE_SIZE :: s.slots[Place(k)].large.Null?
  }

  /** The buffers the slots own. */
  function Owned(slots: seq<Slot>): set<nat> {
    set j | 0 <= j < |slots| && slots[j].large.To? :: slots[j].large.p
  }

  predicate OwnersDistinct(slots: seq<Slot>) {
    forall i, j | 0 <= i < j < |slots| && slots[i].large.To? :: slots[i].large != slots[j].large
  }

  /** Every allocation so far is either live or freed, and none is freed twice. */
  ghost predicate Ledger(heap: set<nat>, freed: seq<nat>, next: nat) {
    && (forall p: nat :: p < next <==> p in heap || p in freed)
    && (forall i | 0 <= i < |freed| :: freed[i] !in heap)
    && (forall i, j | 0 <= i < j < |freed| :: freed[i] != freed[j])
  }

  ghost predicate HeapOk(s: State) {
    s.heap.Keys == Owned(s.slots) && OwnersDistinct(s.slots) && Ledger(s.heap.Keys, s.freed, s.next)
  }

  ghost predicate FlagsOk(s: State)
    requires Shape(s)
  {
    forall j | 0 <= j < MAX_QUEUE_SIZE :: s.slots[j].isBinary <==> Tainted(s.accepted, j)
  }

  predicate Delivered(s: State)
    requires Counts(s)
  {
    forall k | 0 <= k < |s.delivered| :: s.delivered[k].payload == s.accepted[k].payload
  }

  /** Frames go out as binary exactly when their place was tainted by then. */
  ghost predicate KindsOk(s: State)
    requires Counts(s)
  {
    forall k | 0 <= k < |s.delivered| ::
      s.delivered[k].kind.Binary? <==> Tainted(s.accepted[..k + 1], Place(k))
  }

  predicate ConsumerOk(s: State)
    requires Shape(s)
  {
    s.consumer == Failed(false) ==> s.head != s.tail && !s.slots[s.head].isBinary
  }

  /** What holds of the slots and the heap. */
  ghost predicate Base(s: State) {
    && Shape(s) && Counts(s) && ConsumerOk(s)
    && LiveHold(s) && RestOwnNothing(s)
    && HeapOk(s) && FlagsOk(s)
  }

  /** With what holds of the frames sent so far. */
  ghost predicate Inv(s: State) {
    Base(s) && Delivered(s) && KindsOk(s)
  }

  /** The text probe does not meet a slot that owns a buffer. */
  predicate Sparing(s: State, step: Step)
    requires Enabled(s, step)
  {
    step.ProbeText? && s.head != s.tail ==> s.slots[s.head].large.Null?
  }

  lemma PlaceOfNext(k: nat)
    ensures After(Place(k)) == Place(k + 1)
  {
  }

  lemma PlaceWraps(k: nat)
    ensures Place(k + MAX_QUEUE_SIZE) == Place(k)
  {
  }

  lemma PlacesDiffer(i: nat, j: nat)
    requires i < j < i + MAX_QUEUE_SIZE
    ensures Place(i) != Place(j)
  {
  }

  lemma FullExactly(s: State)
    requires Shape(s) && Counts(s)
    ensures IsFull(s) <==> |s.accepted| == |s.delivered| + MAX_QUEUE_SIZE - 1
    ensures s.head == s.tail <==> |s.accepted| == |s.delivered|
  {
    var d, a := |s.delivered|, |s.accepted|;
    PlaceOfNext(a);
    if a + 1 < d + MAX_QUEUE_SIZE { PlacesDiffer(d, a + 1); }
    if d < a { PlacesDiffer(d, a); }
  }

  lemma TaintedSnoc(accepted: seq<Item>, item: Item, j: nat)
    ensures Tainted(accepted + [item], j) <==>
              Tainted(accepted, j) || (Place(|accepted|) == j && item.kind.Binary?)
  {
    var more := accepted + [item];
    if Tainted(accepted, j) {
      var m: nat :| m < |accepted| && Place(m) == j && accepted[m].kind.Binary?;
      assert more[m] == accepted[m];
    }
    if Place(|accepted|) == j && item.kind.Binary? {
      assert more[|accepted|] == item;
    }
  }

  lemma CountsAccept(s: State, t: State)
    requires Shape(s) && Counts(s) && ConsumerOk(s) && !IsFull(s)
    requires |t.accepted| == |s.accepted| + 1 && t.delivered == s.delivered && t.consumer == s.consumer
    requires t.head == s.head && t.tail == After(s.tail)
    requires |t.slots| == |s.slots| && forall j | 0 <= j < |s.slots| && j != s.tail :: t.slots[j] == s.slots[j]
    requires Fits(t.slots[s.tail])
    ensures Shape(t) && Counts(t) && ConsumerOk(t)
  {
    FullExactly(s);
    PlaceOfNext(|s.accepted|);
    FullExactly(t);
  }

  lemma LiveAccept(s: State, t: State, slot: Slot, item: Item)
    requires Shape(s) && Counts(s) && LiveHold(s) && Shape(t) && Counts(t)
    requires t == Accept(s, slot, item).(heap := t.heap, next := t.next)
    requires forall p | p in s.heap :: p in t.heap && t.heap[p] == s.heap[p]
    requires Holds(t, slot, item)
    ensures LiveHold(t)
  {
    var a := |s.accepted|;
    forall k | |s.delivered| <= k < |t.accepted| ensures Holds(t, t.slots[Place(k)], t.accepted[k]) {
      if k < a {
        PlacesDiffer(k, a);
        assert Holds(s, s.slots[Place(k)], s.accepted[k]);
      }
    }
  }

  lemma RestAccept(s: State, t: State)
    requires Shape(s) && Counts(s) && RestOwnNothing(s) && Shape(t) && Counts(t)
    requires |t.accepted| == |s.accepted| + 1 && t.delivered == s.delivered
    requires forall j | 0 <= j < MAX_QUEUE_SIZE && j != s.tail :: t.slots[j] == s.slots[j]
    ensures RestOwnNothing(t)
  {
    forall k | |t.accepted| <= k < |s.delivered| + MAX_QUEUE_SIZE ensures t.slots[Place(k)].large.Null? {
      PlacesDiffer(|s.accepted|, k);
      assert s.slots[Place(k)].large.Null?;
    }
  }

  /** Filling the slot at the tail leaves the rest of the window alone. */
  lemma WindowAccept(s: State, t: State, slot: Slot, item: Item)
    requires Base(s) && !IsFull(s) && Fits(slot)
    requires t == Accept(s, slot, item).(heap := t.heap, next := t.next)
    requires forall p | p in s.heap :: p in t.heap && t.heap[p] == s.heap[p]
    requires Holds(t, slot, item)
    ensures Shape(t) && Counts(t) && ConsumerOk(t) && LiveHold(t) && RestOwnNothing(t)
    ensures s.slots[s.tail].large.Null?
  {
    FullExactly(s);
    assert s.slots[Place(|s.accepted|)].large.Null?;
    CountsAccept(s, t);
    LiveAccept(s, t, slot, item);
    RestAccept(s, t);
  }

  lemma FramesExtend(s: State, t: State, item: Item)
    requires Counts(s) && Counts(t) && t.delivered == s.delivered && t.accepted == s.accepted + [item]
    ensures Delivered(s) ==> Delivered(t)
    ensures KindsOk(s) ==> KindsOk(t)
  {
    if KindsOk(s) {
      forall k | 0 <= k < |s.delivered|
        ensures t.delivered[k].kind.Binary? <==> Tainted(t.accepted[..k + 1], Place(k))
      {
        assert t.accepted[..k + 1] == s.accepted[..k + 1];
      }
    }
  }

  /** A producer fills the slot at the tail. */
  lemma AcceptKeeps(s: State, slot: Slot, item: Item, heap: map<nat, seq<byte>>, next: nat)
    requires Base(s) && !IsFull(s) && Fits(slot)
    requires slot.isBinary == (item.kind.Binary? || s.slots[s.tail].isBinary)
    requires if slot.large.Null? then heap == s.heap && next == s.next
             else slot.large == To(s.next) && heap == s.heap[s.next := item.payload] && next == s.next + 1
    requires Holds(s.(heap := heap), slot, item)
    ensures var t := Accept(s, slot, item).(heap := heap, next := next);
            Base(t) && (Inv(s) ==> Inv(t))
  {
    var t := Accept(s, slot, item).(heap := heap, next := next);
    LedgerMore(s.heap.Keys, s.freed, s.next);
    WindowAccept(s, t, slot, item);
    OwnMore(s.slots, s.tail, slot);
    forall j | 0 <= j < MAX_QUEUE_SIZE ensures t.slots[j].isBinary <==> Tainted(t.accepted, j) {
      TaintedSnoc(s.accepted, item, j);
    }
    FramesExtend(s, t, item);
  }

  lemma NulAt(m: seq<byte>, k: nat)
    requires k < |m| && m[k] == 0 && 0 !in m[..k]
    ensures FirstNul(m) == k
  {
    forall j | 0 <= j < k ensures m[j] != 0 {
      assert m[..k][j] in m[..k];
    }
  }

  lemma TextKeeps(s: State, text: seq<byte>)
    requires Base(s) && 0 !in text
    ensures Base(AddedText(s, text)) && (Inv(s) ==> Inv(AddedText(s, text)))
  {
    if !IsFull(s) {
      FullExactly(s);
      assert s.slots[Place(|s.accepted|)].large.Null?;
      var slot := TextSlot(s.slots[s.tail], text);
      assert slot.message[..slot.length] == Cut(text);
      NulAt(slot.message, slot.length);
      AcceptKeeps(s, slot, Item(Text, Cut(text)), s.heap, s.next);
    }
  }

  lemma BinaryKeeps(s: State, data: seq<byte>, allocates: bool)
    requires Base(s)
    ensures Base(AddedBinary(s, data, allocates)) && (Inv(s) ==> Inv(AddedBinary(s, data, allocates)))
  {
    if !IsFull(s) {
      FullExactly(s);
      var was := s.slots[s.tail];
      assert s.slots[Place(|s.accepted|)].large.Null?;
      if |data| <= MAX_MESSAGE_LENGTH {
        var slot := SmallSlot(was, data);
        assert slot.message[..slot.length] == data;
        AcceptKeeps(s, slot, Item(Binary, data), s.heap, s.next);
      } else if !allocates {
        assert s.slots[s.tail := was.(large := Null)] == s.slots;
      } else {
        AcceptKeeps(s, LargeSlot(was, data, s.next), Item(Binary, data), s.heap[s.next := data], s.next + 1);
      }
    }
  }

  /** While a message waits, no later one shares its place, so the flag it sees is its own. */
  lemma TaintAtDelivery(accepted: seq<Item>, k: nat)
    requires k < |accepted| < k + MAX_QUEUE_SIZE
    ensures Tainted(accepted, Place(k)) <==> Tainted(accepted[..k + 1], Place(k))
  {
    var early := accepted[..k + 1];
    if Tainted(accepted, Place(k)) {
      var m: nat :| m < |accepted| && Place(m) == Place(k) && accepted[m].kind.Binary?;
      if m > k { PlacesDiffer(k, m); }
      assert early[m] == accepted[m];
    }
    if Tainted(early, Place(k)) {
      var m: nat :| m < |early| && Place(m) == Place(k) && early[m].kind.Binary?;
      assert accepted[m] == early[m];
    }
  }

  lemma LiveDeliver(s: State, t: State)
    requires Shape(s) && Counts(s) && LiveHold(s) && OwnersDistinct(s.slots) && Shape(t) && Counts(t)
    requires |t.delivered| == |s.delivered| + 1 && t.accepted == s.accepted
    requires t.slots == s.slots[s.head := s.slots[s.head].(large := Null)]
    requires forall p | p in s.heap && s.slots[s.head].large != To(p) :: p in t.heap && t.heap[p] == s.heap[p]
    ensures LiveHold(t)
  {
    var d := |s.delivered|;
    forall k | d + 1 <= k < |s.accepted| ensures Holds(t, t.slots[Place(k)], t.accepted[k]) {
      PlacesDiffer(d, k);
      assert Holds(s, s.slots[Place(k)], s.accepted[k]);
    }
  }

  lemma RestDeliver(s: State, t: State)
    requires Shape(s) && Counts(s) && RestOwnNothing(s) && Shape(t) && Counts(t)
    requires |t.delivered| == |s.delivered| + 1 && t.accepted == s.accepted
    requires t.slots == s.slots[s.head := s.slots[s.head].(large := Null)]
    ensures RestOwnNothing(t)
  {
    var d := |s.delivered|;
    PlaceWraps(d);
    forall k | |s.accepted| <= k < d + 1 + MAX_QUEUE_SIZE ensures t.slots[Place(k)].large.Null? {
      if k < d + MAX_QUEUE_SIZE {
        assert s.slots[Place(k)].large.Null?;
      }
    }
  }

  lemma KindsDeliver(s: State, t: State, frame: Item)
    requires Shape(s) && Counts(s) && FlagsOk(s) && Delivered(s) && KindsOk(s)
    requires Counts(t) && |s.delivered| < |s.accepted|
    requires t.delivered == s.delivered + [frame] && t.accepted == s.accepted
    requires frame.payload == s.accepted[|s.delivered|].payload
    requires frame.kind.Binary? <==> s.slots[s.head].isBinary
    ensures Delivered(t) && KindsOk(t)
  {
    var d := |s.delivered|;
    TaintAtDelivery(s.accepted, d);
    assert s.slots[Place(d)].isBinary <==> Tainted(s.accepted, Place(d));
    forall k | 0 <= k < |t.delivered|
      ensures t.delivered[k].payload == t.accepted[k].payload
      ensures t.delivered[k].kind.Binary? <==> Tainted(t.accepted[..k + 1], Place(k))
    {
      if k < d {
        assert t.delivered[k] == s.delivered[k];
        assert s.delivered[k].kind.Binary? <==> Tainted(s.accepted[..k + 1], Place(k));
      } else {
        assert k == d && t.delivered[k] == frame;
      }
    }
  }

  /** The message at the head leaves, its slot owning nothing afterwards. */
  lemma DepartureKeeps(s: State, t: State, frame: Item)
    requires Base(s) && s.head != s.tail && t.consumer.Ready?
    requires t == s.(slots := s.slots[s.head := s.slots[s.head].(large := Null)], head := After(s.head),
                     delivered := s.delivered + [frame], consumer := Ready,
                     heap := t.heap, freed := t.freed)
    requires match s.slots[s.head].large
             case Null => t.heap == s.heap && t.freed == s.freed
             case To(p) => t.heap == s.heap - {p} && t.freed == s.freed + [p]
    ensures Base(t)
  {
    FullExactly(s);
    PlaceOfNext(|s.delivered|);
    var slot := s.slots[s.head];
    if slot.large.To? {
      OwnLess(s.slots, s.head, slot.(large := Null));
      LedgerLess(s.heap.Keys, s.freed, s.next, slot.large.p);
    } else {
      assert t.slots == s.slots;
    }
    LiveDeliver(s, t);
    RestDeliver(s, t);
  }

  lemma HeadHeld(s: State)
    requires Base(s) && s.head != s.tail
    ensures |s.delivered| < |s.accepted| && Holds(s, s.slots[s.head], s.accepted[|s.delivered|])
    ensures s.slots[s.head].isBinary <==> Tainted(s.accepted, Place(|s.delivered|))
    ensures s.accepted[|s.delivered|].kind.Binary? ==> s.slots[s.head].isBinary
  {
    FullExactly(s);
    var d := |s.delivered|;
    assert Holds(s, s.slots[Place(d)], s.accepted[d]);
    assert s.accepted[d].kind.Binary? ==> Tainted(s.accepted, Place(d));
  }

  lemma ProbeBinaryKeeps(s: State)
    requires Base(s) && s.consumer.Ready?
    ensures Base(ProbedBinary(s)) && (Inv(s) ==> Inv(ProbedBinary(s)))
  {
    var slot := s.slots[s.head];
    if s.head != s.tail && slot.isBinary {
      var d, t := |s.delivered|, ProbedBinary(s);
      HeadHeld(s);
      if slot.large.Null? { assert s.slots[s.head := slot.(large := Null)] == s.slots; }
      DepartureKeeps(s, t, t.delivered[d]);
      if Inv(s) { KindsDeliver(s, t, t.delivered[d]); }
    }
  }

  /** A message whose slot is not flagged is a text, and `strcpy` reads all of it. */
  lemma UnflaggedReads(s: State, stale: seq<byte>)
    requires Base(s) && s.head != s.tail && !s.slots[s.head].isBinary
    ensures |s.delivered| < |s.accepted| && s.slots[s.head].large.Null?
    ensures Copied(s.slots[s.head], stale) == s.accepted[|s.delivered|].payload
  {
    HeadHeld(s);
  }

  lemma ProbeTextKeeps(s: State, stale: seq<byte>)
    requires Base(s) && s.consumer.Failed? && Sparing(s, ProbeText(stale))
    ensures Base(ProbedText(s, stale))
    ensures Inv(s) && Guarded(s, ProbeText(stale)) ==> Inv(ProbedText(s, stale))
  {
    if s.head != s.tail {
      var t, frame := ProbedText(s, stale), Item(Text, Copied(s.slots[s.head], stale));
      HeadHeld(s);
      assert s.slots[s.head := s.slots[s.head].(large := Null)] == s.slots;
      DepartureKeeps(s, t, frame);
      if Inv(s) && !s.slots[s.head].isBinary {
        UnflaggedReads(s, stale);
        KindsDeliver(s, t, frame);
      }
    }
  }

  lemma GuardedIsSparing(s: State, step: Step)
    requires Base(s) && Enabled(s, step) && Guarded(s, step)
    ensures Sparing(s, step)
  {
    if s.head != s.tail { HeadHeld(s); }
  }

  lemma StepKeepsBase(s: State, step: Step)
    requires Base(s) && Enabled(s, step) && Sparing(s, step)
    ensures Base(Apply(s, step))
    ensures Inv(s) && Guarded(s, step) ==> Inv(Apply(s, step))
  {
    match step
    case AddText(text) => TextKeeps(s, text);
    case AddBinary(data, allocates) => BinaryKeeps(s, data, allocates);
    case ProbeBinary => ProbeBinaryKeeps(s);
    case ProbeText(stale) => ProbeTextKeeps(s, stale);
  }

  lemma StepKeeps(s: State, step: Step)
    requires Inv(s) && Enabled(s, step) && Guarded(s, step)
    ensures Inv(Apply(s, step))
  {
    GuardedIsSparing(s, step);
    StepKeepsBase(s, step);
  }

  lemma {:induction false} RunKeeps(s: State, steps: seq<Step>)
    requires Inv(s) && Possible(s, steps) && GuardedRun(s, steps)
    ensures Inv(Run(s, steps))
    decreases |steps|
  {
    if steps != [] {
      StepKeeps(s, steps[0]);
      RunKeeps(Apply(s, steps[0]), steps[1..]);
    }
  }

  /** The first message from the `d`-th on that is kept in slot `j`. */
  lemma NextAt(d: nat, j: nat) returns (k: nat)
    requires j < MAX_QUEUE_SIZE
    ensures d <= k < d + MAX_QUEUE_SIZE && Place(k) == j
  {
    k := if Place(d) <= j then d + j - Place(d) else d + j + MAX_QUEUE_SIZE - Place(d);
  }

  /** A slot that owns a buffer belongs to a waiting message. */
  lemma LivePlace(s: State, j: nat) returns (k: nat)
    requires Base(s) && j < MAX_QUEUE_SIZE && s.slots[j].large.To?
    ensures |s.delivered| <= k < |s.accepted| && Place(k) == j
  {
    var d := |s.delivered|;
    k := NextAt(d, j);
    assert forall q | |s.accepted| <= q < d + MAX_QUEUE_SIZE :: s.slots[Place(q)].large.Null?;
  }

  lemma InitOk()
    ensures Inv(Init())
  {
    assert Owned(Init().slots) == {};
  }

  lemma OwnMore(slots: seq<Slot>, i: nat, slot: Slot)
    requires i < |slots| && slots[i].large.Null? && OwnersDistinct(slots)
    requires slot.large.To? ==> slot.large.p !in Owned(slots)
    ensures Owned(slots[i := slot]) == Owned(slots) + (if slot.large.To? then {slot.large.p} else {})
    ensures OwnersDistinct(slots[i := slot])
  {
    var more := slots[i := slot];
    forall p | p in Owned(slots) ensures p in Owned(more) {
      var j :| 0 <= j < |slots| && slots[j].large == To(p);
      assert more[j].large == To(p);
    }
    if slot.large.To? { assert more[i].large == slot.large; }
    forall j | 0 <= j < |slots| && slots[j].large.To? ensures slots[j].large.p in Owned(slots) {
    }
  }

  lemma LedgerMore(heap: set<nat>, freed: seq<nat>, next: nat)
    requires Ledger(heap, freed, next)
    ensures Ledger(heap + {next}, freed, next + 1) && next !in heap
  {
    assert next in heap || next in freed ==> next < next;
  }

  lemma OwnLess(slots: seq<Slot>, i: nat, slot: Slot)
    requires i < |slots| && slots[i].large.To? && OwnersDistinct(slots) && slot.large.Null?
    ensures Owned(slots[i := slot]) == Owned(slots) - {slots[i].large.p}
    ensures OwnersDistinct(slots[i := slot]) && slots[i].large.p in Owned(slots)
  {
    var less := slots[i := slot];
    var p := slots[i].large.p;
    forall q | q in Owned(slots) && q != p ensures q in Owned(less) {
      var j :| 0 <= j < |slots| && slots[j].large == To(q);
      assert less[j].large == To(q);
    }
    forall q | q in Owned(less) ensures q in Owned(slots) && q != p {
      var j :| 0 <= j < |less| && less[j].large == To(q);
      assert slots[j].large == To(q);
    }
  }

  lemma LedgerLess(heap: set<nat>, freed: seq<nat>, next: nat, p: nat)
    requires Ledger(heap, freed, next) && p in heap
    ensures Ledger(heap - {p}, freed + [p], next)
  {
    forall q: nat ensures q in heap - {p} || q in freed + [p] <==> q in heap || q in freed {
    }
  }
}
