/** What every run of the queue keeps, however badly the callback's probes are torn apart: no
    buffer is freed twice or used after it was freed. And exactly when one is leaked. */
module QueueSafety {
  import opened Sequences
  import opened QueueModel
  import opened QueueInvariant

  /** Slots own live buffers of the size they say, each its own. */
  predicate SlotsSafe(s: State)
    requires Shape(s)
  {
    forall j | 0 <= j < MAX_QUEUE_SIZE && s.slots[j].large.To? ::
      s.slots[j].large.p in s.heap && |s.heap[s.slots[j].large.p]| == s.slots[j].largeSize
  }

  ghost predicate Safe(s: State) {
    Shape(s) && SlotsSafe(s) && OwnersDistinct(s.slots) && Ledger(s.heap.Keys, s.freed, s.next)
  }

  /** Some allocation is live and no slot owns it. */
  predicate Leaked(s: State) {
    !(s.heap.Keys <= Owned(s.slots))
  }

  /** Adding to a slot that still owns a buffer: the pointer is overwritten, not freed. */
  predicate Overwrites(s: State, step: Step)
    requires Enabled(s, step)
  {
    step.AddBinary? && !IsFull(s) && s.slots[s.tail].large.To?
  }

  lemma InitSafe()
    ensures Safe(Init()) && !Leaked(Init())
  {
    assert Init().heap.Keys == {};
  }

  lemma InvIsSafe(s: State)
    requires Base(s)
    ensures Safe(s) && !Leaked(s)
  {
    forall j | 0 <= j < MAX_QUEUE_SIZE && s.slots[j].large.To?
      ensures s.slots[j].large.p in s.heap && |s.heap[s.slots[j].large.p]| == s.slots[j].largeSize
    {
      var k := LivePlace(s, j);
      assert Holds(s, s.slots[Place(k)], s.accepted[k]);
    }
  }

  /** An addition that leaves the heap alone: the slot owns nothing afterwards, or what it did. */
  lemma SafeFill(s: State, slot: Slot, t: State)
    requires Safe(s) && Fits(slot)
    requires slot.large.Null? || (slot.large == s.slots[s.tail].large && slot.largeSize == s.slots[s.tail].largeSize)
    requires t == s.(slots := s.slots[s.tail := slot], tail := t.tail, accepted := t.accepted)
    requires t.tail < MAX_QUEUE_SIZE
    ensures Safe(t)
  {
  }

  lemma SafeAllocate(s: State, data: seq<byte>)
    requires Safe(s) && !IsFull(s) && |data| > MAX_MESSAGE_LENGTH
    ensures Safe(AddedBinary(s, data, true))
  {
    var t := AddedBinary(s, data, true);
    LedgerMore(s.heap.Keys, s.freed, s.next);
    assert t.heap.Keys == s.heap.Keys + {s.next};
  }

  lemma SafeAdd(s: State, step: Step)
    requires Safe(s) && Enabled(s, step) && (step.AddText? || step.AddBinary?)
    ensures Safe(Apply(s, step))
  {
    if !IsFull(s) {
      var t := Apply(s, step);
      if step.AddBinary? && |step.data| > MAX_MESSAGE_LENGTH && step.allocates {
        SafeAllocate(s, step.data);
      } else {
        SafeFill(s, t.slots[s.tail], t);
      }
    }
  }

  lemma SafeProbe(s: State, step: Step)
    requires Safe(s) && Enabled(s, step) && (step.ProbeBinary? || step.ProbeText?)
    ensures Safe(Apply(s, step))
  {
    var slot := s.slots[s.head];
    if step.ProbeBinary? && s.head != s.tail && slot.isBinary && slot.large.To? {
      SafeRelease(s, s.head, Apply(s, step));
    }
  }

  /** No step of any kind frees a buffer twice, or leaves a slot a buffer that was freed. */
  lemma SafeStep(s: State, step: Step)
    requires Safe(s) && Enabled(s, step)
    ensures Safe(Apply(s, step))
  {
    if step.AddText? || step.AddBinary? { SafeAdd(s, step); } else { SafeProbe(s, step); }
  }

  lemma {:induction false} SafeRun(s: State, steps: seq<Step>)
    requires Safe(s) && Possible(s, steps)
    ensures Safe(Run(s, steps))
    decreases |steps|
  {
    if steps != [] {
      SafeStep(s, steps[0]);
      SafeRun(Apply(s, steps[0]), steps[1..]);
    }
  }

  /** Over every run, however torn: an allocation is live or was freed, never both and never twice,
      and a slot that owns a buffer owns a live one. */
  lemma NeverFreedTwice(steps: seq<Step>)
    requires Possible(Init(), steps)
    ensures var s := Run(Init(), steps);
            Safe(s) && Owned(s.slots) <= s.heap.Keys && Ledger(s.heap.Keys, s.freed, s.next)
  {
    InitSafe();
    SafeRun(Init(), steps);
  }

  // ---- Leaks -------------------------------------------------------------------------

  lemma LeakAdd(s: State, step: Step)
    requires Safe(s) && Enabled(s, step) && step.AddBinary? && !IsFull(s)
    ensures Leaked(Apply(s, step)) <==> Leaked(s) || Overwrites(s, step)
  {
    var t, i := Apply(s, step), s.tail;
    var was := s.slots[i].large;
    LedgerMore(s.heap.Keys, s.freed, s.next);
    assert forall j | 0 <= j < MAX_QUEUE_SIZE && j != i :: t.slots[j] == s.slots[j];
    if was.To? {
      assert was.p in t.heap;
      forall j | 0 <= j < MAX_QUEUE_SIZE && t.slots[j].large.To? ensures t.slots[j].large.p != was.p {
        if j != i { assert s.slots[j].large != was; }
      }
      assert was.p !in Owned(t.slots);
    } else if Leaked(s) {
      var p :| p in s.heap.Keys && p !in Owned(s.slots);
      StaysLeaked(s, step, p);
    } else {
      forall p | p in t.heap.Keys ensures p in Owned(t.slots) {
        if p in s.heap {
          assert p in Owned(s.slots);
          var j :| 0 <= j < |s.slots| && s.slots[j].large == To(p);
          assert t.slots[j].large == To(p);
        } else {
          assert t.slots[i].large == To(p);
        }
      }
    }
  }

  /** What no slot owns is out of reach for ever. */
  lemma StaysLeaked(s: State, step: Step, p: nat)
    requires Safe(s) && Enabled(s, step) && p in s.heap && p !in Owned(s.slots)
    ensures p in Apply(s, step).heap && p !in Owned(Apply(s, step).slots)
  {
    var t := Apply(s, step);
    LedgerMore(s.heap.Keys, s.freed, s.next);
    forall j | 0 <= j < MAX_QUEUE_SIZE && s.slots[j].large.To? ensures s.slots[j].large.p != p {
      assert s.slots[j].large.p in Owned(s.slots);
    }
  }

  lemma LeakOther(s: State, step: Step)
    requires Safe(s) && Enabled(s, step) && !(step.AddBinary? && !IsFull(s))
    ensures Leaked(Apply(s, step)) <==> Leaked(s)
  {
    var t := Apply(s, step);
    if Leaked(s) {
      var p :| p in s.heap.Keys && p !in Owned(s.slots);
      StaysLeaked(s, step, p);
    } else {
      forall p | p in t.heap.Keys ensures p in Owned(t.slots) {
        assert p in Owned(s.slots);
        var j :| 0 <= j < |s.slots| && s.slots[j].large == To(p);
        assert t.slots[j].large == To(p);
      }
    }
  }

  /** Some binary addition of the run met a slot that still owned a buffer. */
  predicate OverwritesIn(s: State, steps: seq<Step>)
    requires Possible(s, steps)
    decreases |steps|
  {
    steps != [] && (Overwrites(s, steps[0]) || OverwritesIn(Apply(s, steps[0]), steps[1..]))
  }

  lemma {:induction false} LeakedExactly(s: State, steps: seq<Step>)
    requires Safe(s) && Possible(s, steps)
    ensures Leaked(Run(s, steps)) <==> Leaked(s) || OverwritesIn(s, steps)
    decreases |steps|
  {
    if steps != [] {
      if steps[0].AddBinary? && !IsFull(s) { LeakAdd(s, steps[0]); } else { LeakOther(s, steps[0]); }
      SafeStep(s, steps[0]);
      LeakedExactly(Apply(s, steps[0]), steps[1..]);
    }
  }

  /** Cleanup frees what the slots own. */
  lemma {:induction false} FreeAllFrees(s: State, n: nat)
    requires Safe(s) && n <= MAX_QUEUE_SIZE
    requires forall i | 0 <= i < n :: s.slots[i].large.Null?
    ensures FreeAll(s, n).heap.Keys == s.heap.Keys - Owned(s.slots) && FreeAll(s, n).next == s.next
    ensures Ledger(FreeAll(s, n).heap.Keys, FreeAll(s, n).freed, s.next)
    decreases MAX_QUEUE_SIZE - n
  {
    if n == MAX_QUEUE_SIZE {
      assert Owned(s.slots) == {};
    } else {
      var slot := s.slots[n];
      if slot.large.To? {
        var t := s.(slots := s.slots[n := slot.(large := Null)], heap := s.heap - {slot.large.p},
                    freed := s.freed + [slot.large.p]);
        OwnLess(s.slots, n, slot.(large := Null));
        LedgerLess(s.heap.Keys, s.freed, s.next, slot.large.p);
        SafeRelease(s, n, t);
        FreeAllFrees(t, n + 1);
      } else {
        FreeAllFrees(s, n + 1);
      }
    }
  }

  lemma {:induction false} FreeAllClears(s: State, n: nat)
    requires Shape(s) && n <= MAX_QUEUE_SIZE
    ensures |FreeAll(s, n).slots| == |s.slots|
    ensures forall j | 0 <= j < n :: FreeAll(s, n).slots[j] == s.slots[j]
    ensures forall j | n <= j < MAX_QUEUE_SIZE :: FreeAll(s, n).slots[j] == s.slots[j].(large := Null)
    decreases MAX_QUEUE_SIZE - n
  {
    if n < MAX_QUEUE_SIZE {
      match s.slots[n].large
      case Null => FreeAllClears(s, n + 1);
      case To(p) =>
        FreeAllClears(s.(slots := s.slots[n := s.slots[n].(large := Null)],
                         heap := s.heap - {p}, freed := s.freed + [p]), n + 1);
    }
  }

  /** A slot's buffer is freed and its pointer cleared. */
  lemma SafeRelease(s: State, n: nat, t: State)
    requires Safe(s) && n < MAX_QUEUE_SIZE && s.slots[n].large.To?
    requires t.slots == s.slots[n := s.slots[n].(large := Null)] && t.head < MAX_QUEUE_SIZE && t.tail == s.tail
    requires t.heap == s.heap - {s.slots[n].large.p} && t.freed == s.freed + [s.slots[n].large.p] && t.next == s.next
    ensures Safe(t) && t.heap.Keys == s.heap.Keys - {s.slots[n].large.p}
  {
    var p := s.slots[n].large.p;
    LedgerLess(s.heap.Keys, s.freed, s.next, p);
    assert t.heap.Keys == s.heap.Keys - {p};
    forall j | 0 <= j < MAX_QUEUE_SIZE && t.slots[j].large.To? ensures t.slots[j].large.p in t.heap {
      assert j != n && s.slots[j].large != s.slots[n].large;
    }
  }

  lemma NoKeys(heap: map<nat, seq<byte>>)
    ensures heap == map[] <==> heap.Keys == {}
  {
    if heap.Keys == {} {
      assert forall p :: p !in heap.Keys;
      assert heap == map[];
    }
  }

  lemma NoneLeft(heap: set<nat>, owned: set<nat>)
    ensures heap <= owned <==> heap - owned == {}
  {
    if !(heap <= owned) {
      var p :| p in heap && p !in owned;
      assert p in heap - owned;
    }
  }

  /** After cleanup at the end of a run no allocation is left, each having been freed exactly once,
      if and only if no binary message was ever added to a slot that still owned a buffer. */
  lemma CleanupExactly(steps: seq<Step>)
    requires Possible(Init(), steps)
    ensures var s := Run(Init(), steps); Shape(s) && Ledger(FreeAll(s, 0).heap.Keys, FreeAll(s, 0).freed, s.next)
    ensures FreeAll(Run(Init(), steps), 0).heap == map[] <==> !OverwritesIn(Init(), steps)
  {
    var s := Run(Init(), steps);
    InitSafe();
    SafeRun(Init(), steps);
    FreeAllFrees(s, 0);
    LeakedExactly(Init(), steps);
    NoKeys(FreeAll(s, 0).heap);
    NoneLeft(s.heap.Keys, Owned(s.slots));
  }
}
