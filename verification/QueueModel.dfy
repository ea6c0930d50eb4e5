/** The client's circular message queue as a step system: ten slots, some owning a heap buffer,
    filled by any thread and emptied by the websocket callback's two probes. */
module QueueModel {

  import opened Sequences

  const MAX_MESSAGE_LENGTH: nat := 65536
  const MAX_QUEUE_SIZE: nat := 10

  datatype Pointer = Null | To(p: nat)

  /** `queued_message_t` */
  datatype Slot = Slot(message: seq<byte>, length: nat, isBinary: bool, large: Pointer, largeSize: nat)

  datatype Kind = Text | Binary

  /** A message as the producer meant it, or a frame as the consumer wrote it. */
  datatype Item = Item(kind: Kind, payload: seq<byte>)

  /** Between its two probes the callback remembers nothing but that the first failed;
      `onEmpty` records why. */
  datatype Consumer = Ready | Failed(onEmpty: bool)

  /** `heap` holds the live allocations, numbered in order; `freed` logs every `free`. */
  datatype State = State(
    slots: seq<Slot>, head: nat, tail: nat, consumer: Consumer,
    heap: map<nat, seq<byte>>, next: nat, freed: seq<nat>,
    accepted: seq<Item>, delivered: seq<Item>)

  datatype Step =
    | AddText(text: seq<byte>)
    | AddBinary(data: seq<byte>, allocates: bool)
    | ProbeBinary
    | ProbeText(stale: seq<byte>)

  predicate Fits(slot: Slot) {
    |slot.message| == MAX_MESSAGE_LENGTH && slot.length <= MAX_MESSAGE_LENGTH
  }

  predicate Shape(s: State) {
    && |s.slots| == MAX_QUEUE_SIZE && s.head < MAX_QUEUE_SIZE && s.tail < MAX_QUEUE_SIZE
    && forall j | 0 <= j < MAX_QUEUE_SIZE :: Fits(s.slots[j])
  }

  function Blank(): Slot {
    Slot(seq(MAX_MESSAGE_LENGTH, _ => 0), 0, false, Null, 0)
  }

  function Init(): State {
    State(seq(MAX_QUEUE_SIZE, _ => Blank()), 0, 0, Ready, map[], 0, [], [], [])
  }

  function After(i: nat): nat { (i + 1) % MAX_QUEUE_SIZE }

  predicate IsFull(s: State) { After(s.tail) == s.head }

  /** What `strncpy` and the final NUL keep of a C string. */
  function Cut(text: seq<byte>): seq<byte> {
    if |text| < MAX_MESSAGE_LENGTH then text else text[..MAX_MESSAGE_LENGTH - 1]
  }

  function TextSlot(was: Slot, text: seq<byte>): Slot {
    var kept := Cut(text);
    was.(message := kept + seq(MAX_MESSAGE_LENGTH - |kept|, _ => 0), length := |kept|)
  }

  function SmallSlot(was: Slot, data: seq<byte>): Slot
    requires |data| <= |was.message|
  {
    Slot(data + was.message[|data|..], |data|, true, Null, 0)
  }

  function LargeSlot(was: Slot, data: seq<byte>, p: nat): Slot {
    was.(large := To(p), largeSize := |data|, length := 0, isBinary := true)
  }

  predicate Enabled(s: State, step: Step) {
    && Shape(s)
    && match step
       case AddText(text) => 0 !in text
       case AddBinary(_, _) => true
       case ProbeBinary => s.consumer.Ready?
       case ProbeText(_) => s.consumer.Failed?
  }

  function Accept(s: State, slot: Slot, item: Item): State
    requires Shape(s)
  {
    s.(slots := s.slots[s.tail := slot], tail := After(s.tail), accepted := s.accepted + [item])
  }

  function AddedText(s: State, text: seq<byte>): State
    requires Shape(s)
  {
    if IsFull(s) then s
    else Accept(s, TextSlot(s.slots[s.tail], text), Item(Text, Cut(text)))
  }

  function AddedBinary(s: State, data: seq<byte>, allocates: bool): State
    requires Shape(s)
  {
    if IsFull(s) then s
    else if |data| <= MAX_MESSAGE_LENGTH then
      Accept(s, SmallSlot(s.slots[s.tail], data), Item(Binary, data))
    else if !allocates then
      s.(slots := s.slots[s.tail := s.slots[s.tail].(large := Null)])
    else
      Accept(s, LargeSlot(s.slots[s.tail], data, s.next), Item(Binary, data))
        .(heap := s.heap[s.next := data], next := s.next + 1)
  }

  /** What the buffer's pointer reads as. */
  function Pointee(s: State, p: nat, size: nat): seq<byte> {
    if p in s.heap && size <= |s.heap[p]| then s.heap[p][..size] else []
  }

  /** `memcpy` of `length` bytes from the slot's own buffer. */
  function Inline(slot: Slot): seq<byte> {
    if slot.length <= |slot.message| then slot.message[..slot.length] else []
  }

  /** The first probe with what the callback does on success: write the frame and free it.
      The allocation of a small copy is assumed to succeed. */
  function ProbedBinary(s: State): State
    requires Shape(s)
  {
    var slot := s.slots[s.head];
    if s.head == s.tail then s.(consumer := Failed(true))
    else if !slot.isBinary then s.(consumer := Failed(false))
    else match slot.large
      case To(p) =>
        s.(slots := s.slots[s.head := slot.(large := Null)], head := After(s.head),
           heap := s.heap - {p}, freed := s.freed + [p],
           delivered := s.delivered + [Item(Binary, Pointee(s, p, slot.largeSize))])
      case Null =>
        s.(head := After(s.head), delivered := s.delivered + [Item(Binary, Inline(slot))])
  }

  /** Where the first NUL stands, or the length if there is none. */
  function FirstNul(m: seq<byte>): (n: nat)
    ensures n <= |m| && (forall j | 0 <= j < n :: m[j] != 0) && (n < |m| ==> m[n] == 0)
  {
    if m == [] || m[0] == 0 then 0 else 1 + FirstNul(m[1..])
  }

  function Leftover(stale: seq<byte>, n: nat): seq<byte> {
    seq(n, i requires 0 <= i < n => if i < |stale| then stale[i] else 0)
  }

  /** The text frame: what `strcpy` brought over up to the first NUL, then whatever the callback's
      buffer held before. Without a NUL `strcpy` runs past both buffers, and the frame may be
      anything. */
  function Copied(slot: Slot, stale: seq<byte>): seq<byte> {
    var n := FirstNul(slot.message);
    if n == |slot.message| then stale
    else if slot.length <= n + 1 then slot.message[..slot.length]
    else slot.message[..n + 1] + Leftover(stale, slot.length - n - 1)
  }

  /** The second probe copies the slot's buffer without looking at `is_binary`. */
  function ProbedText(s: State, stale: seq<byte>): State
    requires Shape(s)
  {
    if s.head == s.tail then s.(consumer := Ready)
    else s.(consumer := Ready, head := After(s.head),
            delivered := s.delivered + [Item(Text, Copied(s.slots[s.head], stale))])
  }

  function Apply(s: State, step: Step): State
    requires Enabled(s, step)
  {
    match step
    case AddText(text) => AddedText(s, text)
    case AddBinary(data, allocates) => AddedBinary(s, data, allocates)
    case ProbeBinary => ProbedBinary(s)
    case ProbeText(stale) => ProbedText(s, stale)
  }

  /** The test the second probe leaves out. */
  predicate Guarded(s: State, step: Step)
    requires Enabled(s, step)
  {
    step.ProbeText? && s.head != s.tail ==> !s.slots[s.head].isBinary
  }

  predicate Possible(s: State, steps: seq<Step>)
    decreases |steps|
  {
    steps == [] || (Enabled(s, steps[0]) && Possible(Apply(s, steps[0]), steps[1..]))
  }

  function Run(s: State, steps: seq<Step>): State
    requires Possible(s, steps)
    decreases |steps|
  {
    if steps == [] then s else Run(Apply(s, steps[0]), steps[1..])
  }

  predicate GuardedRun(s: State, steps: seq<Step>)
    requires Possible(s, steps)
    decreases |steps|
  {
    steps != [] ==> Guarded(s, steps[0]) && GuardedRun(Apply(s, steps[0]), steps[1..])
  }

  function FreeAll(s: State, n: nat): State
    requires Shape(s) && n <= MAX_QUEUE_SIZE
    decreases MAX_QUEUE_SIZE - n
  {
    if n == MAX_QUEUE_SIZE then s
    else match s.slots[n].large
      case Null => FreeAll(s, n + 1)
      case To(p) =>
        FreeAll(s.(slots := s.slots[n := s.slots[n].(large := Null)],
                   heap := s.heap - {p}, freed := s.freed + [p]), n + 1)
  }
}
