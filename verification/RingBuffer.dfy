/** The audio ring buffer: a fixed array of bytes with wrap-around two-piece copies, shown to be
    a FIFO of bytes. */
module RingBuffer {

  import opened Sequences

  /** The ring's fields as a value; `active` and the locks live in RingProtocol. */
  datatype Ring = Ring(buffer: seq<byte>, readPos: nat, writePos: nat, used: nat)

  /** The position `n` places after `pos`, going round the end at most once. */
  function Around(size: nat, pos: nat, n: nat): nat
    requires pos < size && n <= size
  {
    if pos + n < size then pos + n else pos + n - size
  }

  predicate Valid(r: Ring) {
    && r.used <= |r.buffer| && r.readPos < |r.buffer|
    && r.writePos == Around(|r.buffer|, r.readPos, r.used)
  }

  /** The bytes held, oldest first. */
  function Contents(r: Ring): seq<byte>
    requires Valid(r)
  {
    seq(r.used, i requires 0 <= i < r.used => r.buffer[Around(|r.buffer|, r.readPos, i)])
  }

  function Empty(size: nat): Ring
    requires 0 < size
  {
    Ring(seq(size, _ => 0), 0, 0, 0)
  }

  /** `memcpy(buffer + at, data, |data|)` */
  function Splice(buffer: seq<byte>, at: nat, data: seq<byte>): seq<byte>
    requires at + |data| <= |buffer|
  {
    buffer[..at] + data + buffer[at + |data|..]
  }

  /** How much of a transfer of `n` bytes fits before the end of the array. */
  function FirstChunk(size: nat, pos: nat, n: nat): nat
    requires pos < size
  {
    if size - pos > n then n else size - pos
  }

  function Written(r: Ring, data: seq<byte>): Ring
    requires Valid(r) && r.used + |data| <= |r.buffer|
  {
    var first := FirstChunk(|r.buffer|, r.writePos, |data|);
    var one := Splice(r.buffer, r.writePos, data[..first]);
    var two := if first < |data| then Splice(one, 0, data[first..]) else one;
    Ring(two, r.readPos, (r.writePos + |data|) % |r.buffer|, r.used + |data|)
  }

  function Output(r: Ring, n: nat): seq<byte>
    requires Valid(r) && n <= r.used
  {
    var first := FirstChunk(|r.buffer|, r.readPos, n);
    r.buffer[r.readPos..r.readPos + first] + (if first < n then r.buffer[..n - first] else [])
  }

  function Consumed(r: Ring, n: nat): Ring
    requires Valid(r) && n <= r.used
  {
    Ring(r.buffer, (r.readPos + n) % |r.buffer|, r.writePos, r.used - n)
  }

  /** The code's `%` is one trip around the end. */
  lemma ModIsAround(size: nat, pos: nat, n: nat)
    requires pos < size && n <= size
    ensures (pos + n) % size == Around(size, pos, n)
  {
    assert pos + n < 2 * size;
  }

  lemma WrittenAt(r: Ring, data: seq<byte>, i: nat)
    requires Valid(r) && r.used + |data| <= |r.buffer| && i < r.used + |data|
    ensures |Written(r, data).buffer| == |r.buffer|
    ensures Written(r, data).buffer[Around(|r.buffer|, r.readPos, i)]
            == if i < r.used then Contents(r)[i] else data[i - r.used]
  {
    var at := Around(|r.buffer|, r.readPos, i);
    var first := FirstChunk(|r.buffer|, r.writePos, |data|);
    var one := Splice(r.buffer, r.writePos, data[..first]);
    assert r.writePos <= at < r.writePos + first ==> one[at] == data[at - r.writePos];
    assert !(r.writePos <= at < r.writePos + first) ==> one[at] == r.buffer[at];
  }

  /** A write appends, wherever its two pieces land. */
  lemma WriteAppends(r: Ring, data: seq<byte>)
    requires Valid(r) && r.used + |data| <= |r.buffer|
    ensures Valid(Written(r, data)) && |Written(r, data).buffer| == |r.buffer|
    ensures Contents(Written(r, data)) == Contents(r) + data
  {
    ModIsAround(|r.buffer|, r.writePos, |data|);
    var all := Contents(Written(r, data));
    forall i | 0 <= i < |all| ensures all[i] == (Contents(r) + data)[i] {
      WrittenAt(r, data, i);
    }
    assert all == Contents(r) + data;
  }

  lemma OutputIsOldest(r: Ring, n: nat)
    requires Valid(r) && n <= r.used
    ensures Output(r, n) == Contents(r)[..n]
  {
    forall i | 0 <= i < n ensures Output(r, n)[i] == Contents(r)[i] {
    }
    assert Output(r, n) == Contents(r)[..n];
  }

  /** A read delivers the oldest `n` bytes and leaves the rest. */
  lemma ReadTakesOldest(r: Ring, n: nat)
    requires Valid(r) && n <= r.used
    ensures Valid(Consumed(r, n))
    ensures Output(r, n) == Contents(r)[..n]
    ensures Contents(Consumed(r, n)) == Contents(r)[n..]
  {
    ModIsAround(|r.buffer|, r.readPos, n);
    OutputIsOldest(r, n);
    assert Contents(Consumed(r, n)) == Contents(r)[n..];
  }

  /** Two copies, one behind the other, fill the caller's buffer. */
  lemma TwoPieces(data: seq<byte>, a: seq<byte>, b: seq<byte>)
    requires |data| == |a| + |b|
    ensures Splice(Splice(data, 0, a), |a|, b) == a + b
    ensures b == [] ==> Splice(data, 0, a) == a + b
  {
  }

  /** `memcpy` into an array. */
  method Copy(dst: array<byte>, at: nat, src: seq<byte>)
    requires at + |src| <= dst.Length
    modifies dst
    ensures dst[..] == Splice(old(dst[..]), at, src)
  {
    var i := 0;
    while i < |src|
      invariant i <= |src|
      invariant forall k | 0 <= k < dst.Length ::
                  dst[k] == if at <= k < at + i then src[k - at] else old(dst[k])
    {
      dst[at + i] := src[i];
      i := i + 1;
    }
  }

  class AudioRingBuffer {
    const buffer: array<byte>
    var readPos: nat
    var writePos: nat
    var used: nat
    var active: bool

    ghost function View(): Ring
      reads this, buffer
    {
      Ring(buffer[..], readPos, writePos, used)
    }

    constructor (size: nat)
      requires 0 < size
      ensures fresh(buffer) && buffer.Length == size && active
      ensures Valid(View()) && Contents(View()) == []
    {
      buffer := new byte[size](_ => 0);
      readPos, writePos, used, active := 0, 0, 0, true;
    }

    /** The locked part of a write, once its wait loop has let it through. */
    method Write(data: seq<byte>) returns (ok: bool)
      requires Valid(View())
      requires active ==> used + |data| <= buffer.Length
      modifies this`writePos, this`used, buffer
      ensures Valid(View()) && ok == active
      ensures View() == if active then Written(old(View()), data) else old(View())
      ensures Contents(View()) == if active then old(Contents(View())) + data else old(Contents(View()))
    {
      if !active {
        return false;
      }
      WriteAppends(View(), data);
      var first := buffer.Length - writePos;
      if first > |data| {
        first := |data|;
      }
      Copy(buffer, writePos, data[..first]);
      if first < |data| {
        Copy(buffer, 0, data[first..]);
      }
      writePos := (writePos + |data|) % buffer.Length;
      used := used + |data|;
      return true;
    }

    /** The locked part of a read, once its wait loop has let it through. */
    method Read(data: array<byte>) returns (ok: bool)
      requires Valid(View()) && data != buffer
      requires active ==> data.Length <= used
      modifies this`readPos, this`used, data
      ensures Valid(View()) && ok == active
      ensures !active ==> View() == old(View()) && data[..] == old(data[..])
      ensures active ==> View() == Consumed(old(View()), data.Length)
      ensures active ==> data[..] == old(Contents(View()))[..data.Length]
                         && Contents(View()) == old(Contents(View()))[data.Length..]
    {
      if !active {
        return false;
      }
      ReadTakesOldest(View(), data.Length);
      CopyOut(data);
      readPos := (readPos + data.Length) % buffer.Length;
      used := used - data.Length;
      return true;
    }

    /** The two copies of a read. */
    method CopyOut(data: array<byte>)
      requires Valid(View()) && data != buffer && data.Length <= used
      modifies data
      ensures data[..] == Output(View(), data.Length)
    {
      var first := buffer.Length - readPos;
      if first > data.Length {
        first := data.Length;
      }
      TwoPieces(data[..], buffer[readPos..readPos + first], buffer[..data.Length - first]);
      Copy(data, 0, buffer[readPos..readPos + first]);
      if first < data.Length {
        Copy(data, first, buffer[..data.Length - first]);
      }
    }

    /** The locked part of the cleanup: calls that are let through from here on return 0. */
    method Deactivate()
      modifies this`active
      ensures !active && View() == old(View())
    {
      active := false;
    }
  }
}
