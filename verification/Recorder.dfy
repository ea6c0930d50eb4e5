/** The capture callback and the buffer it fills, next to what it hands to the stream. */
module Recorder {
  import opened Sequences
  import RingBuffer

  /** What the buffer holds after `blocks`: each block that still fits, whole, in order. */
  function Kept(blocks: seq<seq<byte>>, room: nat): (s: seq<byte>)
    ensures |s| <= room
  {
    if blocks == [] then []
    else if |blocks[0]| <= room then blocks[0] + Kept(blocks[1..], room - |blocks[0]|)
    else Kept(blocks[1..], room)
  }

  lemma {:induction false} KeptSnoc(blocks: seq<seq<byte>>, block: seq<byte>, room: nat)
    ensures Kept(blocks + [block], room)
            == Kept(blocks, room) + if |Kept(blocks, room)| + |block| <= room then block else []
    decreases |blocks|
  {
    assert [block][1..] == [];
    if blocks != [] {
      assert (blocks + [block])[1..] == blocks[1..] + [block];
      var left := if |blocks[0]| <= room then room - |blocks[0]| else room;
      KeptSnoc(blocks[1..], block, left);
    } else {
      assert blocks + [block] == [block];
    }
  }

  /** How many blocks the longest prefix that fits has. */
  function Fitting(blocks: seq<seq<byte>>, room: nat): (n: nat)
    ensures n <= |blocks|
  {
    if blocks == [] || |blocks[0]| > room then 0 else 1 + Fitting(blocks[1..], room - |blocks[0]|)
  }

  predicate NothingFits(blocks: seq<seq<byte>>, room: nat) {
    forall i | 0 <= i < |blocks| :: blocks[i] == [] || |blocks[i]| > room
  }

  lemma {:induction false} KeptAfterRefusal(blocks: seq<seq<byte>>, room: nat)
    ensures Kept(blocks, room) == [] <==> NothingFits(blocks, room)
    decreases |blocks|
  {
    if blocks != [] {
      KeptAfterRefusal(blocks[1..], room);
      assert forall i | 0 < i < |blocks| :: blocks[i] == blocks[1..][i - 1];
      assert forall i | 0 <= i < |blocks[1..]| :: blocks[1..][i] == blocks[i + 1];
    }
  }

  lemma FrontJoins(blocks: seq<seq<byte>>, n: nat)
    requires n < |blocks|
    ensures Flatten(blocks[..n + 1]) == blocks[0] + Flatten(blocks[1..][..n])
    ensures blocks[n + 1..] == blocks[1..][n..]
  {
    FlattenCons(blocks[0], blocks[1..][..n]);
    assert [blocks[0]] + blocks[1..][..n] == blocks[..n + 1];
  }

  predicate SplitsAt(blocks: seq<seq<byte>>, room: nat, n: nat, prefix: seq<byte>) {
    && n <= |blocks| && |prefix| <= room
    && (n < |blocks| ==> |prefix| + |blocks[n]| > room)
    && Kept(blocks, room) == prefix + Kept(blocks[n..], room - |prefix|)
  }

  lemma SplitsStep(blocks: seq<seq<byte>>, room: nat, n: nat, prefix: seq<byte>)
    requires blocks != [] && |blocks[0]| <= room
    requires SplitsAt(blocks[1..], room - |blocks[0]|, n, prefix)
    requires blocks[n + 1..] == blocks[1..][n..]
    ensures SplitsAt(blocks, room, n + 1, blocks[0] + prefix)
  {
    Regroup(blocks[0], prefix, Kept(blocks[n + 1..], room - |blocks[0] + prefix|));
  }

  lemma {:induction false} KeptSplits(blocks: seq<seq<byte>>, room: nat)
    ensures SplitsAt(blocks, room, Fitting(blocks, room), Flatten(blocks[..Fitting(blocks, room)]))
    decreases |blocks|
  {
    var n := Fitting(blocks, room);
    if n == 0 {
      assert blocks[0..] == blocks;
    } else {
      FrontJoins(blocks, n - 1);
      KeptSplits(blocks[1..], room - |blocks[0]|);
      SplitsStep(blocks, room, n - 1, Flatten(blocks[1..][..n - 1]));
    }
  }

  /** The buffer holds the longest whole-block prefix that fits if and only if no block after it
      is small enough for the room it leaves. */
  lemma PrefixExactly(blocks: seq<seq<byte>>, room: nat)
    ensures var n := Fitting(blocks, room); var prefix := Flatten(blocks[..n]);
            && SplitsAt(blocks, room, n, prefix)
            && (Kept(blocks, room) == prefix <==> NothingFits(blocks[n..], room - |prefix|))
  {
    KeptSplits(blocks, room);
    RefusesExactly(blocks, room, Fitting(blocks, room), Flatten(blocks[..Fitting(blocks, room)]));
  }

  lemma RefusesExactly(blocks: seq<seq<byte>>, room: nat, n: nat, prefix: seq<byte>)
    requires SplitsAt(blocks, room, n, prefix)
    ensures Kept(blocks, room) == prefix <==> NothingFits(blocks[n..], room - |prefix|)
  {
    var tail := Kept(blocks[n..], room - |prefix|);
    KeptAfterRefusal(blocks[n..], room - |prefix|);
    assert |prefix + tail| == |prefix| + |tail|;
    if tail == [] { assert prefix + tail == prefix; }
  }

  predicate SameSize(blocks: seq<seq<byte>>, size: nat) {
    forall i | 0 <= i < |blocks| :: |blocks[i]| == size
  }

  /** The device delivers blocks of one size, so it always does. */
  lemma SameSizeIsPrefix(blocks: seq<seq<byte>>, size: nat, room: nat)
    requires SameSize(blocks, size)
    ensures Kept(blocks, room) == Flatten(blocks[..Fitting(blocks, room)])
  {
    PrefixExactly(blocks, room);
    var n := Fitting(blocks, room);
    assert forall i | 0 <= i < |blocks[n..]| :: |blocks[n..][i]| == size;
  }

  datatype Recording = Recorded(data: seq<byte>) | NotRecorded

  /** `captured` and `streamed` log the blocks of the latest recording: all that arrived while
      it was active, and those of them passed to the streaming callback. */
  class Recorder {
    const buffer: array<byte>
    var used: nat
    var active: bool
    var hasCallback: bool
    var captured: seq<seq<byte>>
    var streamed: seq<seq<byte>>

    ghost predicate Valid()
      reads this, buffer
    {
      && used <= buffer.Length && buffer[..used] == Kept(captured, buffer.Length)
      && |streamed| <= |captured| && streamed == captured[|captured| - |streamed|..]
      && (hasCallback ==> active)
      && (active && !hasCallback ==> streamed == [])
    }

    constructor (maxRecordingSize: nat)
      ensures Valid() && fresh(buffer) && buffer.Length == maxRecordingSize && !active && captured == []
    {
      buffer := new byte[maxRecordingSize](_ => 0);
      used, active, hasCallback, captured, streamed := 0, false, false, [], [];
    }

    /** The first half of starting; the device already delivers blocks. */
    method Activate() returns (ok: bool)
      requires Valid()
      modifies this
      ensures Valid() && ok == !old(active) && active
      ensures ok ==> captured == [] && streamed == [] && !hasCallback
      ensures !ok ==> captured == old(captured) && streamed == old(streamed) && hasCallback == old(hasCallback)
    {
      if active {
        return false;
      }
      used, active, captured, streamed := 0, true, [], [];
      return true;
    }

    /** The second half. */
    method SetCallback(callback: bool)
      requires Valid() && active && !hasCallback
      modifies this`hasCallback
      ensures Valid() && hasCallback == callback
    {
      hasCallback := callback;
    }

    /** The device hands over a block. */
    method Capture(block: seq<byte>)
      requires Valid()
      modifies this`used, this`captured, this`streamed, buffer
      ensures Valid()
      ensures captured == if active then old(captured) + [block] else old(captured)
      ensures streamed == if hasCallback then old(streamed) + [block] else old(streamed)
    {
      if active {
        if hasCallback {
          streamed := streamed + [block];
        }
        KeptSnoc(captured, block, buffer.Length);
        captured := captured + [block];
        if used + |block| <= buffer.Length {
          RingBuffer.Copy(buffer, used, block);
          used := used + |block|;
        }
      }
    }

    method Stop() returns (ok: bool)
      requires Valid()
      modifies this`active, this`hasCallback
      ensures Valid() && ok == old(active) && !active
    {
      ok := active;
      active, hasCallback := false, false;
    }

    /** With blocks of one size, the recording is the longest prefix of whole captured blocks
        that fits. */
    method GetRecorded() returns (r: Recording)
      requires Valid()
      ensures r.Recorded? <==> !active && Kept(captured, buffer.Length) != []
      ensures r.Recorded? ==> r.data == Kept(captured, buffer.Length)
      ensures r.Recorded? ==> forall size | SameSize(captured, size) ::
                r.data == Flatten(captured[..Fitting(captured, buffer.Length)])
    {
      if active || used == 0 {
        return NotRecorded;
      }
      forall size | SameSize(captured, size)
        ensures Kept(captured, buffer.Length) == Flatten(captured[..Fitting(captured, buffer.Length)])
      {
        SameSizeIsPrefix(captured, size, buffer.Length);
      }
      return Recorded(buffer[..used]);
    }
  }
}
