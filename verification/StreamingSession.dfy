/** The client's streaming session: one socket, one chunk per call, and what reaches the wire
    when sends fail. */
module StreamingSession {
  import opened Sequences
  import opened ChunkedCoding

  /** One `http_stream_audio_chunk` call: its data and how many of its three sends went through.
      A send either puts all its bytes on the wire or fails with none. */
  datatype Attempt = Attempt(data: seq<byte>, sends: nat)

  predicate WellFormed(attempts: seq<Attempt>) {
    forall a | a in attempts :: a.data != [] && a.sends <= 3
  }

  function Residue(a: Attempt): seq<byte> {
    if a.sends == 0 then []
    else if a.sends == 1 then Header(a.data)
    else if a.sends == 2 then Header(a.data) + a.data
    else Chunk(a.data)
  }

  lemma ResidueExactly(data: seq<byte>, sends: nat)
    requires sends <= 3
    ensures Residue(Attempt(data, sends))
            == if sends == 0 then []
               else if sends == 1 then Hex(|data|) + [13, 10]
               else if sends == 2 then Hex(|data|) + [13, 10] + data
               else Hex(|data|) + [13, 10] + data + [13, 10]
  {
  }

  function Wire(attempts: seq<Attempt>): seq<byte> {
    if attempts == [] then [] else Wire(attempts[..|attempts| - 1]) + Residue(attempts[|attempts| - 1])
  }

  lemma WireSnoc(attempts: seq<Attempt>, a: Attempt)
    ensures Wire(attempts + [a]) == Wire(attempts) + Residue(a)
  {
    assert (attempts + [a])[..|attempts|] == attempts;
  }

  lemma Sent(before: seq<byte>, data: seq<byte>)
    ensures before + Residue(Attempt(data, 0)) == before
    ensures before + Residue(Attempt(data, 2)) == before + Header(data) + data
    ensures before + Residue(Attempt(data, 3)) == before + Header(data) + data + CRLF
  {
  }

  /** The chunks whose calls returned true. */
  function Accepted(attempts: seq<Attempt>): seq<seq<byte>> {
    if attempts == [] then []
    else
      var a := attempts[|attempts| - 1];
      Accepted(attempts[..|attempts| - 1]) + (if a.sends >= 3 then [a.data] else [])
  }

  lemma {:induction false} ChunksSnoc(parts: seq<seq<byte>>, data: seq<byte>)
    ensures Chunks(parts + [data]) == Chunks(parts) + Chunk(data)
  {
    if parts == [] {
      assert Chunks([data]) == Chunk(data) + Chunks([]);
      assert parts + [data] == [data];
    } else {
      assert (parts + [data])[1..] == parts[1..] + [data];
      ChunksSnoc(parts[1..], data);
    }
  }

  predicate AllOrNothing(attempts: seq<Attempt>) {
    forall a | a in attempts :: a.sends == 0 || a.sends >= 3
  }

  /** Bytes on the wire beyond the complete chunks. */
  lemma {:induction false} WireLength(attempts: seq<Attempt>)
    ensures |Wire(attempts)| >= |Chunks(Accepted(attempts))|
    ensures |Wire(attempts)| == |Chunks(Accepted(attempts))| ==> AllOrNothing(attempts)
    ensures AllOrNothing(attempts) ==> Wire(attempts) == Chunks(Accepted(attempts))
  {
    if attempts != [] {
      var front := attempts[..|attempts| - 1];
      var a := attempts[|attempts| - 1];
      assert attempts == front + [a];
      WireLength(front);
      assert AllOrNothing(attempts) <==> AllOrNothing(front) && (a.sends == 0 || a.sends >= 3);
      if a.sends >= 3 {
        ChunksSnoc(Accepted(front), a.data);
      } else {
        assert Accepted(attempts) == Accepted(front);
      }
    }
  }

  /** The wire holds exactly the accepted chunks if and only if every call that failed did so
      at its first send. */
  lemma InSyncExactly(attempts: seq<Attempt>)
    ensures Wire(attempts) == Chunks(Accepted(attempts)) <==> AllOrNothing(attempts)
  {
    WireLength(attempts);
  }

  lemma {:induction false} AcceptedNonEmpty(attempts: seq<Attempt>)
    requires WellFormed(attempts)
    ensures NonEmpty(Accepted(attempts))
  {
    if attempts != [] {
      var front := attempts[..|attempts| - 1];
      assert attempts[|attempts| - 1] in attempts;
      assert forall a | a in front :: a in attempts;
      AcceptedNonEmpty(front);
    }
  }

  /** A session whose failures all come at a first send delivers its accepted chunks. */
  lemma SessionDelivers(attempts: seq<Attempt>, rest: seq<byte>)
    requires WellFormed(attempts) && AllOrNothing(attempts)
    ensures Decode(Wire(attempts) + TERMINATOR + rest) == Done(Flatten(Accepted(attempts)), rest)
    ensures forall k | 0 <= k <= |Wire(attempts)| :: Decode(Wire(attempts)[..k]) == More
  {
    InSyncExactly(attempts);
    AcceptedNonEmpty(attempts);
    RoundTrip(Accepted(attempts), rest);
    forall k | 0 <= k <= |Wire(attempts)| ensures Decode(Wire(attempts)[..k]) == More {
      UnfinishedIsIncomplete(Accepted(attempts), k);
    }
  }

  // ---- When a call fails later ---------------------------------------------------------

  lemma DecodeOne(data: seq<byte>)
    requires data != []
    ensures Decode(Chunk(data) + TERMINATOR) == Done(data, [])
  {
    DecodeChunk(data, TERMINATOR);
    DecodeTerminator([]);
    assert TERMINATOR + [] == TERMINATOR && data + [] == data;
  }

  lemma {:induction false} WireConcat(before: seq<Attempt>, after: seq<Attempt>)
    ensures Wire(before + after) == Wire(before) + Wire(after)
  {
    if after == [] {
      assert before + after == before;
    } else {
      var front, last := after[..|after| - 1], after[|after| - 1];
      assert before + after == (before + front) + [last] && after == front + [last];
      WireConcat(before, front);
      WireSnoc(before + front, last);
      Regroup(Wire(before), Wire(front), Residue(last));
    }
  }

  lemma WireOfOne(a: Attempt)
    ensures Wire([a]) == Residue(a)
  {
    WireSnoc([], a);
    assert [] + [a] == [a];
  }

  /** What a call that stops after its first send and one that succeeds leave behind. */
  lemma WireOfTwo(a: Attempt, b: Attempt)
    requires a.sends == 1 && b.sends == 3
    ensures Wire([a, b]) == Header(a.data) + Chunk(b.data)
    ensures Accepted([a, b]) == [b.data]
  {
    WireConcat([a], [b]);
    WireOfOne(a);
    WireOfOne(b);
    assert [a] + [b] == [a, b];
    assert [a, b][..1] == [a] && [a][..0] == [];
    assert Accepted([a]) == [];
  }

  /** A call that fails after its first send leaves the session open. If the next chunk with its
      size line is as long as the missing data, it is read as that data: the server sees a complete
      body nobody sent. */
  lemma FailedSendMisleadsServer(a: seq<byte>, b: seq<byte>)
    requires b != [] && |a| == |Header(b)| + |b|
    ensures var attempts := [Attempt(a, 1), Attempt(b, 3)];
            && WellFormed(attempts) && Accepted(attempts) == [b]
            && Decode(Wire(attempts) + TERMINATOR) == Done(Header(b) + b, [])
  {
    WireOfTwo(Attempt(a, 1), Attempt(b, 3));
    var body := Header(b) + b;
    assert Header(a) + Chunk(b) == Chunk(body);
    DecodeOne(body);
  }

  /** After complete chunks, data without its CRLF: the body is broken whatever comes next. */
  lemma MissingCrlfIsBad(parts: seq<seq<byte>>, a: seq<byte>, more: seq<byte>)
    requires NonEmpty(parts) && a != [] && |more| >= 2 && more[0] != 13
    ensures Decode(Chunks(parts) + (Header(a) + a + more)) == Bad
  {
    BrokenChunk(a, more);
    DecodeChunks(parts, Header(a) + a + more);
  }

  lemma BrokenChunk(a: seq<byte>, more: seq<byte>)
    requires a != [] && |more| >= 2 && more[0] != 13
    ensures Decode(Header(a) + a + more) == Bad
  {
    assert Header(a) + a + more == Hex(|a|) + CRLF + (a + more);
    SizeLine(|a|, a + more);
    assert (a + more)[|a|..|a| + 2][0] == more[0];
    assert SplitData(a + more, |a|) == BadData;
  }

  lemma {:induction false} WireStartsWithHex(attempts: seq<Attempt>)
    ensures Wire(attempts) == [] || IsHex(Wire(attempts)[0])
  {
    if attempts != [] {
      var a := attempts[|attempts| - 1];
      WireStartsWithHex(attempts[..|attempts| - 1]);
      HexIsHex(|a.data|);
      assert Residue(a) != [] ==> Residue(a)[0] == Hex(|a.data|)[0] && Hex(|a.data|)[0] in Hex(|a.data|);
    }
  }

  /** So a failure after the second send, the first that is not at a first send, breaks the body for
      good, whatever is attempted afterwards. */
  lemma SecondSendFailureIsFatal(before: seq<Attempt>, a: Attempt, later: seq<Attempt>)
    requires WellFormed(before) && AllOrNothing(before) && a.data != [] && a.sends == 2
    ensures Decode(Wire(before + [a] + later) + TERMINATOR) == Bad
  {
    InSyncExactly(before);
    AcceptedNonEmpty(before);
    WireConcat(before + [a], later);
    WireSnoc(before, a);
    WireStartsWithHex(later);
    var more := Wire(later) + TERMINATOR;
    assert more[0] == if Wire(later) == [] then 48 else Wire(later)[0];
    MissingCrlfIsBad(Accepted(before), a.data, more);
    Reassociate(Wire(before), Header(a.data) + a.data, Wire(later), TERMINATOR);
  }

  lemma Reassociate(a: seq<byte>, b: seq<byte>, c: seq<byte>, d: seq<byte>)
    ensures a + b + c + d == a + (b + (c + d))
  {
  }

  /** A failure after a first send cannot be told so simply. Two of them can cancel out: the size
      lines are read as data and the data as size lines, and the accepted chunk comes out whole. */
  lemma FailuresCanCancelOut(five: seq<byte>)
    requires |five| == 5
    ensures var accepted := [54, 13, 10, 48, 59, 54];
            var attempts := [Attempt(five, 1), Attempt([48, 59, 13, 10, 49, 59], 2), Attempt(accepted, 3)];
            && WellFormed(attempts) && Accepted(attempts) == [accepted]
            && Decode(Wire(attempts) + TERMINATOR) == Done(accepted, [])
  {
    var accepted := [54, 13, 10, 48, 59, 54];
    var a, b, c := Attempt(five, 1), Attempt([48, 59, 13, 10, 49, 59], 2), Attempt(accepted, 3);
    WireOfThree(a, b, c);
    var front, back := [54, 13, 10, 48, 59], [49, 59, 54, 13, 10, 54, 13, 10, 48, 59, 54, 13, 10];
    CancelledWire(a.data, b.data, c.data);
    Regroup(Chunk(front), back, TERMINATOR);
    DecodeChunk(front, back + TERMINATOR);
    DecodeBack();
    assert front + [54] == accepted;
  }

  lemma WireOfThree(a: Attempt, b: Attempt, c: Attempt)
    requires a.sends == 1 && b.sends == 2 && c.sends == 3
    ensures Wire([a, b, c]) == Header(a.data) + (Header(b.data) + b.data) + Chunk(c.data)
    ensures Accepted([a, b, c]) == [c.data]
  {
    assert [] + [a] == [a] && [a] + [b] == [a, b] && [a, b] + [c] == [a, b, c];
    WireOfOne(a);
    WireSnoc([a], b);
    WireSnoc([a, b], c);
    AcceptedLast([], a);
    AcceptedLast([a], b);
    AcceptedLast([a, b], c);
  }

  lemma CancelledWire(a: seq<byte>, b: seq<byte>, c: seq<byte>)
    requires |a| == 5 && b == [48, 59, 13, 10, 49, 59] && c == [54, 13, 10, 48, 59, 54]
    ensures Header(a) + (Header(b) + b) + Chunk(c)
            == Chunk([54, 13, 10, 48, 59]) + [49, 59, 54, 13, 10, 54, 13, 10, 48, 59, 54, 13, 10]
  {
    assert Hex(5) == [53] && Hex(6) == [54];
  }

  lemma AcceptedLast(before: seq<Attempt>, a: Attempt)
    ensures Accepted(before + [a]) == Accepted(before) + (if a.sends >= 3 then [a.data] else [])
  {
    assert (before + [a])[..|before|] == before;
  }

  lemma DecodeBack()
    ensures Decode([49, 59, 54, 13, 10, 54, 13, 10, 48, 59, 54, 13, 10] + TERMINATOR) == Done([54], [])
  {
    var last := [48, 59, 54] + CRLF + TERMINATOR;
    var after := [54] + CRLF + last;
    assert [49, 59, 54, 13, 10, 54, 13, 10, 48, 59, 54, 13, 10] + TERMINATOR == [49, 59, 54] + CRLF + after;
    LineOf([49, 59, 54], after);
    LineOf([48, 59, 54], TERMINATOR);
    assert TERMINATOR == [48] + CRLF + ([] + CRLF + []);
    LineOf([48], [] + CRLF + []);
    LineOf([], []);
    assert HexRun([49, 59, 54]) == 1 && HexRun([48, 59, 54]) == 1;
    assert HexValue([49]) == 1 && HexValue([48]) == 0;
    assert [49, 59, 54][..1] == [49] && [48, 59, 54][..1] == [48];
    assert after[1..3] == CRLF && after[..1] == [54] && after[3..] == last;
    assert Decode(last) == Done([], []);
    assert [54] + [] == [54];
  }

  /** How far connection set-up gets. */
  datatype Connect = NoSocket | NoHost | Refused | HeaderNotSent | Connected

  /** `wire` is what followed the request header on the current connection. */
  class Session {
    var initialized: bool
    var hasSocket: bool
    var active: bool
    var wire: seq<byte>
    var attempts: seq<Attempt>

    /** An open session's wire is told by the calls made on it. */
    ghost predicate Consistent()
      reads this
    {
      active && hasSocket ==> WellFormed(attempts) && wire == Wire(attempts)
    }

    constructor ()
      ensures Consistent() && !active && !hasSocket && !initialized
    {
      initialized, hasSocket, active, wire, attempts := false, false, false, [], [];
    }

    method Initialize()
      modifies this`initialized
      ensures initialized
    {
      initialized := true;
    }

    method Start(token: bool, outcome: Connect) returns (ok: bool)
      requires Consistent()
      modifies this`hasSocket, this`active, this`wire, this`attempts
      ensures Consistent()
      ensures ok <==> initialized && token && outcome.Connected?
      ensures ok ==> active && hasSocket && wire == [] && attempts == []
      ensures !ok && initialized && token ==> !hasSocket && active == old(active) && wire == old(wire)
      ensures !(initialized && token) ==> hasSocket == old(hasSocket) && active == old(active)
                                          && wire == old(wire) && attempts == old(attempts)
    {
      if !initialized || !token {
        return false;
      }
      if !outcome.Connected? {
        hasSocket := false;
        return false;
      }
      hasSocket, active, wire, attempts := true, true, [], [];
      return true;
    }

    /** `sends` is how many of the three sends would go through. */
    method StreamChunk(data: seq<byte>, sends: nat) returns (ok: bool)
      requires Consistent() && sends <= 3
      modifies this`wire, this`attempts
      ensures Consistent()
      ensures ok <==> active && hasSocket && data != [] && sends == 3
      ensures if active && hasSocket && data != []
              then attempts == old(attempts) + [Attempt(data, sends)]
                   && wire == old(wire) + Residue(Attempt(data, sends))
              else wire == old(wire) && attempts == old(attempts)
    {
      if !active || !hasSocket || data == [] {
        return false;
      }
      WireSnoc(attempts, Attempt(data, sends));
      Sent(wire, data);
      attempts := attempts + [Attempt(data, sends)];
      if sends < 1 {
        return false;
      }
      wire := wire + Header(data);
      if sends < 2 {
        return false;
      }
      wire := wire + data;
      if sends < 3 {
        return false;
      }
      wire := wire + CRLF;
      return true;
    }

    /** Returns true for every open session, even when the end marker could not be sent; the
        server can decode the chunks if it was. */
    method Finish(sent: bool) returns (ok: bool)
      requires Consistent()
      modifies this`wire, this`active, this`hasSocket
      ensures Consistent() && ok == (old(active) && old(hasSocket))
      ensures ok ==> !active && !hasSocket
      ensures !ok ==> active == old(active) && hasSocket == old(hasSocket) && wire == old(wire)
      ensures ok ==> wire == old(wire) + (if sent then [48, 13, 10, 13, 10] else [])
      ensures ok && AllOrNothing(attempts) ==>
                Decode(wire) == if sent then Done(Flatten(Accepted(attempts)), []) else More
    {
      if !active || !hasSocket {
        return false;
      }
      if AllOrNothing(attempts) {
        SessionDelivers(attempts, []);
        assert wire[..|wire|] == wire;
        assert wire + TERMINATOR + [] == wire + TERMINATOR;
      }
      if sent {
        wire := wire + TERMINATOR;
      } else {
        assert wire + [] == wire;
      }
      hasSocket, active := false, false;
      return true;
    }
  }
}
