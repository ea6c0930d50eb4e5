/** The two goroutines of an upload over their shared channel: each method is one stretch of a
    goroutine's loop, and its contract ties the new fields to the step it performs. */
module AudioUpload {
  import opened Sequences
  import opened UploadPipeline

  class Upload {
    const body: seq<byte>
    var kept: nat
    var reader: Reader
    var chan: seq<seq<byte>>
    var sender: Sender
    var sent: seq<seq<byte>>
    var done: bool

    ghost function View(): State
      reads this
    {
      State(body, kept, reader, chan, sender, sent, done)
    }

    constructor (body: seq<byte>)
      ensures View() == Init(body) && Inv(View())
    {
      this.body := body;
      kept, reader, chan, sender, sent, done := 0, Reading, [], Receiving, [], false;
    }

    /** The end of a round of the reading loop: the duration check. */
    method EndRound(overdue: bool)
      modifies this`reader
      ensures reader == NextRound(overdue)
    {
      if overdue {
        reader := Stopped(TooLong);
      } else {
        reader := Reading;
      }
    }

    /** `Body.Read` into a fresh 4096-byte slice, and what the loop does with its result. */
    method ReadBody(n: nat, status: ReadStatus, overdue: bool)
      requires Inv(View()) && Enabled(View(), Read(n, status, overdue))
      modifies this`reader, this`kept
      ensures View() == Apply(old(View()), Read(n, status, overdue)) && Inv(View())
      ensures n <= 4096 && old(kept) + n <= |body|
      ensures if status == NoError && 0 < n then
                reader == Offering(body[old(kept)..old(kept) + n]) && kept == old(kept) + n
              else
                && kept == old(kept)
                && reader == match status
                             case Eof => Stopped(AtEof(n))
                             case Broken => Stopped(AtError(n))
                             case NoError => if overdue then Stopped(TooLong) else Reading
    {
      ReadKeeps(View(), n, status, overdue);
      var chunk := body[kept..kept + n];
      if status.Eof? {
        reader := Stopped(AtEof(n));
        return;
      }
      if status.Broken? {
        reader := Stopped(AtError(n));
        return;
      }
      if n > 0 {
        reader, kept := Offering(chunk), kept + n;
      } else {
        EndRound(overdue);
      }
    }

    /** The select that offers a chunk: `gives` when the done context wins over free room. */
    method OfferChunk(gives: bool, overdue: bool)
      requires Inv(View()) && Enabled(View(), if gives then GiveUp else Offer(overdue))
      modifies this`reader, this`chan
      ensures View() == Apply(old(View()), if gives then GiveUp else Offer(overdue)) && Inv(View())
      ensures old(reader).Offering?
      ensures if gives then reader == Stopped(Abandoned(old(reader).chunk)) && chan == old(chan)
              else
                && old(|chan|) < 100 && chan == old(chan) + [old(reader).chunk]
                && reader == if overdue then Stopped(TooLong) else Reading
    {
      StepKeeps(View(), if gives then GiveUp else Offer(overdue));
      if gives {
        reader := Stopped(Abandoned(reader.chunk));
      } else {
        chan := chan + [reader.chunk];
        EndRound(overdue);
      }
    }

    /** A receive of the sending goroutine; `ok` is false once the channel is closed and empty. */
    method ReceiveChunk() returns (ok: bool)
      requires Inv(View()) && sender.Receiving? && (chan != [] || reader.Stopped?)
      modifies this`sender, this`chan
      ensures ok == (old(chan) != []) && Inv(View())
      ensures View() == Apply(old(View()), if ok then Take else EndOfStream)
      ensures if ok then old(chan) == [old(chan)[0]] + chan
                         && sender == if old(chan)[0] == [] then Receiving else Holding(old(chan)[0])
              else sender == Finished && chan == []
    {
      StepKeeps(View(), if chan != [] then Take else EndOfStream);
      if chan == [] {
        sender := Finished;
        return false;
      }
      var chunk := chan[0];
      chan := chan[1..];
      if chunk != [] {
        sender := Holding(chunk);
      }
      return true;
    }

    method SendChunk(ok: bool)
      requires Inv(View()) && Enabled(View(), Send(ok))
      modifies this`sender, this`sent
      ensures View() == Apply(old(View()), Send(ok)) && Inv(View())
      ensures old(sender).Holding?
      ensures if ok then sent == old(sent) + [old(sender).chunk] && sender == Receiving
              else sent == old(sent) && sender == Failed(old(sender).chunk)
    {
      SendKeeps(View(), ok);
      if ok {
        sent, sender := sent + [sender.chunk], Receiving;
      } else {
        sender := Failed(sender.chunk);
      }
    }

    /** The select's done case, taken while the sending goroutine waits for a chunk. */
    method LeaveOnDone()
      requires Inv(View()) && Enabled(View(), Leave)
      modifies this`sender
      ensures View() == Apply(old(View()), Leave) && Inv(View())
      ensures done && sender == Failed([])
    {
      StepKeeps(View(), Leave);
      sender := Failed([]);
    }

    /** Nothing is on its way. */
    ghost predicate Between()
      reads this
    {
      Inv(View()) && reader.Reading? && sender.Receiving? && chan == []
    }

    /** The chunk just read goes onto the empty channel. */
    method HandOver()
      requires Inv(View()) && reader.Offering? && chan == []
      modifies this`reader, this`chan
      ensures Inv(View()) && reader.Reading? && |chan| == 1 && chan[0] != []
    {
      OfferChunk(false, false);
    }

    /** The one chunk on the channel goes to the recogniser. */
    method Forward()
      requires Inv(View()) && sender.Receiving? && |chan| == 1 && chan[0] != []
      modifies this`chan, this`sender, this`sent
      ensures Inv(View()) && sender.Receiving? && chan == []
    {
      var more := ReceiveChunk();
      SendChunk(true);
    }

    /** One read that goes all the way to the recogniser. */
    method PassOn(n: nat)
      requires Between() && 1 <= n <= CHUNK && kept + n <= |body|
      modifies this`reader, this`kept, this`chan, this`sender, this`sent
      ensures Between() && kept == old(kept) + n
    {
      ReadBody(n, NoError, false);
      HandOver();
      Forward();
    }

    /** The upload nothing cuts short, however the reads of sizes `sizes` cut the body: all of it
        arrives when end of file comes on its own. */
    method StreamAll(sizes: seq<nat>)
      requires View() == Init(body) && Cuts(|body|, sizes)
      modifies this
      ensures sender.Finished? && reader == Stopped(AtEof(0)) && Flatten(sent) == body
    {
      var i := 0;
      assert sizes[0..] == sizes;
      while i < |sizes|
        invariant i <= |sizes| && Between()
        invariant kept <= |body| && Cuts(|body| - kept, sizes[i..])
      {
        assert sizes[i..][1..] == sizes[i + 1..];
        PassOn(sizes[i]);
        i := i + 1;
      }
      ReadBody(0, Eof, false);
      var more := ReceiveChunk();
      AllArrived(View());
    }
  }

  lemma AllArrived(s: State)
    requires Inv(s) && s.sender.Finished? && s.reader == Stopped(AtEof(0))
    ensures Flatten(s.sent) == s.body
  {
    assert InOrder(s) == Flatten(s.sent);
  }

  /** Reads of these sizes use up a body of `length`, none empty or larger than a chunk. */
  predicate Cuts(length: nat, sizes: seq<nat>) {
    if sizes == [] then length == 0
    else 1 <= sizes[0] <= CHUNK && sizes[0] <= length && Cuts(length - sizes[0], sizes[1..])
  }
}
