/** Finding the samples in a WAV file and playing them in blocks. */
module RiffPlayback {

  import opened Sequences

  const WORD: nat := 0x1_0000_0000
  const BLOCK: nat := 512
  const HEADER: nat := 12

  const RIFF: seq<byte> := [82, 73, 70, 70]
  const DATA: seq<byte> := [100, 97, 116, 97]

  // ---- The scan loop -----------------------------------------------------------------

  /** Four bytes, least significant first. */
  function Little(b: seq<byte>): (n: nat)
    requires |b| == 4
    ensures n < WORD
  {
    (b[0] as nat) + 256 * (b[1] as nat) + 65536 * (b[2] as nat) + 16777216 * (b[3] as nat)
  }

  predicate IsRiff(file: seq<byte>) {
    |file| > HEADER && file[..4] == RIFF
  }

  /** How far the loop moves past the header at `at`; the sum is taken in 32 bits. */
  function Advance(file: seq<byte>, at: nat): nat
    requires at + 8 < |file|
  {
    (8 + Little(file[at + 4..at + 8])) % WORD
  }

  datatype Loop = In(at: nat) | Out(at: nat)

  /** One test and round of the loop. */
  function Round(file: seq<byte>, l: Loop): Loop {
    match l
    case Out(_) => l
    case In(at) =>
      if at + 8 >= |file| then Out(at)
      else if file[at..at + 4] == DATA then Out(at + 8)
      else In(at + Advance(file, at))
  }

  function Rounds(file: seq<byte>, l: Loop, n: nat): Loop
    decreases n
  {
    if n == 0 then l else Rounds(file, Round(file, l), n - 1)
  }

  datatype Scan = Ends(at: nat) | Forever

  /** Where the loop ends. */
  function ScanFrom(file: seq<byte>, at: nat): Scan
    decreases if at < |file| then |file| - at else 0
  {
    if at + 8 >= |file| then Ends(at)
    else if file[at..at + 4] == DATA then Ends(at + 8)
    else if Advance(file, at) == 0 then Forever
    else ScanFrom(file, at + Advance(file, at))
  }

  lemma {:induction false} OutStays(file: seq<byte>, at: nat, n: nat)
    ensures Rounds(file, Out(at), n) == Out(at)
  {
    if n != 0 { OutStays(file, at, n - 1); }
  }

  lemma {:induction false} StuckStays(file: seq<byte>, at: nat, n: nat)
    requires Round(file, In(at)) == In(at)
    ensures Rounds(file, In(at), n) == In(at)
  {
    if n != 0 { StuckStays(file, at, n - 1); }
  }

  lemma {:induction false} ScanIsLoop(file: seq<byte>, at: nat, n: nat)
    ensures ScanFrom(file, at) == Forever ==> Rounds(file, In(at), n).In?
    ensures ScanFrom(file, at) != Forever && Rounds(file, In(at), n).Out? ==>
              Rounds(file, In(at), n) == Out(ScanFrom(file, at).at)
    decreases n
  {
    if n != 0 {
      match Round(file, In(at)) {
        case Out(end) => OutStays(file, end, n - 1);
        case In(next) =>
          if next == at { StuckStays(file, at, n); }
          ScanIsLoop(file, next, n - 1);
      }
    }
  }

  lemma {:induction false} ScanEnds(file: seq<byte>, at: nat) returns (n: nat)
    requires ScanFrom(file, at) != Forever
    ensures Rounds(file, In(at), n) == Out(ScanFrom(file, at).at)
    decreases if at < |file| then |file| - at else 0
  {
    if at + 8 >= |file| || file[at..at + 4] == DATA {
      n := 1;
      assert Rounds(file, Round(file, In(at)), 0) == Round(file, In(at));
    } else {
      var m := ScanEnds(file, at + Advance(file, at));
      n := m + 1;
    }
  }

  /** The loop ends if and only if it reaches no header other than `data` whose size, plus
      eight, is zero in 32 bits. */
  predicate MeetsStuckHeader(file: seq<byte>, at: nat)
    decreases if at < |file| then |file| - at else 0
  {
    at + 8 < |file| && file[at..at + 4] != DATA &&
    (Little(file[at + 4..at + 8]) == 0xFFFF_FFF8
     || (Advance(file, at) != 0 && MeetsStuckHeader(file, at + Advance(file, at))))
  }

  lemma {:induction false} StuckExactly(file: seq<byte>, at: nat)
    ensures ScanFrom(file, at) == Forever <==> MeetsStuckHeader(file, at)
    decreases if at < |file| then |file| - at else 0
  {
    if at + 8 < |file| && file[at..at + 4] != DATA && Advance(file, at) != 0 {
      StuckExactly(file, at + Advance(file, at));
    }
  }

  lemma TerminatesExactly(file: seq<byte>)
    ensures (exists n :: Rounds(file, In(HEADER), n).Out?) <==> !MeetsStuckHeader(file, HEADER)
  {
    StuckExactly(file, HEADER);
    if ScanFrom(file, HEADER) != Forever {
      var n := ScanEnds(file, HEADER);
    }
    forall n | Rounds(file, In(HEADER), n).Out? ensures ScanFrom(file, HEADER) != Forever {
      ScanIsLoop(file, HEADER, n);
    }
  }

  method FindData(file: seq<byte>) returns (r: Scan)
    ensures r == Start(file)
  {
    if !(|file| > HEADER && file[0] == 82 && file[1] == 73 && file[2] == 70 && file[3] == 70) {
      assert |file| > HEADER ==> file[..4][0] == file[0] && file[..4][1] == file[1]
                                 && file[..4][2] == file[2] && file[..4][3] == file[3];
      return Ends(0);
    }
    assert file[..4] == RIFF;
    var at := HEADER;
    while at + 8 < |file|
      invariant ScanFrom(file, HEADER) == ScanFrom(file, at)
      decreases |file| - at
    {
      if file[at] == 100 && file[at + 1] == 97 && file[at + 2] == 116 && file[at + 3] == 97 {
        assert file[at..at + 4] == DATA;
        return Ends(at + 8);
      }
      assert file[at..at + 4] != DATA by { assert file[at..at + 4][0] == file[at]; }
      var size := Little(file[at + 4..at + 8]);
      var step := (8 + size) % WORD;
      if step == 0 {
        return Forever;
      }
      at := at + step;
    }
    return Ends(at);
  }

  // ---- Block-wise playback -----------------------------------------------------------

  /** The sound device takes every block, or reports an error at its `n`-th. */
  datatype Device = Accepts | RefusesAt(n: nat)

  /** The first `n` blocks are full. */
  predicate Full(blocks: seq<seq<byte>>, n: int) {
    forall i | 0 <= i < |blocks| && i < n :: |blocks[i]| == 512
  }

  predicate InBlocks(blocks: seq<seq<byte>>) {
    && Full(blocks, |blocks| - 1)
    && forall i | 0 <= i < |blocks| :: 1 <= |blocks[i]| <= 512
  }

  /** Every byte once and in order, in full blocks but for the last, up to a refused one. */
  predicate Plays(samples: seq<byte>, device: Device, ok: bool, blocks: seq<seq<byte>>) {
    && Flatten(blocks) <= samples && InBlocks(blocks)
    && (ok <==> Flatten(blocks) == samples)
    && (device.RefusesAt? ==> |blocks| <= device.n)
    && (!ok ==> device == RefusesAt(|blocks|) && Full(blocks, |blocks|))
  }

  method PlayBlocks(samples: seq<byte>, device: Device) returns (ok: bool, blocks: seq<seq<byte>>)
    ensures Plays(samples, device, ok, blocks)
  {
    blocks := [];
    var offset := 0;
    while offset < |samples|
      invariant offset <= |samples| && Flatten(blocks) == samples[..offset]
      invariant InBlocks(blocks) && (device.RefusesAt? ==> |blocks| <= device.n)
      invariant offset < |samples| ==> Full(blocks, |blocks|)
    {
      var count := BLOCK;
      if offset + BLOCK > |samples| {
        count := |samples| - offset;
      }
      if device == RefusesAt(|blocks|) {
        return false, blocks;
      }
      var block := samples[offset..offset + count];
      FlattenSnoc(blocks, block);
      assert samples[..offset] + block == samples[..offset + count];
      blocks := blocks + [block];
      offset := offset + count;
    }
    return true, blocks;
  }

  /** What becomes of a call: its scan never ends, its scan ends past the end of the data, so that
      the unsigned size left over wraps, or it plays blocks. */
  datatype Playback = Stuck | Overrun | Played(ok: bool, blocks: seq<seq<byte>>)

  /** Where playback starts, for data of any kind. */
  function Start(data: seq<byte>): Scan {
    if IsRiff(data) then ScanFrom(data, HEADER) else Ends(0)
  }

  predicate SpellsRiff(data: seq<byte>) {
    12 < |data| && data[0] == 82 && data[1] == 73 && data[2] == 70 && data[3] == 70
  }

  predicate PlaysFrom(data: seq<byte>, start: Scan, device: Device, p: Playback) {
    match start
    case Forever => p.Stuck?
    case Ends(at) => if at > |data| then p.Overrun? else p.Played? && Plays(data[at..], device, p.ok, p.blocks)
  }

  lemma StartExactly(data: seq<byte>)
    ensures Start(data) == if SpellsRiff(data) then ScanFrom(data, 12) else Ends(0)
    ensures Start(data) == Forever <==> SpellsRiff(data) && MeetsStuckHeader(data, 12)
  {
    StuckExactly(data, 12);
    if |data| > 12 {
      assert data[..4] == [data[0], data[1], data[2], data[3]];
    }
  }

  /** `play_audio_data` on arbitrary data: what is not RIFF is played whole, a RIFF file from where
      the scan ends. */
  method PlayAudio(data: seq<byte>, device: Device) returns (p: Playback)
    ensures !SpellsRiff(data) ==> p.Played? && Plays(data, device, p.ok, p.blocks)
    ensures SpellsRiff(data) ==> PlaysFrom(data, ScanFrom(data, 12), device, p)
    ensures p.Stuck? <==> SpellsRiff(data) && MeetsStuckHeader(data, 12)
  {
    StartExactly(data);
    var found := FindData(data);
    if found == Forever {
      return Stuck;
    }
    if found.at > |data| {
      return Overrun;
    }
    var samples := data[found.at..];
    assert found.at == 0 ==> samples == data;
    var ok, blocks := PlayBlocks(samples, device);
    return Played(ok, blocks);
  }

  // ---- Well-formed files -------------------------------------------------------------

  /** `size` is the chunk's size field. */
  datatype Chunk = Chunk(tag: seq<byte>, size: seq<byte>, body: seq<byte>)

  /** Any chunk but `data` whose size field tells its length, small enough for the size plus
      eight not to wrap. */
  predicate Skippable(c: Chunk) {
    |c.tag| == 4 && c.tag != DATA && |c.size| == 4 && Little(c.size) == |c.body| < WORD - 8
  }

  predicate AllSkippable(chunks: seq<Chunk>) {
    chunks == [] || (Skippable(chunks[0]) && AllSkippable(chunks[1..]))
  }

  function Bytes(c: Chunk): seq<byte> {
    c.tag + c.size + c.body
  }

  /** The chunks one after the other, without pad bytes. */
  function Pack(chunks: seq<Chunk>): seq<byte> {
    if chunks == [] then [] else Bytes(chunks[0]) + Pack(chunks[1..])
  }

  /** `size` is the data chunk's size field, which the player never looks at. */
  function FileOf(form: seq<byte>, chunks: seq<Chunk>, size: seq<byte>, rest: seq<byte>): seq<byte> {
    RIFF + form + Pack(chunks) + (DATA + size + rest)
  }

  predicate StartsData(tail: seq<byte>) {
    |tail| > 8 && tail[..4] == DATA
  }

  predicate Sits(file: seq<byte>, at: nat, piece: seq<byte>) {
    at + |piece| <= |file| && file[at..at + |piece|] == piece
  }

  lemma SitsSplit(file: seq<byte>, at: nat, a: seq<byte>, b: seq<byte>)
    requires Sits(file, at, a + b)
    ensures Sits(file, at, a) && Sits(file, at + |a|, b)
  {
    assert file[at..at + |a|] == file[at..at + |a + b|][..|a|] == a;
    assert file[at + |a|..at + |a + b|] == file[at..at + |a + b|][|a|..] == b;
  }

  /** One round of the loop over a skippable chunk. */
  lemma SkipsOne(file: seq<byte>, at: nat, c: Chunk)
    requires Skippable(c) && Sits(file, at, Bytes(c)) && at + |Bytes(c)| < |file|
    ensures ScanFrom(file, at) == ScanFrom(file, at + |Bytes(c)|)
  {
    SitsSplit(file, at, c.tag + c.size, c.body);
    SitsSplit(file, at, c.tag, c.size);
    assert Advance(file, at) == |Bytes(c)|;
  }

  lemma SkipsFirst(file: seq<byte>, at: nat, chunks: seq<Chunk>) returns (next: nat)
    requires chunks != [] && AllSkippable(chunks)
    requires Sits(file, at, Pack(chunks)) && at + |Pack(chunks)| < |file|
    ensures AllSkippable(chunks[1..]) && Sits(file, next, Pack(chunks[1..]))
    ensures next + |Pack(chunks[1..])| == at + |Pack(chunks)|
    ensures ScanFrom(file, at) == ScanFrom(file, next)
  {
    var c, others := chunks[0], Pack(chunks[1..]);
    next := at + |Bytes(c)|;
    SitsSplit(file, at, Bytes(c), others);
    SkipsOne(file, at, c);
  }

  lemma {:induction false} ScanSkips(file: seq<byte>, at: nat, chunks: seq<Chunk>)
    requires AllSkippable(chunks) && Sits(file, at, Pack(chunks)) && at + |Pack(chunks)| < |file|
    ensures ScanFrom(file, at) == ScanFrom(file, at + |Pack(chunks)|)
    decreases |chunks|
  {
    if chunks != [] {
      var next := SkipsFirst(file, at, chunks);
      ScanSkips(file, next, chunks[1..]);
    }
  }

  /** The round that finds the data header. */
  lemma FindsData(file: seq<byte>, at: nat, tail: seq<byte>)
    requires StartsData(tail) && Sits(file, at, tail)
    ensures ScanFrom(file, at) == Ends(at + 8)
  {
    assert file[at..at + 4] == file[at..at + |tail|][..4];
  }

  lemma ScanShape(file: seq<byte>, chunks: seq<Chunk>, tail: seq<byte>)
    requires AllSkippable(chunks) && StartsData(tail)
    requires Sits(file, HEADER, Pack(chunks)) && Sits(file, HEADER + |Pack(chunks)|, tail)
    ensures ScanFrom(file, HEADER) == Ends(HEADER + |Pack(chunks)| + 8)
  {
    ScanSkips(file, HEADER, chunks);
    FindsData(file, HEADER + |Pack(chunks)|, tail);
  }

  lemma Layout(form: seq<byte>, packed: seq<byte>, size: seq<byte>, rest: seq<byte>)
    requires |form| == 8 && |size| == 4 && rest != []
    ensures var tail := DATA + size + rest;
            var file := RIFF + form + packed + tail;
            && StartsData(tail) && IsRiff(file)
            && |file| == HEADER + |packed| + 8 + |rest|
            && Sits(file, HEADER, packed) && Sits(file, HEADER + |packed|, tail)
            && file[|file| - |rest|..] == rest
  {
    var tail := DATA + size + rest;
    var file := RIFF + form + packed + tail;
    assert file[..4] == RIFF && tail[..4] == DATA;
  }

  /** For every file of that shape with something after the data header, the scan ends in
      bounds, at the first byte of the payload. */
  lemma ScanFindsPayload(form: seq<byte>, chunks: seq<Chunk>, size: seq<byte>, rest: seq<byte>)
    requires |form| == 8 && AllSkippable(chunks) && |size| == 4 && rest != []
    ensures var file := FileOf(form, chunks, size, rest);
            && IsRiff(file)
            && ScanFrom(file, HEADER) == Ends(|file| - |rest|)
            && file[|file| - |rest|..] == rest
  {
    Layout(form, Pack(chunks), size, rest);
    ScanShape(FileOf(form, chunks, size, rest), chunks, DATA + size + rest);
  }

  /** A data header with nothing after it is not recognised, and is played itself. */
  lemma ScanMissesEmpty(form: seq<byte>, chunks: seq<Chunk>, size: seq<byte>)
    requires |form| == 8 && AllSkippable(chunks) && |size| == 4
    ensures var file := FileOf(form, chunks, size, []);
            && IsRiff(file)
            && ScanFrom(file, HEADER) == Ends(|file| - 8)
            && file[|file| - 8..] == DATA + size
  {
    var file := FileOf(form, chunks, size, []);
    EmptyLayout(form, Pack(chunks), size);
    ScanSkips(file, HEADER, chunks);
    assert ScanFrom(file, |file| - 8) == Ends(|file| - 8);
  }

  lemma EmptyLayout(form: seq<byte>, packed: seq<byte>, size: seq<byte>)
    requires |form| == 8 && |size| == 4
    ensures var file := RIFF + form + packed + (DATA + size + []);
            && IsRiff(file) && |file| == HEADER + |packed| + 8
            && Sits(file, HEADER, packed)
            && file[|file| - 8..] == DATA + size
  {
    var file := RIFF + form + packed + (DATA + size + []);
    assert file[..4] == RIFF;
  }

  /** Scan and playback together: the bytes after the data header are handed over, once and in
      order, up to a block the device refuses; an empty payload gives the header instead. */
  method PlayFile(form: seq<byte>, chunks: seq<Chunk>, size: seq<byte>, rest: seq<byte>, device: Device)
    returns (ok: bool, blocks: seq<seq<byte>>)
    requires |form| == 8 && AllSkippable(chunks) && |size| == 4
    ensures Plays(if rest == [] then DATA + size else rest, device, ok, blocks)
  {
    var file := FileOf(form, chunks, size, rest);
    if rest == [] {
      ScanMissesEmpty(form, chunks, size);
    } else {
      ScanFindsPayload(form, chunks, size, rest);
    }
    var p := PlayAudio(file, device);
    return p.ok, p.blocks;
  }

  /** The chunk as the format wants it, an odd body followed by a pad byte. */
  function Padded(c: Chunk): seq<byte> {
    Bytes(c) + if |c.body| % 2 == 1 then [0] else []
  }

  function PackPadded(chunks: seq<Chunk>): seq<byte> {
    if chunks == [] then [] else Padded(chunks[0]) + PackPadded(chunks[1..])
  }

  /** Pad bytes make no difference while every body before the data is even. */
  lemma {:induction false} EvenNeedsNoPad(chunks: seq<Chunk>)
    requires forall c | c in chunks :: |c.body| % 2 == 0
    ensures PackPadded(chunks) == Pack(chunks)
  {
    if chunks != [] {
      EvenNeedsNoPad(chunks[1..]);
      assert chunks[0] in chunks;
      assert Bytes(chunks[0]) + [] == Bytes(chunks[0]);
    }
  }

  /** The scan only moves forward. */
  lemma {:induction false} ScanForward(file: seq<byte>, at: nat)
    ensures ScanFrom(file, at).Ends? ==> ScanFrom(file, at).at >= at
    decreases if at < |file| then |file| - at else 0
  {
    if at + 8 < |file| && file[at..at + 4] != DATA && Advance(file, at) != 0 {
      ScanForward(file, at + Advance(file, at));
    }
  }

  /** At a pad byte in front of any header the scan reads it shifted by one: the tag's last byte is
      the low byte of the size, and the size's high byte is lost. */
  lemma MisreadHeader(file: seq<byte>, at: nat, tag: seq<byte>, size: seq<byte>)
    requires |tag| == 4 && |size| == 4 && at + 8 < |file| && Sits(file, at, [0] + tag + size)
    ensures var step := (8 + tag[3] as nat + 256 * (Little(size) % 0x100_0000)) % WORD;
            ScanFrom(file, at) == if step == 0 then Forever else ScanFrom(file, at + step)
  {
    var piece := [0] + tag + size;
    assert forall i | 0 <= i < 9 :: file[at..at + 9][i] == file[at + i] == piece[i];
    assert file[at..at + 4][0] == file[at] == 0;
    assert file[at + 4] == piece[4] == tag[3];
    assert file[at + 5] == piece[5] && file[at + 6] == piece[6] && file[at + 7] == piece[7];
    assert Little(size) % 0x100_0000 == (size[0] as nat) + 256 * (size[1] as nat) + 65536 * (size[2] as nat);
    assert Little(file[at + 4..at + 8]) == tag[3] as nat + 256 * (Little(size) % 0x100_0000);
  }

  /** In front of the data header that is a step of at least 105, past the payload's first byte. */
  lemma PadRound(file: seq<byte>, at: nat, size: seq<byte>)
    requires |size| == 4 && at + 9 < |file| && Sits(file, at, [0] + DATA + size)
    ensures ScanFrom(file, at).Ends? ==> ScanFrom(file, at).at >= at + 105
  {
    var high := Little(size) % 0x100_0000;
    MisreadHeader(file, at, DATA, size);
    LowByteStays(105, high);
    ScanForward(file, at + (8 + 97 + 256 * high) % WORD);
  }

  lemma LowByteStays(low: nat, high: nat)
    requires low < 256
    ensures (low + 256 * high) % WORD >= low
  {
    assert (low + 256 * high) % WORD == low + 256 * (high % 0x100_0000);
  }

  function PaddedFile(form: seq<byte>, chunks: seq<Chunk>, size: seq<byte>, rest: seq<byte>): seq<byte> {
    RIFF + form + PackPadded(chunks) + (DATA + size + rest)
  }

  lemma {:induction false} PackSnoc(chunks: seq<Chunk>, c: Chunk)
    ensures Pack(chunks + [c]) == Pack(chunks) + Bytes(c)
  {
    if chunks == [] {
      assert [] + [c] == [c] && [c][1..] == [];
    } else {
      assert (chunks + [c])[1..] == chunks[1..] + [c];
      PackSnoc(chunks[1..], c);
      Regroup(Bytes(chunks[0]), Pack(chunks[1..]), Bytes(c));
    }
  }

  lemma {:induction false} PackPaddedSnoc(chunks: seq<Chunk>, c: Chunk)
    ensures PackPadded(chunks + [c]) == PackPadded(chunks) + Padded(c)
  {
    if chunks == [] {
      assert [] + [c] == [c] && [c][1..] == [];
    } else {
      assert (chunks + [c])[1..] == chunks[1..] + [c];
      PackPaddedSnoc(chunks[1..], c);
      Regroup(Padded(chunks[0]), PackPadded(chunks[1..]), Padded(c));
    }
  }

  lemma {:induction false} SkippableSnoc(chunks: seq<Chunk>, c: Chunk)
    requires AllSkippable(chunks) && Skippable(c)
    ensures AllSkippable(chunks + [c])
  {
    if chunks != [] {
      assert (chunks + [c])[1..] == chunks[1..] + [c];
      SkippableSnoc(chunks[1..], c);
    }
  }

  lemma OnePad(chunks: seq<Chunk>, c: Chunk)
    requires (forall d | d in chunks :: |d.body| % 2 == 0) && |c.body| % 2 == 1
    ensures PackPadded(chunks + [c]) == Pack(chunks + [c]) + [0]
  {
    PackSnoc(chunks, c);
    PackPaddedSnoc(chunks, c);
    EvenNeedsNoPad(chunks);
    Regroup(Pack(chunks), Bytes(c), [0]);
  }

  /** An odd chunk right before the data: its pad byte is read as the start of a header, and the
      scan ends past the payload's first byte, or never. */
  lemma OddPadMisleads(form: seq<byte>, chunks: seq<Chunk>, c: Chunk, size: seq<byte>, rest: seq<byte>)
    requires |form| == 8 && |size| == 4 && rest != []
    requires AllSkippable(chunks) && (forall d | d in chunks :: |d.body| % 2 == 0)
    requires Skippable(c) && |c.body| % 2 == 1
    ensures var file := PaddedFile(form, chunks + [c], size, rest);
            IsRiff(file) && (ScanFrom(file, HEADER).Ends? ==> ScanFrom(file, HEADER).at > |file| - |rest|)
  {
    OnePad(chunks, c);
    SkippableSnoc(chunks, c);
    PadLayout(form, Pack(chunks + [c]), DATA, size, rest);
    MisreadPad(PaddedFile(form, chunks + [c], size, rest), chunks + [c], size);
  }

  /** A pad byte and the header behind it, in a file that goes on with `rest`. */
  lemma PadLayout(form: seq<byte>, packed: seq<byte>, tag: seq<byte>, size: seq<byte>, rest: seq<byte>)
    requires |form| == 8 && |tag| == 4 && |size| == 4
    ensures var file := RIFF + form + (packed + [0]) + (tag + size + rest); var pad := HEADER + |packed|;
            && IsRiff(file) && |file| == pad + 9 + |rest|
            && Sits(file, HEADER, packed) && Sits(file, pad, [0] + tag + size)
            && Sits(file, pad + 9, rest)
  {
    var file := RIFF + form + (packed + [0]) + (tag + size + rest);
    assert file[..4] == RIFF;
    assert file == RIFF + form + packed + ([0] + tag + size) + rest;
  }

  lemma MisreadPad(file: seq<byte>, chunks: seq<Chunk>, size: seq<byte>)
    requires AllSkippable(chunks) && |size| == 4 && HEADER + |Pack(chunks)| + 9 < |file|
    requires Sits(file, HEADER, Pack(chunks)) && Sits(file, HEADER + |Pack(chunks)|, [0] + DATA + size)
    ensures ScanFrom(file, HEADER).Ends? ==> ScanFrom(file, HEADER).at >= HEADER + |Pack(chunks)| + 105
  {
    ScanSkips(file, HEADER, chunks);
    PadRound(file, HEADER + |Pack(chunks)|, size);
  }

  /** So, with even chunks up to the last, a padded file is read as the format means it if and only
      if the last is even too. */
  lemma PaddingExactly(form: seq<byte>, chunks: seq<Chunk>, c: Chunk, size: seq<byte>, rest: seq<byte>)
    requires |form| == 8 && |size| == 4 && rest != []
    requires AllSkippable(chunks) && (forall d | d in chunks :: |d.body| % 2 == 0) && Skippable(c)
    ensures var file := PaddedFile(form, chunks + [c], size, rest);
            ScanFrom(file, HEADER) == Ends(|file| - |rest|) <==> |c.body| % 2 == 0
  {
    if |c.body| % 2 == 1 {
      OddPadMisleads(form, chunks, c, size, rest);
    } else {
      SkippableSnoc(chunks, c);
      EvenNeedsNoPad(chunks + [c]);
      ScanFindsPayload(form, chunks + [c], size, rest);
    }
  }

  /** With an odd chunk further in front, parity decides nothing: where the misread header of the
      next chunk leads depends on its tag and size, and it can lead to the data. */
  lemma MisreadCanResync(form: seq<byte>, chunks: seq<Chunk>, c: Chunk, d: Chunk, size: seq<byte>, rest: seq<byte>)
    requires |form| == 8 && |size| == 4 && rest != []
    requires AllSkippable(chunks) && (forall e | e in chunks :: |e.body| % 2 == 0)
    requires Skippable(c) && |c.body| % 2 == 1 && Skippable(d)
    requires (8 + d.tag[3] as nat + 256 * (|d.body| % 0x100_0000)) % WORD == 9 + |d.body| + |d.body| % 2
    ensures var file := PaddedFile(form, chunks + [c] + [d], size, rest);
            ScanFrom(file, HEADER) == Ends(|file| - |rest|)
  {
    SkippableSnoc(chunks, c);
    OnePadThen(chunks, c, d);
    ResyncFile(form, chunks + [c], d, size, rest);
  }

  lemma OnePadThen(chunks: seq<Chunk>, c: Chunk, d: Chunk)
    requires (forall e | e in chunks :: |e.body| % 2 == 0) && |c.body| % 2 == 1
    ensures PackPadded(chunks + [c] + [d]) == Pack(chunks + [c]) + [0] + Padded(d)
  {
    OnePad(chunks, c);
    PackPaddedSnoc(chunks + [c], d);
  }

  lemma ResyncFile(form: seq<byte>, chunks: seq<Chunk>, d: Chunk, size: seq<byte>, rest: seq<byte>)
    requires |form| == 8 && |size| == 4 && rest != [] && AllSkippable(chunks) && Skippable(d)
    requires (8 + d.tag[3] as nat + 256 * (|d.body| % 0x100_0000)) % WORD == 9 + |d.body| + |d.body| % 2
    ensures var file := RIFF + form + (Pack(chunks) + [0] + Padded(d)) + (DATA + size + rest);
            ScanFrom(file, HEADER) == Ends(|file| - |rest|)
  {
    var packed := Pack(chunks) + [0] + Padded(d);
    Layout(form, packed, size, rest);
    ResyncShape(RIFF + form + packed + (DATA + size + rest), chunks, d, packed, DATA + size + rest);
  }

  lemma ResyncShape(file: seq<byte>, chunks: seq<Chunk>, d: Chunk, packed: seq<byte>, tail: seq<byte>)
    requires AllSkippable(chunks) && Skippable(d) && StartsData(tail)
    requires packed == Pack(chunks) + [0] + Padded(d)
    requires Sits(file, HEADER, packed) && Sits(file, HEADER + |packed|, tail)
    requires (8 + d.tag[3] as nat + 256 * (|d.body| % 0x100_0000)) % WORD == 9 + |d.body| + |d.body| % 2
    ensures ScanFrom(file, HEADER) == Ends(HEADER + |packed| + 8)
  {
    PaddedLength(d);
    PaddedSits(file, Pack(chunks), d);
    ResyncScan(file, chunks, HEADER + |Pack(chunks)|, d, tail);
  }

  lemma PaddedLength(d: Chunk)
    requires Skippable(d)
    ensures |Padded(d)| == 8 + |d.body| + |d.body| % 2
  {
  }

  lemma PadSits(file: seq<byte>, at: nat, packed: seq<byte>, header: seq<byte>, more: seq<byte>)
    requires Sits(file, at, packed + [0] + (header + more))
    ensures Sits(file, at, packed) && Sits(file, at + |packed|, [0] + header)
  {
    assert packed + [0] + (header + more) == packed + ([0] + header + more);
    SitsSplit(file, at, packed, [0] + header + more);
    SitsSplit(file, at + |packed|, [0] + header, more);
  }

  lemma PaddedSits(file: seq<byte>, packed: seq<byte>, d: Chunk)
    requires Sits(file, HEADER, packed + [0] + Padded(d))
    ensures Sits(file, HEADER, packed) && Sits(file, HEADER + |packed|, [0] + d.tag + d.size)
  {
    var padding := if |d.body| % 2 == 1 then [0] else [];
    Regroup(d.tag + d.size, d.body, padding);
    PadSits(file, HEADER, packed, d.tag + d.size, d.body + padding);
    Regroup([0], d.tag, d.size);
  }

  lemma ScanSkipsTo(file: seq<byte>, chunks: seq<Chunk>, pad: nat)
    requires AllSkippable(chunks) && pad == HEADER + |Pack(chunks)| < |file|
    requires Sits(file, HEADER, Pack(chunks))
    ensures ScanFrom(file, HEADER) == ScanFrom(file, pad)
  {
    ScanSkips(file, HEADER, chunks);
  }

  lemma ResyncScan(file: seq<byte>, chunks: seq<Chunk>, pad: nat, d: Chunk, tail: seq<byte>)
    requires AllSkippable(chunks) && Skippable(d) && StartsData(tail)
    requires pad == HEADER + |Pack(chunks)| && Sits(file, HEADER, Pack(chunks))
    requires var length := |d.body| + |d.body| % 2;
             && Sits(file, pad, [0] + d.tag + d.size) && Sits(file, pad + 9 + length, tail)
             && (8 + d.tag[3] as nat + 256 * (|d.body| % 0x100_0000)) % WORD == 9 + length
    ensures ScanFrom(file, HEADER) == Ends(pad + 17 + |d.body| + |d.body| % 2)
  {
    ResyncRound(file, pad, d, |d.body| + |d.body| % 2, tail);
    ScanSkipsTo(file, chunks, pad);
  }

  lemma ResyncRound(file: seq<byte>, pad: nat, d: Chunk, length: nat, tail: seq<byte>)
    requires Skippable(d) && StartsData(tail)
    requires Sits(file, pad, [0] + d.tag + d.size) && Sits(file, pad + 9 + length, tail)
    requires (8 + d.tag[3] as nat + 256 * (|d.body| % 0x100_0000)) % WORD == 9 + length
    ensures ScanFrom(file, pad) == Ends(pad + 17 + length)
  {
    FindsData(file, pad + 9 + length, tail);
    MisreadHeader(file, pad, d.tag, d.size);
  }

  /** Both ways: with an odd chunk in front, a last chunk that is even and one that is odd whose
      files are read right. */
  lemma ParityIsNotEnough(form: seq<byte>, c: Chunk, body: seq<byte>, size: seq<byte>, rest: seq<byte>)
    requires |form| == 8 && |size| == 4 && rest != []
    requires Skippable(c) && |c.body| % 2 == 1 && |body| == 0x0101_0101
    ensures var even := Chunk([97, 97, 97, 1], [0, 0, 0, 0], []);
            var file := PaddedFile(form, [c] + [even], size, rest);
            Skippable(even) && ScanFrom(file, HEADER) == Ends(|file| - |rest|)
    ensures var odd := Chunk([97, 97, 97, 3], [1, 1, 1, 1], body);
            var file := PaddedFile(form, [c] + [odd], size, rest);
            Skippable(odd) && |odd.body| % 2 == 1 && ScanFrom(file, HEADER) == Ends(|file| - |rest|)
  {
    var even, odd := Chunk([97, 97, 97, 1], [0, 0, 0, 0], []), Chunk([97, 97, 97, 3], [1, 1, 1, 1], body);
    assert [] + [c] == [c];
    Resyncing(even);
    MisreadCanResync(form, [], c, even, size, rest);
    Resyncing(odd);
    MisreadCanResync(form, [], c, odd, size, rest);
  }

  lemma Resyncing(d: Chunk)
    requires (d.tag == [97, 97, 97, 1] && d.size == [0, 0, 0, 0] && d.body == [])
             || (d.tag == [97, 97, 97, 3] && d.size == [1, 1, 1, 1] && |d.body| == 0x0101_0101)
    ensures Skippable(d)
    ensures (8 + d.tag[3] as nat + 256 * (|d.body| % 0x100_0000)) % WORD == 9 + |d.body| + |d.body| % 2
  {
    assert d.tag[0] != DATA[0];
  }
}
