/** The HTTP/1.1 chunked transfer coding: what the client writes, and a decoder written from
    section 7.1 of RFC 9112. */
module ChunkedCoding {

  import opened Sequences

  const CRLF: seq<byte> := [13, 10]
  const TERMINATOR: seq<byte> := [48, 13, 10, 13, 10]

  // ---- The writer --------------------------------------------------------------------

  function HexDigit(d: nat): byte
    requires d < 16
  {
    if d < 10 then 48 + d else 87 + d
  }

  /** `%zx` */
  function Hex(n: nat): (s: seq<byte>)
    ensures s != []
  {
    if n < 16 then [HexDigit(n)] else Hex(n / 16) + [HexDigit(n % 16)]
  }

  function Header(data: seq<byte>): seq<byte> { Hex(|data|) + CRLF }

  function Chunk(data: seq<byte>): seq<byte> { Header(data) + data + CRLF }

  function Chunks(parts: seq<seq<byte>>): seq<byte> {
    if parts == [] then [] else Chunk(parts[0]) + Chunks(parts[1..])
  }

  predicate NonEmpty(parts: seq<seq<byte>>) {
    forall p | p in parts :: p != []
  }

  // ---- The decoder of the standard ---------------------------------------------------

  /** The value of a HEXDIG, either case, or 16. */
  function DigitValue(b: byte): nat {
    if 48 <= b <= 57 then b - 48
    else if 97 <= b <= 102 then b - 87
    else if 65 <= b <= 70 then b - 55
    else 16
  }

  predicate IsHex(b: byte) { DigitValue(b) < 16 }

  /** The length of the longest run of hex digits at the front. */
  function HexRun(s: seq<byte>): (n: nat)
    ensures n <= |s|
  {
    if s == [] || !IsHex(s[0]) then 0 else 1 + HexRun(s[1..])
  }

  function HexValue(s: seq<byte>): nat
    requires forall b | b in s :: IsHex(b)
  {
    if s == [] then 0 else 16 * HexValue(s[..|s| - 1]) + DigitValue(s[|s| - 1])
  }

  lemma RunIsHex(s: seq<byte>)
    ensures forall b | b in s[..HexRun(s)] :: IsHex(b)
  {
    if s != [] && IsHex(s[0]) {
      RunIsHex(s[1..]);
      assert s[..HexRun(s)] == [s[0]] + s[1..][..HexRun(s[1..])];
    }
  }

  datatype Size = Size(n: nat) | NoSize

  /** chunk-size, then nothing, a chunk extension, or the whitespace that may precede one. */
  function SizeOf(line: seq<byte>): Size {
    var n := HexRun(line);
    RunIsHex(line);
    if n == 0 || (n < |line| && line[n] !in {59, 32, 9}) then NoSize
    else Size(HexValue(line[..n]))
  }

  datatype Line = Line(text: seq<byte>, rest: seq<byte>) | Unended

  /** The text before the first CRLF and what follows it. */
  function ReadLine(s: seq<byte>): (l: Line)
    ensures l.Line? ==> |l.rest| < |s|
  {
    if |s| < 2 then Unended
    else if s[0] == CRLF[0] && s[1] == CRLF[1] then Line([], s[2..])
    else match ReadLine(s[1..])
      case Unended => Unended
      case Line(text, rest) => Line([s[0]] + text, rest)
  }

  /** More input is needed; the input breaks the grammar; or a complete body and what follows. */
  datatype Parse = More | Bad | Done(body: seq<byte>, rest: seq<byte>)

  /** Trailer fields up to the empty line; their content is ignored. */
  function Trailer(s: seq<byte>): Parse
    decreases |s|
  {
    match ReadLine(s)
    case Unended => More
    case Line(text, rest) => if text == [] then Done([], rest) else Trailer(rest)
  }

  datatype Split = Data(data: seq<byte>, after: seq<byte>) | NoData | BadData

  /** chunk-data and the CRLF that ends it. */
  function SplitData(s: seq<byte>, n: nat): (d: Split)
    ensures d.Data? ==> |d.after| < |s|
  {
    if |s| < n + 2 then NoData
    else if s[n..n + 2] != CRLF then BadData
    else Data(s[..n], s[n + 2..])
  }

  function Prepend(data: seq<byte>, p: Parse): Parse {
    match p
    case Done(body, rest) => Done(data + body, rest)
    case other => other
  }

  function Decode(s: seq<byte>): Parse
    decreases |s|
  {
    match ReadLine(s)
    case Unended => More
    case Line(line, rest) =>
      match SizeOf(line)
      case NoSize => Bad
      case Size(n) =>
        if n == 0 then Trailer(rest)
        else match SplitData(rest, n)
          case NoData => More
          case BadData => Bad
          case Data(data, after) => Prepend(data, Decode(after))
  }

  // ---- A decoder never takes an answer back ------------------------------------------

  lemma {:induction false} LineStays(s: seq<byte>, more: seq<byte>)
    requires ReadLine(s).Line?
    ensures ReadLine(s + more) == Line(ReadLine(s).text, ReadLine(s).rest + more)
  {
    if s[0] == CRLF[0] && s[1] == CRLF[1] {
      assert (s + more)[2..] == s[2..] + more;
    } else {
      LineStays(s[1..], more);
      assert (s + more)[1..] == s[1..] + more;
    }
  }

  /** What an answer becomes when the input grows. */
  function Extend(p: Parse, more: seq<byte>): Parse {
    if p.Done? then Done(p.body, p.rest + more) else p
  }

  lemma {:induction false} TrailerStays(s: seq<byte>, more: seq<byte>)
    requires Trailer(s) != More
    ensures Trailer(s + more) == Extend(Trailer(s), more)
    decreases |s|
  {
    LineStays(s, more);
    if ReadLine(s).text != [] {
      TrailerStays(ReadLine(s).rest, more);
    }
  }

  lemma DataStays(s: seq<byte>, more: seq<byte>, n: nat)
    requires !SplitData(s, n).NoData?
    ensures SplitData(s + more, n) ==
              if SplitData(s, n).BadData? then BadData
              else Data(SplitData(s, n).data, SplitData(s, n).after + more)
  {
    assert (s + more)[n..n + 2] == s[n..n + 2];
    assert (s + more)[..n] == s[..n];
    assert (s + more)[n + 2..] == s[n + 2..] + more;
  }

  lemma {:induction false} AnswerStays(s: seq<byte>, more: seq<byte>)
    requires Decode(s) != More
    ensures Decode(s + more) == Extend(Decode(s), more)
    decreases |s|
  {
    LineStays(s, more);
    var l := ReadLine(s);
    match SizeOf(l.text)
    case NoSize =>
    case Size(n) =>
      if n == 0 {
        TrailerStays(l.rest, more);
      } else {
        DataStays(l.rest, more, n);
        if SplitData(l.rest, n).Data? {
          AnswerStays(SplitData(l.rest, n).after, more);
        }
      }
  }

  // ---- Round trip --------------------------------------------------------------------

  lemma {:induction false} HexIsHex(n: nat)
    ensures forall b | b in Hex(n) :: IsHex(b)
    ensures HexValue(Hex(n)) == n
  {
    if n >= 16 {
      HexIsHex(n / 16);
      assert Hex(n)[..|Hex(n)| - 1] == Hex(n / 16);
    }
  }

  /** The size line's digits are those of `%zx`: lower case, without a leading zero. */
  lemma {:induction false} HexExactly(n: nat)
    ensures forall b | b in Hex(n) :: 48 <= b <= 57 || 97 <= b <= 102
    ensures HexValue(Hex(n)) == n && (Hex(n)[0] == 48 <==> n == 0)
    ensures n < 16 ==> |Hex(n)| == 1
  {
    HexIsHex(n);
    if n >= 16 { HexExactly(n / 16); }
  }

  lemma {:induction false} RunOfHex(s: seq<byte>)
    requires forall b | b in s :: IsHex(b)
    ensures HexRun(s) == |s|
  {
    if s != [] { RunOfHex(s[1..]); }
  }

  lemma {:induction false} LineOf(text: seq<byte>, rest: seq<byte>)
    requires 13 !in text
    ensures ReadLine(text + CRLF + rest) == Line(text, rest)
  {
    var s := text + CRLF + rest;
    if text == [] {
      assert s[..2] == CRLF && s[2..] == rest;
    } else {
      assert s[0] != 13;
      assert s[1..] == text[1..] + CRLF + rest;
      LineOf(text[1..], rest);
    }
  }

  lemma SizeLine(n: nat, rest: seq<byte>)
    ensures ReadLine(Hex(n) + CRLF + rest) == Line(Hex(n), rest)
    ensures SizeOf(Hex(n)) == Size(n)
  {
    HexIsHex(n);
    RunOfHex(Hex(n));
    assert Hex(n)[..|Hex(n)|] == Hex(n);
    LineOf(Hex(n), rest);
  }

  lemma DecodeChunk(data: seq<byte>, rest: seq<byte>)
    requires data != []
    ensures Decode(Chunk(data) + rest) == Prepend(data, Decode(rest))
  {
    var after := data + CRLF + rest;
    assert Chunk(data) + rest == Hex(|data|) + CRLF + after;
    SizeLine(|data|, after);
    assert after[|data|..|data| + 2] == CRLF;
    assert after[..|data|] == data && after[|data| + 2..] == rest;
    assert SplitData(after, |data|) == Data(data, rest);
  }

  lemma PrependTwice(a: seq<byte>, b: seq<byte>, p: Parse)
    ensures Prepend(a, Prepend(b, p)) == Prepend(a + b, p)
    ensures Prepend([], p) == p
  {
    if p.Done? {
      assert a + (b + p.body) == (a + b) + p.body;
      assert [] + p.body == p.body;
    }
  }

  lemma {:induction false} DecodeChunks(parts: seq<seq<byte>>, rest: seq<byte>)
    requires NonEmpty(parts)
    ensures Decode(Chunks(parts) + rest) == Prepend(Flatten(parts), Decode(rest))
  {
    if parts == [] {
      assert Chunks(parts) + rest == rest;
      PrependTwice([], [], Decode(rest));
    } else {
      var inner := Chunks(parts[1..]) + rest;
      assert Chunks(parts) + rest == Chunk(parts[0]) + inner;
      assert parts[0] in parts && forall p | p in parts[1..] :: p in parts;
      DecodeChunk(parts[0], inner);
      DecodeChunks(parts[1..], rest);
      FlattenCons(parts[0], parts[1..]);
      assert parts == [parts[0]] + parts[1..];
      PrependTwice(parts[0], Flatten(parts[1..]), Decode(rest));
    }
  }

  lemma DecodeTerminator(rest: seq<byte>)
    ensures Decode(TERMINATOR + rest) == Done([], rest)
  {
    assert Hex(0) == [48];
    assert TERMINATOR + rest == Hex(0) + CRLF + (CRLF + rest);
    SizeLine(0, CRLF + rest);
    assert [] + CRLF + rest == CRLF + rest;
    LineOf([], rest);
  }

  /** The body a finished session puts on the wire decodes to its chunks, joined, and the
      decoder stops exactly at its end, whatever follows. */
  lemma RoundTrip(parts: seq<seq<byte>>, rest: seq<byte>)
    requires NonEmpty(parts)
    ensures Decode(Chunks(parts) + TERMINATOR + rest) == Done(Flatten(parts), rest)
  {
    assert Chunks(parts) + TERMINATOR + rest == Chunks(parts) + (TERMINATOR + rest);
    DecodeChunks(parts, TERMINATOR + rest);
    DecodeTerminator(rest);
    assert Flatten(parts) + [] == Flatten(parts);
  }

  /** Before the terminator no prefix of the wire is a complete or a broken body, whatever
      bytes the audio holds. */
  lemma UnfinishedIsIncomplete(parts: seq<seq<byte>>, k: nat)
    requires NonEmpty(parts) && k <= |Chunks(parts)|
    ensures Decode(Chunks(parts)[..k]) == More
  {
    var wire := Chunks(parts);
    DecodeChunks(parts, []);
    assert wire + [] == wire && wire[..k] + wire[k..] == wire;
    if Decode(wire[..k]) != More {
      AnswerStays(wire[..k], wire[k..]);
    }
  }

  function Power16(k: nat): nat { if k == 0 then 1 else 16 * Power16(k - 1) }

  lemma {:induction false} HexLength(n: nat, k: nat)
    requires 1 <= k && n < Power16(k)
    ensures |Hex(n)| <= k
  {
    if n >= 16 { HexLength(n / 16, k - 1); }
  }

  /** The size line of any 64-bit size, with its terminator, fits `char chunk_header[32]`. */
  lemma HeaderFits(data: seq<byte>)
    requires |data| < 0x1_0000_0000_0000_0000
    ensures |Header(data)| + 1 <= 19 <= 32
  {
    assert Power16(4) == 0x1_0000;
    assert Power16(8) == 0x1_0000_0000;
    assert Power16(12) == 0x1_0000_0000_0000;
    assert Power16(16) == 0x1_0000_0000_0000_0000;
    HexLength(|data|, 16);
  }
}
