/** Base64 as the C client writes and reads it, against section 4 of RFC 4648. */
module Base64 {

  import opened Sequences

  type octet = bv8

  const INT_LIMIT: nat := 0x8000_0000

  /** Table 1 of RFC 4648 in closed form. */
  function Letter(x: nat): char
    requires x < 64
  {
    if x < 26 then (65 + x) as char
    else if x < 52 then (71 + x) as char
    else if x < 62 then (x - 4) as char
    else if x == 62 then '+' else '/'
  }

  /** `base64_chars` */
  function Table(): string {
    seq(64, x requires 0 <= x < 64 => Letter(x))
  }

  lemma TableText()
    ensures Table()[..26] == UPPER && Table()[26..52] == LOWER && Table()[52..] == OTHERS
  {
  }

  /** `base64_chars[x]` */
  function Symbol(x: octet): char
    requires x < 64
  {
    Table()[x as nat]
  }

  /** The first place of `c` among the last `left` characters of `s`, or -1. */
  function Search(s: string, c: char, left: nat): (p: int)
    requires left <= |s|
    ensures p == -1 || (|s| - left <= p < |s| && s[p] == c)
  {
    if left == 0 then -1
    else if s[|s| - left] == c then |s| - left
    else Search(s, c, left - 1)
  }

  /** `strchr(s, c) - s`, or -1 where strchr finds nothing. */
  function Position(s: string, c: char): int { Search(s, c, |s|) }

  /** What the decoder computes for a character; `miss` is whatever byte subtracting the table
      from a null pointer leaves. */
  function Digit(c: char, miss: octet): octet {
    var p := Position(Table(), c);
    if p < 0 then miss else p as octet
  }

  predicate IsSymbol(c: char) { Position(Table(), c) >= 0 }

  lemma {:induction false} SearchFinds(s: string, left: nat, k: nat)
    requires |s| - left <= k < |s| && left <= |s|
    requires forall j | |s| - left <= j < k :: s[j] != s[k]
    ensures Search(s, s[k], left) == k
  {
    if |s| - left < k { SearchFinds(s, left - 1, k); }
  }

  lemma DigitOfSymbol(x: octet, miss: octet)
    requires x < 64
    ensures Digit(Symbol(x), miss) == x && IsSymbol(Symbol(x)) && Symbol(x) != '='
  {
    SearchFinds(Table(), |Table()|, x as nat);
  }

  lemma ByteOf(p: nat)
    requires p < 64
    ensures (p as octet) as nat == p && (p as octet) < 64
  {
    SmallByte(p as octet);
  }

  lemma SmallByte(b: octet)
    requires b as nat < 64
    ensures b < 64
  {
  }

  lemma SymbolOfDigit(c: char, miss: octet)
    requires IsSymbol(c)
    ensures Digit(c, miss) < 64 && Symbol(Digit(c, miss)) == c && c != '='
  {
    ByteOf(Position(Table(), c));
  }

  const UPPER: string := "ABCDEFGHIJKLMNOPQRSTUVWXYZ"
  const LOWER: string := "abcdefghijklmnopqrstuvwxyz"
  const OTHERS: string := "0123456789+/"
  const ALPHABET: string := UPPER + LOWER + OTHERS

  lemma ThreeParts(t: string, a: string, b: string, c: string)
    requires |t| == 64 && t[..26] == a && t[26..52] == b && t[52..] == c
    ensures t == a + b + c
  {
  }

  lemma TableIsAlphabet()
    ensures Table() == ALPHABET
  {
    TableText();
    ThreeParts(Table(), UPPER, LOWER, OTHERS);
  }

  /** The decoder reads the `p`-th character of the alphabet as `p`, and everything else as whatever
      the null pointer makes of it. */
  lemma DigitsExactly(p: nat, c: char, miss: octet)
    ensures p < 64 ==> Digit(ALPHABET[p], miss) as nat == p
    ensures c !in ALPHABET ==> Digit(c, miss) == miss
  {
    TableIsAlphabet();
    if p < 64 {
      ByteOf(p);
      DigitOfSymbol(p as octet, miss);
    }
  }

  // ---- One group ---------------------------------------------------------------------

  /** `data[i]`, or 0 past the end. */
  function At(data: seq<octet>, i: nat): octet {
    if i < |data| then data[i] else 0
  }

  /** The four 6-bit values spelled by three bytes. */
  function Sextets(b1: octet, b2: octet, b3: octet): (x: (octet, octet, octet, octet))
    ensures x.0 < 64 && x.1 < 64 && x.2 < 64 && x.3 < 64
  {
    (b1 >> 2, ((b1 & 3) << 4) | (b2 >> 4), ((b2 & 15) << 2) | (b3 >> 6), b3 & 63)
  }

  /** The three bytes the decoder forms from four values. */
  function Octets(d1: octet, d2: octet, d3: octet, d4: octet): (octet, octet, octet) {
    ((d1 << 2) | (d2 >> 4), ((d2 & 15) << 4) | (d3 >> 2), ((d3 & 3) << 6) | d4)
  }

  lemma OctetsOfSextets(b1: octet, b2: octet, b3: octet, y3: octet, y4: octet)
    ensures var x := Sextets(b1, b2, b3);
            && Octets(x.0, x.1, x.2, x.3) == (b1, b2, b3)
            && Octets(x.0, x.1, x.2, y4).0 == b1 && Octets(x.0, x.1, x.2, y4).1 == b2
            && Octets(x.0, x.1, y3, y4).0 == b1
  {
  }

  lemma SextetsOfOctets(d1: octet, d2: octet, d3: octet, d4: octet)
    requires d1 < 64 && d2 < 64 && d3 < 64 && d4 < 64
    ensures var b := Octets(d1, d2, d3, d4);
            && Sextets(b.0, b.1, b.2) == (d1, d2, d3, d4)
            && (d3 & 3 == 0 ==> var x := Sextets(b.0, b.1, 0); (x.0, x.1, x.2) == (d1, d2, d3))
            && (d2 & 15 == 0 ==> var x := Sextets(b.0, 0, 0); (x.0, x.1) == (d1, d2))
  {
  }

  lemma UnusedBitsAreZero(b1: octet, b2: octet)
    ensures Sextets(b1, b2, 0).2 & 3 == 0 && Sextets(b1, 0, 0).1 & 15 == 0
  {
  }

  /** The four characters for the group of up to three bytes at the front of `data`. */
  function EncodeGroup(data: seq<octet>): (s: string)
    requires data != []
    ensures |s| == 4
  {
    var x := Sextets(At(data, 0), At(data, 1), At(data, 2));
    [ Symbol(x.0), Symbol(x.1),
      if 1 < |data| then Symbol(x.2) else '=',
      if 2 < |data| then Symbol(x.3) else '=' ]
  }

  function Encode(data: seq<octet>): string
    decreases |data|
  {
    if data == [] then ""
    else if |data| <= 3 then EncodeGroup(data)
    else EncodeGroup(data[..3]) + Encode(data[3..])
  }

  function DigitAt(s: string, i: nat, miss: octet): octet {
    if i < |s| then Digit(s[i], miss) else 0
  }

  /** The three bytes the decoder computes for the group at the front of `s`. */
  function DecodeGroup(s: string, miss: octet): (b: seq<octet>)
    ensures |b| == 3
  {
    var b := Octets(DigitAt(s, 0, miss), DigitAt(s, 1, miss), DigitAt(s, 2, miss), DigitAt(s, 3, miss));
    [b.0, b.1, b.2]
  }

  function Groups(s: string, miss: octet): (b: seq<octet>)
    ensures |b| == 3 * ((|s| + 3) / 4)
    decreases |s|
  {
    if s == "" then []
    else if |s| <= 4 then DecodeGroup(s, miss)
    else DecodeGroup(s[..4], miss) + Groups(s[4..], miss)
  }

  /** The size the decoder allocates. */
  function OutputSize(s: string): int
    requires 2 <= |s|
  {
    |s| * 3 / 4 - (if s[|s| - 1] == '=' then 1 else 0) - (if s[|s| - 2] == '=' then 1 else 0)
  }

  /** What `decode_base64_audio` needs of its input: the first byte of every group is stored
      without looking at the size, so the size must reach into the last group. */
  predicate Decodable(s: string) {
    2 <= |s| && 3 * |s| < INT_LIMIT && 3 * ((|s| - 1) / 4) < OutputSize(s)
  }

  function Decode(s: string, miss: octet): seq<octet>
    requires Decodable(s)
  {
    Groups(s, miss)[..OutputSize(s)]
  }

  // ---- The loops ---------------------------------------------------------------------

  predicate Encodable(data: seq<octet>) {
    4 * ((|data| + 2) / 3) < INT_LIMIT
  }

  lemma EncodeLength(data: seq<octet>)
    ensures |Encode(data)| == 4 * ((|data| + 2) / 3)
    decreases |data|
  {
    if |data| > 3 { EncodeLength(data[3..]); }
  }

  /** One round of the encoders' loop. */
  method PutGroup(data: seq<octet>, i: nat, output: array<char>, j: nat)
    requires i < |data| && j + 4 <= output.Length
    modifies output
    ensures output[..j + 4] == old(output[..j]) + EncodeGroup(data[i..])
  {
    ghost var before := output[..j];
    var byte1 := data[i];
    var byte2 := if i + 1 < |data| then data[i + 1] else 0;
    var byte3 := if i + 2 < |data| then data[i + 2] else 0;
    var x := Sextets(byte1, byte2, byte3);
    output[j] := Symbol(x.0);
    output[j + 1] := Symbol(x.1);
    output[j + 2] := if i + 1 < |data| then Symbol(x.2) else '=';
    output[j + 3] := if i + 2 < |data| then Symbol(x.3) else '=';
    assert output[..j] == before;
    assert output[..j + 4] == output[..j] + output[j..j + 4];
    assert output[j..j + 4] == EncodeGroup(data[i..]);
  }

  /** What is still to be written once the loop has reached `i`. */
  function EncodeFrom(data: seq<octet>, i: nat): (s: string)
    ensures i < |data| ==> s == EncodeGroup(data[i..]) + EncodeFrom(data, i + 3)
    decreases |data| + 2 - i
  {
    if i < |data| then
      assert |data| - i > 3 ==> data[i..][3..] == data[i + 3..];
      assert |data| - i > 3 ==> EncodeGroup(data[i..]) == EncodeGroup(data[i..][..3]);
      Encode(data[i..])
    else ""
  }

  /** The loop both encoders run, into a buffer with room for the text and its terminator. */
  method EncodeInto(data: seq<octet>, output: array<char>) returns (j: nat)
    requires Encodable(data) && 4 * ((|data| + 2) / 3) < output.Length
    modifies output
    ensures j == |Encode(data)| < output.Length
    ensures output[..j] == Encode(data) && output[j] == '\0'
  {
    EncodeLength(data);
    assert data[0..] == data;
    var i := 0;
    j := 0;
    while i < |data|
      invariant j <= |Encode(data)|
      invariant Encode(data) == output[..j] + EncodeFrom(data, i)
      decreases |data| + 2 - i
    {
      ghost var before := output[..j];
      Regroup(before, EncodeGroup(data[i..]), EncodeFrom(data, i + 3));
      PutGroup(data, i, output, j);
      i, j := i + 3, j + 4;
    }
    assert output[..j] == Encode(data);
    output[j] := '\0';
  }

  /** `encode_audio_to_base64`; the allocation is assumed to succeed. */
  method EncodeAudio(data: seq<octet>) returns (output: array<char>)
    requires Encodable(data)
    ensures output[..] == Encode(data) + ['\0']
  {
    output := new char[(|data| + 2) / 3 * 4 + 1];
    EncodeLength(data);
    var j := EncodeInto(data, output);
    assert output[..] == output[..j] + [output[j]];
  }

  /** Group `k` of the text decodes to bytes 3k to 3k + 2 of `total`. */
  predicate HoldsGroup(s: string, miss: octet, total: seq<octet>, k: nat) {
    4 * k < |s| && 3 * k + 3 <= |total| && total[3 * k..3 * k + 3] == DecodeGroup(s[4 * k..], miss)
  }

  lemma FirstGroup(s: string, miss: octet)
    requires s != ""
    ensures HoldsGroup(s, miss, Groups(s, miss), 0)
  {
    assert s[0..] == s;
    if |s| > 4 {
      assert DecodeGroup(s[..4], miss) == DecodeGroup(s, miss);
    }
  }

  lemma LaterGroup(s: string, miss: octet, head: seq<octet>, tail: seq<octet>, k: nat)
    requires |s| > 4 && |head| == 3 && HoldsGroup(s[4..], miss, tail, k)
    ensures HoldsGroup(s, miss, head + tail, k + 1)
  {
    assert s[4..][4 * k..] == s[4 * (k + 1)..];
    assert (head + tail)[3 * (k + 1)..3 * (k + 1) + 3] == tail[3 * k..3 * k + 3];
  }

  lemma {:induction false} GroupsAt(s: string, k: nat, miss: octet)
    requires 4 * k < |s|
    ensures HoldsGroup(s, miss, Groups(s, miss), k)
    decreases k
  {
    if k == 0 {
      FirstGroup(s, miss);
    } else {
      var head, tail := DecodeGroup(s[..4], miss), Groups(s[4..], miss);
      assert Groups(s, miss) == head + tail;
      GroupsAt(s[4..], k - 1, miss);
      LaterGroup(s, miss, head, tail, k - 1);
    }
  }

  /** One round of the decoder's loop: three bytes, of which the last two only if there is room. */
  method TakeGroup(s: string, i: nat, miss: octet, output: array<octet>, j: nat) returns (next: nat)
    requires i < |s| && j < output.Length
    modifies output
    ensures next == if j + 3 <= output.Length then j + 3 else output.Length
    ensures output[..next] == old(output[..j]) + DecodeGroup(s[i..], miss)[..next - j]
  {
    var byte1 := Digit(s[i], miss);
    var byte2 := if i + 1 < |s| then Digit(s[i + 1], miss) else 0;
    var byte3 := if i + 2 < |s| then Digit(s[i + 2], miss) else 0;
    var byte4 := if i + 3 < |s| then Digit(s[i + 3], miss) else 0;
    var b := Octets(byte1, byte2, byte3, byte4);
    next := PutUpTo3(output, j, b.0, b.1, b.2);
    assert DecodeGroup(s[i..], miss) == [b.0, b.1, b.2];
  }

  method PutUpTo3(output: array<octet>, j: nat, x: octet, y: octet, z: octet) returns (next: nat)
    requires j < output.Length
    modifies output
    ensures next == if j + 3 <= output.Length then j + 3 else output.Length
    ensures output[..next] == old(output[..j]) + [x, y, z][..next - j]
  {
    output[j] := x;
    next := j + 1;
    if next < output.Length {
      output[next] := y;
      next := next + 1;
    }
    if next < output.Length {
      output[next] := z;
      next := next + 1;
    }
    assert output[..j] == old(output[..j]);
    assert output[..next] == output[..j] + output[j..next];
    assert output[j..next] == [x, y, z][..next - j];
  }

  method DecodeRound(s: string, i: nat, j: nat, miss: octet, output: array<octet>,
                     ghost k: nat, ghost total: seq<octet>)
    returns (next: nat)
    requires i == 4 * k < |s| && j == 3 * k < output.Length
    requires HoldsGroup(s, miss, total, k) && output[..3 * k] == total[..3 * k]
    modifies output
    ensures next == if 3 * k + 3 <= output.Length then 3 * k + 3 else output.Length
    ensures next <= |total| && output[..next] == total[..next]
  {
    next := TakeGroup(s, i, miss, output, j);
    ghost var three := total[3 * k..3 * k + 3];
    assert three[..next - 3 * k] == total[3 * k..next];
    assert total[..next] == total[..3 * k] + total[3 * k..next];
  }

  /** The decoder's loop over `groups` groups. The first byte of each is stored without a look at
      the size; the loop stays in bounds if and only if the output reaches into the last group. */
  method DecodeLoop(s: string, miss: octet, output: array<octet>, ghost groups: nat, ghost total: seq<octet>)
    returns (inBounds: bool)
    requires 4 * groups - 4 < |s| <= 4 * groups
    requires output.Length <= 3 * groups == |total|
    requires forall k: nat | k < groups :: HoldsGroup(s, miss, total, k)
    modifies output
    ensures inBounds <==> 3 * groups - 3 < output.Length
    ensures inBounds ==> output[..] == total[..output.Length]
  {
    ghost var k := 0;
    var i, j := 0, 0;
    while i < |s|
      invariant k <= groups && i == 4 * k && (k > 0 ==> 3 * (k - 1) < output.Length)
      invariant j == (if 3 * k <= output.Length then 3 * k else output.Length) && output[..j] == total[..j]
      decreases groups - k
    {
      if j >= output.Length {
        return false;
      }
      j := DecodeRound(s, i, j, miss, output, k, total);
      i, k := i + 4, k + 1;
    }
    return true;
  }

  /** `Refused` is a size that wrapped below zero, which no allocation can meet; otherwise the
      allocation is assumed to succeed. `Strays` is an access outside the text or the output. */
  datatype Decoding = Decoded(output: array<octet>) | Refused | Strays

  /** The decoder on any text short enough for its `int` arithmetic. */
  method DecodeAudio(s: string, miss: octet) returns (r: Decoding)
    requires 3 * |s| < INT_LIMIT
    ensures r.Decoded? <==> Decodable(s)
    ensures r.Decoded? ==> r.output[..] == Decode(s, miss)
    ensures |s| < 2 ==> r.Strays?
    ensures 2 <= |s| ==>
              var last, before := s[|s| - 1] == '=', s[|s| - 2] == '=';
              var size := 3 * |s| / 4 - (if last then 1 else 0) - (if before then 1 else 0);
              && (r.Decoded? <==> 3 * ((|s| - 1) / 4) < size)
              && (r.Decoded? ==> r.output.Length == size)
    ensures r.Refused? <==> s == "=="
  {
    if |s| < 2 {
      return Strays;
    }
    var size := OutputSize(s);
    if size < 0 {
      return Refused;
    }
    var output := new octet[size];
    forall k: nat | k < (|s| + 3) / 4 ensures HoldsGroup(s, miss, Groups(s, miss), k) {
      GroupsAt(s, k, miss);
    }
    var inBounds := DecodeLoop(s, miss, output, (|s| + 3) / 4, Groups(s, miss));
    return if inBounds then Decoded(output) else Strays;
  }

  // ---- Round trip --------------------------------------------------------------------

  /** Read as one 24-bit number, the four symbol values of a full group are its three bytes. */
  lemma GroupSpellsBits(b1: octet, b2: octet, b3: octet)
    ensures var s := EncodeGroup([b1, b2, b3]);
            (Digit(s[0], 0) as bv24 << 18) | (Digit(s[1], 0) as bv24 << 12)
            | (Digit(s[2], 0) as bv24 << 6) | (Digit(s[3], 0) as bv24)
            == (b1 as bv24 << 16) | (b2 as bv24 << 8) | (b3 as bv24)
  {
    DigitsOfGroup([b1, b2, b3], 0);
  }

  /** And the three bytes decoded from any four symbols are that number of their values. */
  lemma GroupReadsBits(s: string, miss: octet)
    requires |s| == 4 && IsSymbol(s[0]) && IsSymbol(s[1]) && IsSymbol(s[2]) && IsSymbol(s[3])
    ensures var b := DecodeGroup(s, miss);
            (b[0] as bv24 << 16) | (b[1] as bv24 << 8) | (b[2] as bv24)
            == (Digit(s[0], miss) as bv24 << 18) | (Digit(s[1], miss) as bv24 << 12)
               | (Digit(s[2], miss) as bv24 << 6) | (Digit(s[3], miss) as bv24)
  {
    SymbolOfDigit(s[0], miss);
    SymbolOfDigit(s[1], miss);
    SymbolOfDigit(s[2], miss);
    SymbolOfDigit(s[3], miss);
    OctetsJoin(Digit(s[0], miss), Digit(s[1], miss), Digit(s[2], miss), Digit(s[3], miss));
  }

  lemma OctetsJoin(d1: octet, d2: octet, d3: octet, d4: octet)
    requires d1 < 64 && d2 < 64 && d3 < 64 && d4 < 64
    ensures var b := Octets(d1, d2, d3, d4);
            (b.0 as bv24 << 16) | (b.1 as bv24 << 8) | (b.2 as bv24)
            == (d1 as bv24 << 18) | (d2 as bv24 << 12) | (d3 as bv24 << 6) | (d4 as bv24)
  {
  }

  /** The decoder recovers the 6-bit values a group was spelled with. */
  lemma DigitsOfGroup(data: seq<octet>, miss: octet)
    requires data != []
    ensures var x := Sextets(At(data, 0), At(data, 1), At(data, 2));
            var s := EncodeGroup(data);
            && IsSymbol(s[0]) && IsSymbol(s[1])
            && Digit(s[0], miss) == x.0 && Digit(s[1], miss) == x.1
            && (if 1 < |data| then IsSymbol(s[2]) && s[2] != '=' && Digit(s[2], miss) == x.2 else s[2] == '=')
            && (if 2 < |data| then IsSymbol(s[3]) && s[3] != '=' && Digit(s[3], miss) == x.3 else s[3] == '=')
  {
    var x := Sextets(At(data, 0), At(data, 1), At(data, 2));
    DigitOfSymbol(x.0, miss);
    DigitOfSymbol(x.1, miss);
    DigitOfSymbol(x.2, miss);
    DigitOfSymbol(x.3, miss);
  }

  /** Decoding a group gives its bytes back, whatever the decoder computes for padding. */
  lemma GroupRoundTrip(data: seq<octet>, miss: octet)
    requires 1 <= |data| <= 3
    ensures DecodeGroup(EncodeGroup(data), miss)[..|data|] == data
  {
    var s := EncodeGroup(data);
    DigitsOfGroup(data, miss);
    OctetsOfSextets(At(data, 0), At(data, 1), At(data, 2), Digit(s[2], miss), Digit(s[3], miss));
  }

  lemma GroupsJoin(head: string, tail: string, miss: octet)
    requires |head| == 4 && tail != ""
    ensures Groups(head + tail, miss) == DecodeGroup(head, miss) + Groups(tail, miss)
  {
    assert (head + tail)[..4] == head && (head + tail)[4..] == tail;
  }

  /** Decoded bytes start with the data they came from. */
  predicate StartsWith(decoded: seq<octet>, data: seq<octet>) {
    |decoded| >= |data| && decoded[..|data|] == data
  }

  lemma GroupAlone(data: seq<octet>, miss: octet)
    requires 1 <= |data| <= 3
    ensures StartsWith(Groups(EncodeGroup(data), miss), data)
  {
    GroupRoundTrip(data, miss);
  }

  lemma GroupBefore(head: string, tail: string, first: seq<octet>, rest: seq<octet>, miss: octet)
    requires |head| == 4 && tail != "" && |first| == 3
    requires StartsWith(Groups(head, miss), first) && StartsWith(Groups(tail, miss), rest)
    ensures StartsWith(Groups(head + tail, miss), first + rest)
  {
    GroupsJoin(head, tail, miss);
    assert Groups(head, miss) == DecodeGroup(head, miss) == first;
  }

  lemma {:induction false} GroupsRoundTrip(data: seq<octet>, miss: octet)
    requires data != []
    ensures StartsWith(Groups(Encode(data), miss), data)
    decreases |data|
  {
    if |data| <= 3 {
      GroupAlone(data, miss);
    } else {
      var first, rest := data[..3], data[3..];
      EncodeLength(rest);
      GroupAlone(first, miss);
      GroupsRoundTrip(rest, miss);
      GroupBefore(EncodeGroup(first), Encode(rest), first, rest, miss);
      assert data == first + rest;
    }
  }

  lemma LastTwo(a: string, b: string)
    requires |b| >= 2
    ensures (a + b)[|a + b| - 1] == b[|b| - 1] && (a + b)[|a + b| - 2] == b[|b| - 2]
  {
  }

  predicate PadsFor(s: string, n: nat) {
    && |s| >= 4
    && (s[|s| - 1] == '=' <==> n % 3 != 0)
    && (s[|s| - 2] == '=' <==> n % 3 == 1)
  }

  lemma PaddingOfGroup(data: seq<octet>)
    requires 1 <= |data| <= 3
    ensures PadsFor(EncodeGroup(data), |data|)
  {
    DigitsOfGroup(data, 0);
  }

  lemma PaddingAfter(a: string, b: string, n: nat)
    requires PadsFor(b, n)
    ensures PadsFor(a + b, n + 3)
  {
    LastTwo(a, b);
    assert (n + 3) % 3 == n % 3;
  }

  lemma {:induction false} PaddingOf(data: seq<octet>)
    requires data != []
    ensures PadsFor(Encode(data), |data|)
    decreases |data|
  {
    if |data| <= 3 {
      PaddingOfGroup(data);
    } else {
      PaddingOf(data[3..]);
      PaddingAfter(EncodeGroup(data[..3]), Encode(data[3..]), |data[3..]|);
    }
  }

  lemma SizeLaw(n: nat)
    requires 1 <= n
    ensures var length := 4 * ((n + 2) / 3);
            && length * 3 / 4 - (if n % 3 != 0 then 1 else 0) - (if n % 3 == 1 then 1 else 0) == n
            && 3 * ((length - 1) / 4) < n
  {
  }

  lemma SizeOfEncoding(data: seq<octet>)
    requires data != [] && 3 * |Encode(data)| < INT_LIMIT
    ensures Decodable(Encode(data)) && OutputSize(Encode(data)) == |data|
  {
    EncodeLength(data);
    PaddingOf(data);
    SizeLaw(|data|);
  }

  /** The law both functions exist for. */
  lemma RoundTrip(data: seq<octet>, miss: octet)
    requires data != [] && 3 * |Encode(data)| < INT_LIMIT
    ensures Decodable(Encode(data)) && Decode(Encode(data), miss) == data
  {
    SizeOfEncoding(data);
    GroupsRoundTrip(data, miss);
  }

  // ---- Which texts are encodings -----------------------------------------------------

  predicate FullGroup(s: string) {
    |s| == 4 && forall i | 0 <= i < 4 :: IsSymbol(s[i])
  }

  /** A final group, its unused bits zero. */
  predicate LastGroup(s: string) {
    && |s| == 4 && IsSymbol(s[0]) && IsSymbol(s[1])
    && ( FullGroup(s)
      || (IsSymbol(s[2]) && s[3] == '=' && Digit(s[2], 0) & 3 == 0)
      || (s[2] == '=' && s[3] == '=' && Digit(s[1], 0) & 15 == 0))
  }

  /** Canonical base64 text in the sense of section 3.5 of the RFC. */
  predicate Canonical(s: string)
    decreases |s|
  {
    if |s| <= 4 then LastGroup(s) else FullGroup(s[..4]) && Canonical(s[4..])
  }

  lemma EncodedGroupIsCanonical(data: seq<octet>)
    requires 1 <= |data| <= 3
    ensures LastGroup(EncodeGroup(data)) && (|data| == 3 ==> FullGroup(EncodeGroup(data)))
  {
    DigitsOfGroup(data, 0);
    UnusedBitsAreZero(At(data, 0), At(data, 1));
  }

  lemma {:induction false} EncodedIsCanonical(data: seq<octet>)
    requires data != []
    ensures Canonical(Encode(data))
    decreases |data|
  {
    if |data| <= 3 {
      EncodedGroupIsCanonical(data);
    } else {
      EncodedGroupIsCanonical(data[..3]);
      EncodedIsCanonical(data[3..]);
      EncodeLength(data[3..]);
      var s := Encode(data);
      assert s[..4] == EncodeGroup(data[..3]) && s[4..] == Encode(data[3..]);
    }
  }

  lemma GroupBack(s: string) returns (data: seq<octet>)
    requires LastGroup(s)
    ensures 1 <= |data| <= 3 && EncodeGroup(data) == s
    ensures FullGroup(s) ==> |data| == 3
  {
    SymbolOfDigit(s[0], 0);
    SymbolOfDigit(s[1], 0);
    if IsSymbol(s[2]) { SymbolOfDigit(s[2], 0); }
    if IsSymbol(s[3]) { SymbolOfDigit(s[3], 0); }
    var d3 := if s[2] == '=' then 0 else Digit(s[2], 0);
    var d4 := if s[3] == '=' then 0 else Digit(s[3], 0);
    SextetsOfOctets(Digit(s[0], 0), Digit(s[1], 0), d3, d4);
    var b := Octets(Digit(s[0], 0), Digit(s[1], 0), d3, d4);
    data := if s[2] == '=' then [b.0] else if s[3] == '=' then [b.0, b.1] else [b.0, b.1, b.2];
    assert EncodeGroup(data) == [s[0], s[1], s[2], s[3]];
  }

  lemma {:induction false} CanonicalIsEncoded(s: string) returns (data: seq<octet>)
    requires Canonical(s)
    ensures data != [] && Encode(data) == s
    decreases |s|
  {
    if |s| <= 4 {
      data := GroupBack(s);
    } else {
      var head := GroupBack(s[..4]);
      var tail := CanonicalIsEncoded(s[4..]);
      data := head + tail;
      assert data[..3] == head && data[3..] == tail;
    }
  }

  /** The encoder's outputs are exactly the canonical texts, so decoding and encoding undo each
      other there. */
  lemma EncodingsExactly(s: string)
    ensures Canonical(s) <==> exists data :: data != [] && Encode(data) == s
  {
    if Canonical(s) {
      var data := CanonicalIsEncoded(s);
    }
    forall data | data != [] && Encode(data) == s ensures Canonical(s) {
      EncodedIsCanonical(data);
    }
  }
}
