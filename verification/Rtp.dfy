/** RTP packets and their bytes, section 5.1 of RFC 3550. */
module Rtp {
  import opened Wrappers
  import opened Samples

  const TWO_16 := 0x1_0000
  const TWO_24 := 0x100_0000
  const TWO_32 := 0x1_0000_0000

  /** The value of an int after overflow. */
  function ToInt(x: int): int {
    var u := x % TWO_32;
    if u < 0x8000_0000 then u else u - TWO_32
  }

  /** `x << n` on ints */
  function ShiftLeft(x: int, n: int): int {
    ToInt(x * Pow2(n % 32))
  }

  datatype Fields = Fields(version: int, padding: bool, extension: bool, csrcCount: int, marker: bool, payloadType: int,
                           sequenceNumber: int, timestamp: int, ssrc: int, csrcList: seq<int>, data: seq<Byte>)

  /** The packet record, which the sender uses over and over. */
  class RtpPacket {
    var version: int
    var padding: bool
    var extension: bool
    var csrcCount: int
    var marker: bool
    var payloadType: int
    var sequenceNumber: int
    var timestamp: int
    var ssrc: int
    var csrcList: seq<int>
    var data: seq<Byte>

    constructor ()
      ensures View() == Fields(0, false, false, 0, false, 0, 0, 0, 0, [], [])
    {
      version, csrcCount, payloadType, sequenceNumber, timestamp, ssrc := 0, 0, 0, 0, 0, 0;
      padding, extension, marker, csrcList, data := false, false, false, [], [];
    }

    ghost function View(): Fields
      reads this
    {
      Fields(version, padding, extension, csrcCount, marker, payloadType, sequenceNumber, timestamp, ssrc,
             csrcList, data)
    }
  }

  function Bit(b: bool): int {
    if b then 1 else 0
  }

  function Word(a: Byte, b: Byte, c: Byte, d: Byte): nat {
    Unsigned(a) * TWO_24 + Unsigned(b) * TWO_16 + Unsigned(c) * 256 + Unsigned(d)
  }

  /** The four bytes of the lower half of a long, the highest first. */
  function WordBytes(x: int): seq<Byte> {
    [ToByte(x / TWO_24), ToByte(x / TWO_16), ToByte(x / 256), ToByte(x % 256)]
  }

  /** Twelve bytes for the fixed header. */
  function Header(f: Fields): (h: seq<Byte>)
    ensures |h| == 12
  {
    [ToByte(f.version * 64 + Bit(f.padding) * 32 + Bit(f.extension) * 16 + f.csrcCount),
     ToByte(Bit(f.marker) * 128 + f.payloadType),
     ToByte(f.sequenceNumber / 256), ToByte(f.sequenceNumber % 256)]
    + WordBytes(f.timestamp) + WordBytes(f.ssrc)
  }

  function CsrcBytes(csrcList: seq<int>, n: nat): (s: seq<Byte>)
    requires n <= |csrcList|
    ensures |s| == 4 * n
  {
    if n == 0 then [] else CsrcBytes(csrcList, n - 1) + WordBytes(csrcList[n - 1])
  }

  /** The contributing source that the decoder reads: one byte further for each, and with the sums
      computed before the shifts. */
  function CsrcAt(packet: seq<Byte>, i: nat): int
    requires 12 + i + 3 < |packet|
  {
    var a, b := Unsigned(packet[12 + i]), Unsigned(packet[13 + i]);
    var c, d := Unsigned(packet[14 + i]), Unsigned(packet[15 + i]);
    ShiftLeft(ShiftLeft(ShiftLeft(a, 24 + b), 16 + c), 8 + d)
  }

  lemma EightMore(n: nat)
    ensures Pow2(n + 8) == 256 * Pow2(n)
  {
    assert Pow2(n + 2) == 4 * Pow2(n);
    assert Pow2(n + 4) == 4 * Pow2(n + 2);
    assert Pow2(n + 6) == 4 * Pow2(n + 4);
  }

  /** A source that is not 0 need not come back: its first byte is shifted out. */
  lemma CsrcMisread(packet: seq<Byte>, i: nat)
    requires 12 + i + 3 < |packet| && packet[12 + i] == 1 && packet[13 + i] == 0 && packet[14 + i] == 0
    ensures CsrcAt(packet, i) == 0
    ensures Word(packet[12 + i], packet[13 + i], packet[14 + i], packet[15 + i]) > 0
  {
    Shifted24();
    ShiftedZero(8 + Unsigned(packet[15 + i]));
  }

  lemma Shifted24()
    ensures ShiftLeft(ShiftLeft(1, 24), 16) == 0
  {
    EightMore(0);
    EightMore(8);
    EightMore(16);
    ShiftedBy(1, 24, TWO_24);
    ShiftedBy(TWO_24, 16, TWO_16);
  }

  lemma ShiftedBy(x: int, n: nat, p: int)
    requires n < 32 && Pow2(n) == p
    ensures ShiftLeft(x, n) == ToInt(x * p)
  {}

  lemma ShiftedZero(n: nat)
    ensures ShiftLeft(0, n) == 0
  {
    assert 0 * Pow2(n % 32) == 0;
  }

  lemma DivIs(t: int, q: int, k: int, r: int)
    requires k > 0 && t == q * k + r && 0 <= r < k
    ensures t / k == q && t % k == r
  {
    var d := q - t / k;
    assert d * k == t % k - r;
    AtLeastOne(d, k);
  }

  lemma AtLeastOne(d: int, k: int)
    requires k > 0
    ensures d >= 1 ==> d * k >= k
    ensures d <= -1 ==> d * k <= -k
  {}

  /** The bytes of a word, even after the overflow of an int. */
  lemma WordThere(a: Byte, b: Byte, c: Byte, d: Byte)
    ensures WordBytes(ToInt(Word(a, b, c, d))) == [a, b, c, d]
  {
    var k := Overflow(Word(a, b, c, d));
    SplitWord(a, b, c, d, k);
  }

  lemma Overflow(t: int) returns (k: int)
    ensures ToInt(t) == t + k * TWO_32
  {
    var q := t / TWO_32;
    k := if t % TWO_32 < 0x8000_0000 then -q else -q - 1;
  }

  /** A word and any multiple of 2^32 have the same bytes. */
  lemma SplitWord(a: Byte, b: Byte, c: Byte, d: Byte, k: int)
    ensures WordBytes(Word(a, b, c, d) + k * TWO_32) == [a, b, c, d]
  {
    var u, v, w, x := Unsigned(a), Unsigned(b), Unsigned(c), Unsigned(d);
    var n := Word(a, b, c, d) + k * TWO_32;
    DivIs(n, u + 256 * k, TWO_24, v * TWO_16 + w * 256 + x);
    DivIs(n, u * 256 + v + TWO_16 * k, TWO_16, w * 256 + x);
    DivIs(n, u * TWO_16 + v * 256 + w + TWO_24 * k, 256, x);
    ByteOf(a, n / TWO_24, k);
    ByteOf(b, n / TWO_16, u + 256 * k);
    ByteOf(c, n / 256, u * 256 + v + TWO_16 * k);
    ByteOf(d, n % 256, 0);
  }

  lemma ByteOf(b: Byte, n: int, k: int)
    requires n == Unsigned(b) + 256 * k
    ensures ToByte(n) == b
  {
    DivIs(n, k, 256, Unsigned(b));
  }

  /** Four bytes hold a number modulo 2^32. */
  lemma WordBack(n: int)
    ensures var s := WordBytes(n); Word(s[0], s[1], s[2], s[3]) == n % TWO_32
  {
    var x, n1 := n % 256, n / 256;
    var w, n2 := n1 % 256, n1 / 256;
    var v, n3 := n2 % 256, n2 / 256;
    var u, k := n3 % 256, n3 / 256;
    DivIs(n, n2, TWO_16, w * 256 + x);
    DivIs(n, n3, TWO_24, v * TWO_16 + w * 256 + x);
    DivIs(n, k, TWO_32, u * TWO_24 + v * TWO_16 + w * 256 + x);
    UnsignedByte(n / TWO_24);
    UnsignedByte(n / TWO_16);
    UnsignedByte(n / 256);
    UnsignedByte(n % 256);
  }

  lemma UnsignedByte(n: int)
    ensures Unsigned(ToByte(n)) == n % 256
  {}

  // Whole packets

  function CsrcCountOf(packet: seq<Byte>): nat
    requires |packet| >= 12
  {
    Unsigned(packet[0]) % 16
  }

  function CsrcList(packet: seq<Byte>, n: nat): (s: seq<int>)
    requires |packet| >= 12 + 4 * n
    ensures |s| == n
  {
    seq(n, i requires 0 <= i < n => CsrcAt(packet, i))
  }

  /** What the decoder reads out of the bytes. */
  function DecodedFields(packet: seq<Byte>): Fields
    requires |packet| >= 12 && |packet| >= 12 + 4 * CsrcCountOf(packet)
  {
    var b0, b1, count := Unsigned(packet[0]), Unsigned(packet[1]), CsrcCountOf(packet);
    Fields(b0 / 64, b0 / 32 % 2 != 0, b0 / 16 % 2 != 0, count, b1 / 128 != 0, b1 % 128,
           Unsigned(packet[2]) * 256 + Unsigned(packet[3]),
           ToInt(Word(packet[4], packet[5], packet[6], packet[7])),
           ToInt(Word(packet[8], packet[9], packet[10], packet[11])),
           CsrcList(packet, count), packet[12 + 4 * count..])
  }

  function EncodedBytes(f: Fields): (s: seq<Byte>)
    requires 0 <= f.csrcCount <= |f.csrcList|
    ensures |s| == 12 + 4 * f.csrcCount + |f.data|
  {
    Header(f) + CsrcBytes(f.csrcList, f.csrcCount) + f.data
  }

  lemma FirstByte(b: Byte)
    ensures var u := Unsigned(b);
      ToByte(u / 64 * 64 + Bit(u / 32 % 2 != 0) * 32 + Bit(u / 16 % 2 != 0) * 16 + u % 16) == b
  {
    var u := Unsigned(b);
    assert u / 16 == 2 * (u / 32) + u / 16 % 2 && u / 32 == 2 * (u / 64) + u / 32 % 2;
    assert u == 16 * (u / 16) + u % 16;
    ByteOf(b, u, 0);
  }

  lemma SecondByte(b: Byte)
    ensures var u := Unsigned(b); ToByte(Bit(u / 128 != 0) * 128 + u % 128) == b
  {
    var u := Unsigned(b);
    assert u / 128 == 0 || u / 128 == 1;
    ByteOf(b, u, 0);
  }

  lemma SequenceBytes(a: Byte, b: Byte)
    ensures var n := Unsigned(a) * 256 + Unsigned(b); ToByte(n / 256) == a && ToByte(n % 256) == b
  {
    DivIs(Unsigned(a) * 256 + Unsigned(b), Unsigned(a), 256, Unsigned(b));
    ByteOf(a, Unsigned(a), 0);
    ByteOf(b, Unsigned(b), 0);
  }

  /** The header of a packet comes back byte for byte. */
  lemma HeaderAgain(packet: seq<Byte>)
    requires |packet| >= 12 && |packet| >= 12 + 4 * CsrcCountOf(packet)
    ensures Header(DecodedFields(packet)) == packet[..12]
  {
    FirstByte(packet[0]);
    SecondByte(packet[1]);
    SequenceBytes(packet[2], packet[3]);
    WordThere(packet[4], packet[5], packet[6], packet[7]);
    WordThere(packet[8], packet[9], packet[10], packet[11]);
  }

  /** Encoding undoes decoding for packets without contributing sources; otherwise it keeps the
      length, the fixed header and the payload. */
  lemma EncodedDecoded(packet: seq<Byte>)
    requires |packet| >= 12 && |packet| >= 12 + 4 * CsrcCountOf(packet)
    ensures var r, n := EncodedBytes(DecodedFields(packet)), 12 + 4 * CsrcCountOf(packet);
      |r| == |packet| && r[..12] == packet[..12] && r[n..] == packet[n..] && (n == 12 ==> r == packet)
  {
    HeaderAgain(packet);
    var f := DecodedFields(packet);
    var head := Header(f) + CsrcBytes(f.csrcList, f.csrcCount);
    assert EncodedBytes(f) == head + f.data && EncodedBytes(f)[..12] == Header(f);
    assert EncodedBytes(f)[|head|..] == f.data;
    if CsrcCountOf(packet) == 0 {
      assert CsrcBytes(f.csrcList, 0) == [];
      assert packet == packet[..12] + packet[12..];
    }
  }

  /** What reading a packet gives: null, an exception, or a packet. */
  datatype Decoding = TooShort | Failed | Decoded(packet: RtpPacket)

  /** `decode` */
  method Decode(packet: array<Byte>) returns (r: Decoding)
    ensures r.TooShort? <==> packet.Length < 12
    ensures r.Failed? <==> 12 <= packet.Length < 12 + 4 * CsrcCountOf(packet[..])
    ensures r.Decoded? ==> fresh(r.packet) && r.packet.View() == DecodedFields(packet[..])
  {
    if packet.Length < 12 {
      return TooShort;
    }
    var p := DecodeHeader(packet);
    var dataOffset := 12 + p.csrcCount * 4;
    if packet.Length < dataOffset {
      return Failed;
    }
    p.csrcList := ReadCsrc(packet, p.csrcCount);
    p.data := packet[dataOffset..];
    r := Decoded(p);
  }

  /** The twelve bytes that every packet has. */
  method DecodeHeader(packet: array<Byte>) returns (p: RtpPacket)
    requires packet.Length >= 12
    ensures fresh(p) && p.csrcCount == CsrcCountOf(packet[..]) && HeaderOf(p.View(), packet[..])
  {
    p := new RtpPacket();
    var b := Unsigned(packet[0]);
    p.version := b / 64;
    p.padding := b / 32 % 2 != 0;
    p.extension := b / 16 % 2 != 0;
    p.csrcCount := b % 16;
    b := Unsigned(packet[1]);
    p.marker := b / 128 != 0;
    p.payloadType := b % 128;
    b := Unsigned(packet[2]);
    p.sequenceNumber := b * 256 + Unsigned(packet[3]);
    p.timestamp := ToInt(Word(packet[4], packet[5], packet[6], packet[7]));
    p.ssrc := ToInt(Word(packet[8], packet[9], packet[10], packet[11]));
  }

  ghost predicate HeaderOf(f: Fields, packet: seq<Byte>)
    requires |packet| >= 12
  {
    var b0, b1 := Unsigned(packet[0]), Unsigned(packet[1]);
    && f.version == b0 / 64 && f.padding == (b0 / 32 % 2 != 0) && f.extension == (b0 / 16 % 2 != 0)
    && f.csrcCount == b0 % 16
    && f.marker == (b1 / 128 != 0) && f.payloadType == b1 % 128
    && f.sequenceNumber == Unsigned(packet[2]) * 256 + Unsigned(packet[3])
    && f.timestamp == ToInt(Word(packet[4], packet[5], packet[6], packet[7]))
    && f.ssrc == ToInt(Word(packet[8], packet[9], packet[10], packet[11]))
  }

  method ReadCsrc(packet: array<Byte>, count: nat) returns (csrcList: seq<int>)
    requires packet.Length >= 12 + 4 * count
    ensures csrcList == CsrcList(packet[..], count)
  {
    csrcList := [];
    for i := 0 to count
      invariant csrcList == CsrcList(packet[..], count)[..i]
    {
      csrcList := csrcList + [CsrcAt(packet[..], i)];
    }
  }

  /** `encode` */
  method Encode(p: RtpPacket) returns (packet: array<Byte>)
    requires 0 <= p.csrcCount <= |p.csrcList|
    ensures fresh(packet) && packet[..] == EncodedBytes(p.View())
  {
    var dataOffset := 12 + p.csrcCount * 4;
    packet := new Byte[dataOffset + |p.data|](_ => 0);
    PutHeader(p, packet);
    PutCsrc(p, packet);
    PutData(p, packet, dataOffset);
    assert packet[..] == packet[..dataOffset + |p.data|];
  }

  method PutHeader(p: RtpPacket, packet: array<Byte>)
    requires packet.Length >= 12
    modifies packet
    ensures packet[..12] == Header(p.View())
  {
    var b := p.version * 64 + Bit(p.padding) * 32 + Bit(p.extension) * 16 + p.csrcCount;
    packet[0] := ToByte(b);
    b := Bit(p.marker) * 128 + p.payloadType;
    packet[1] := ToByte(b);
    packet[2], packet[3] := ToByte(p.sequenceNumber / 256), ToByte(p.sequenceNumber % 256);
    ghost var start := packet[..4];
    PutWord(packet, 4, p.timestamp);
    assert packet[..8] == start + WordBytes(p.timestamp);
    PutWord(packet, 8, p.ssrc);
    assert packet[..12] == start + WordBytes(p.timestamp) + WordBytes(p.ssrc);
  }

  method PutCsrc(p: RtpPacket, packet: array<Byte>)
    requires 0 <= p.csrcCount <= |p.csrcList| && packet.Length >= 12 + 4 * p.csrcCount
    requires packet[..12] == Header(p.View())
    modifies packet
    ensures packet[..12 + 4 * p.csrcCount] == Header(p.View()) + CsrcBytes(p.csrcList, p.csrcCount)
  {
    for i := 0 to p.csrcCount
      invariant packet[..12 + 4 * i] == Header(p.View()) + CsrcBytes(p.csrcList, i)
    {
      PutWord(packet, 12 + i * 4, p.csrcList[i]);
      assert packet[..12 + 4 * (i + 1)] == packet[..12 + 4 * i] + WordBytes(p.csrcList[i]);
    }
  }

  method PutData(p: RtpPacket, packet: array<Byte>, dataOffset: nat)
    requires packet.Length == dataOffset + |p.data|
    modifies packet
    ensures packet[..] == old(packet[..dataOffset]) + p.data
  {
    for i := 0 to |p.data|
      invariant packet[..dataOffset + i] == old(packet[..dataOffset]) + p.data[..i]
    {
      packet[dataOffset + i] := p.data[i];
      assert packet[..dataOffset + i + 1] == packet[..dataOffset + i] + [p.data[i]];
    }
    assert packet[..] == packet[..dataOffset + |p.data|] && p.data[..|p.data|] == p.data;
  }

  method PutWord(packet: array<Byte>, at: nat, x: int)
    requires at + 4 <= packet.Length
    modifies packet
    ensures packet[..] == old(packet[..at]) + WordBytes(x) + old(packet[at + 4..])
  {
    packet[at], packet[at + 1] := ToByte(x / TWO_24), ToByte(x / TWO_16);
    packet[at + 2], packet[at + 3] := ToByte(x / 256), ToByte(x % 256);
  }
}
